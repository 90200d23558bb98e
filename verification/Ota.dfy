/** components/app/ota/ota.c: the receive-side machine, one call at a time.
    `Machine` is the file's static state plus the hardware it drives and the history needed to say
    what a call achieved; each entry point has a specification function on it, and class `Receiver`
    holds the fields the source updates and is proved against those functions. */
module Ota {
  import opened Prelude
  import opened SupPolicy

  const HWID_LEN: nat := 24
  const BEGIN_LEN: nat := 76
  const IMG_DESC_OFF: nat := 0x20
  const IMG_HWID_OFF: nat := 0x120
  const HWID_CHECK_AT: nat := 4096
  const RECV_TIMEOUT_S: U32 := 30
  const REBOOT_DELAY_US: nat := 2 * 1000000

  datatype State = Idle | Recv | Reboot | Verify | Writing | Aborting
  datatype Rc = Ok | Precond | HwidMismatch | WriteError | BadSignature

  /** The SHA-256 context, represented by the bytes fed to it. */
  datatype Sha = Freed | Hashing(input: seq<Byte>)

  /** Writes that survive a power cut, in the order they happened. */
  datatype Persistent = FlagSet | FlagClear | BootSwitch

  /** One OTA_DATA block the machine accepted: the offset it declared and its bytes. */
  datatype Block = Block(offset: nat, bytes: seq<Byte>)

  /** What this unit is and what its hardware computes: the running image's hwid, the test of a
      target descriptor's project name, SHA-256, and the signature check. */
  datatype Board = Board(
    hwid: seq<Byte>,
    sameProject: seq<Byte> -> bool,
    sha256: seq<Byte> -> seq<Byte>,
    signed: seq<Byte> -> bool)

  /** The hardware behind the machine, and what happened to it. */
  datatype Hardware = Hardware(
    slot: seq<Byte>,            // what the target slot holds since its last erase
    flag: bool,                 // persisted pending flag
    bootIsTarget: bool,
    begun: nat,                 // handles esp_ota_begin has returned: 1, 2, ..., begun
    released: seq<nat>,         // handles given back by esp_ota_end or esp_ota_abort, in order
    blocks: seq<Block>,         // data accepted by the current transfer
    lastDataUs: nat,            // true clock reading behind the last data stamp
    writes: seq<Persistent>)

  /** The statics that describe the open transfer. */
  datatype Transfer = Transfer(
    handle: nat,                // 0 = no open handle
    hasTarget: bool,
    size: U32,
    recv: nat,
    shaWant: seq<Byte>,
    sha: Sha,
    hwidOk: bool)

  const NoTransfer := Transfer(0, false, 0, 0, [], Freed, false)

  datatype Machine = Machine(
    st: State,
    x: Transfer,
    rebootAt: Option<nat>,      // None = not due
    lastData: U32,              // millisecond stamp of the last accepted data
    busy: bool,                 // SYS_OTA_PENDING
    hw: Hardware)

  datatype BeginArgs = BeginArgs(
    payload: seq<Byte>, stillMs: U32, batt: bool, slotPending: bool,
    closeAcked: bool, clearOk: bool, targetFound: bool, eraseOk: bool)
  datatype DataArgs = DataArgs(payload: seq<Byte>, writeOk: bool, selfOk: bool, readOk: bool)
  datatype EndArgs = EndArgs(batt: bool, endOk: bool, flagOk: bool, bootOk: bool, clearOk: bool)

  const Start := Machine(Idle, NoTransfer, None, 0, false, Hardware([], false, false, 0, [], [], 0, []))

  function RdU32Le(p: seq<Byte>): (v: U32)
    requires |p| >= 4
  {
    p[0] as int + 0x100 * p[1] as int + 0x1_0000 * p[2] as int + 0x100_0000 * p[3] as int
  }

  lemma RdU32LeMeans(p: seq<Byte>)
    requires |p| >= 4
    ensures IsLe32(RdU32Le(p), p)
  {
    Le32Of(RdU32Le(p), p);
  }

  function StampMs(us: nat): U32 { us / 1000 % TWO_32 }

  // ---- the hardware calls ----

  function Erased(h: Hardware): Hardware { h.(slot := [], blocks := []) }

  function Begun(h: Hardware): Hardware { Erased(h).(begun := h.begun + 1) }

  function Released(h: Hardware, handle: nat): Hardware { h.(released := h.released + [handle]) }

  function Appended(h: Hardware, x: Block): Hardware {
    h.(slot := h.slot + x.bytes, blocks := h.blocks + [x])
  }

  function FlagRaised(h: Hardware): Hardware { h.(flag := true, writes := h.writes + [FlagSet]) }

  function FlagCleared(h: Hardware): Hardware { h.(flag := false, writes := h.writes + [FlagClear]) }

  function Switched(h: Hardware): Hardware { h.(bootIsTarget := true, writes := h.writes + [BootSwitch]) }

  // ---- helpers shared by every exit ----

  function ResetFieldsF(m: Machine): Machine {
    m.(x := m.x.(handle := 0, hasTarget := false, size := 0, recv := 0, hwidOk := false), rebootAt := None)
  }

  function ReleaseF(m: Machine): Machine {
    if m.x.handle != 0 then m.(hw := Released(m.hw, m.x.handle)) else m
  }

  function FreeShaF(m: Machine): Machine { m.(x := m.x.(sha := Freed)) }

  function DropHandleF(m: Machine): Machine { m.(x := m.x.(handle := 0)) }

  function FailF(m: Machine): Machine {
    ResetFieldsF(FreeShaF(ReleaseF(m))).(busy := false, st := Idle)
  }

  function ClearFlagF(m: Machine, ok: bool): Machine {
    if ok then m.(hw := FlagCleared(m.hw)) else m
  }

  /** The target check on the bytes already in the slot. */
  predicate TargetMatches(b: Board, slot: seq<Byte>)
  {
    && |slot| >= HWID_CHECK_AT
    && b.sameProject(slot[IMG_DESC_OFF..IMG_HWID_OFF])
    && slot[IMG_HWID_OFF..IMG_HWID_OFF + HWID_LEN] == b.hwid
  }

  /** At least 4096 bytes, the application descriptor from byte 0x20 of the unit's own project, and the 24 bytes
      from 0x120 the unit's hardware id. */
  lemma TargetMatchesIff(b: Board, slot: seq<Byte>)
    ensures TargetMatches(b, slot) <==>
              |slot| >= 4096 && b.sameProject(slot[0x20..0x120]) && slot[0x120..0x138] == b.hwid
  {
  }

  function VerifyHwid(b: Board, slot: seq<Byte>, selfOk: bool, readOk: bool): Rc
  {
    if !selfOk || !readOk then WriteError
    else if !TargetMatches(b, slot) then HwidMismatch
    else Ok
  }

  // ---- ota_begin ----

  function Pre(m: Machine, a: BeginArgs, sessionOpen: bool): Preconditions
    requires |a.payload| >= BEGIN_LEN
  {
    Preconditions(a.stillMs, RdU32Le(a.payload), m.st != Idle, sessionOpen, a.batt, m.hw.flag, a.slotPending)
  }

  /** The whole pre-check: evaluate, close the session if asked to, evaluate again. */
  function PrecheckVerdict(m: Machine, a: BeginArgs): Verdict
    requires |a.payload| >= BEGIN_LEN
  {
    var v := OtaPrecondEval(Pre(m, a, true)).0;
    if v == PreCloseSession then
      if !a.closeAcked then PreRefuse else OtaPrecondEval(Pre(m, a, false)).0
    else v
  }

  function EraseF(m: Machine): Machine {
    m.(x := m.x.(hasTarget := true, handle := m.hw.begun + 1), hw := Begun(m.hw))
  }

  function ArmF(m: Machine, a: BeginArgs, us: nat): Machine
    requires |a.payload| >= BEGIN_LEN
  {
    m.(x := Transfer(m.x.handle, m.x.hasTarget, RdU32Le(a.payload), 0, a.payload[4..36], Hashing([]), false),
       lastData := StampMs(us), busy := true, st := Recv, hw := m.hw.(lastDataUs := us))
  }

  function PrecheckF(m: Machine, a: BeginArgs): (Machine, bool)
    requires |a.payload| >= BEGIN_LEN
  {
    match PrecheckVerdict(m, a)
    case PreOk => (m, true)
    case PreClearStale => (ClearFlagF(m, a.clearOk), true)
    case _ => (m, false)
  }

  /** Everything ota_begin does once the pre-check has let the push through. */
  function OpenF(m: Machine, a: BeginArgs, us: nat): (Machine, Rc)
    requires |a.payload| >= BEGIN_LEN
  {
    if !a.targetFound then (m.(x := m.x.(hasTarget := false)), Precond)
    else if !a.eraseOk then (m.(x := m.x.(handle := 0, hasTarget := false), hw := Erased(m.hw)), WriteError)
    else (ArmF(EraseF(m), a, us), Ok)
  }

  function BeginF(m: Machine, b: Board, a: BeginArgs, us: nat): (Machine, Rc)
  {
    if |a.payload| < BEGIN_LEN || m.busy then (m, Precond)
    else if a.payload[52..76] != b.hwid then (m, HwidMismatch)
    else
      var (m1, go) := PrecheckF(m, a);
      if !go then (m, Precond) else OpenF(m1, a, us)
  }

  // ---- ota_data ----

  predicate DataAccepted(m: Machine, p: seq<Byte>)
  {
    && m.x.handle != 0
    && |p| > 4
    && RdU32Le(p) == m.x.recv
    && m.x.recv + |p| - 4 <= m.x.size
  }

  function AppendF(m: Machine, p: seq<Byte>): Machine
    requires |p| > 4
  {
    m.(hw := Appended(m.hw, Block(RdU32Le(p), p[4..])))
  }

  function HashF(m: Machine, data: seq<Byte>): Machine {
    if m.x.sha.Hashing? then m.(x := m.x.(sha := Hashing(m.x.sha.input + data))) else m
  }

  function CountF(m: Machine, n: nat): Machine { m.(x := m.x.(recv := m.x.recv + n)) }

  function StampF(m: Machine, us: nat): Machine {
    m.(lastData := StampMs(us), hw := m.hw.(lastDataUs := us))
  }

  function StoredF(m: Machine, p: seq<Byte>, us: nat): Machine
    requires |p| > 4
  {
    StampF(CountF(HashF(AppendF(m, p), p[4..]), |p| - 4), us)
  }

  /** ota_data's body; the caller holds the machine as Writing. */
  function DataWriteF(m: Machine, b: Board, d: DataArgs, us: nat): (Machine, Rc)
  {
    if !DataAccepted(m, d.payload) then (m, WriteError)
    else if !d.writeOk then (FailF(m), WriteError)
    else
      var m1 := StoredF(m, d.payload, us);
      if m1.x.hwidOk || m1.x.recv < HWID_CHECK_AT then (m1, Ok)
      else
        var rc := VerifyHwid(b, m1.hw.slot, d.selfOk, d.readOk);
        if rc != Ok then (FailF(m1), rc) else (m1.(x := m1.x.(hwidOk := true)), Ok)
  }

  function DataF(m: Machine, b: Board, d: DataArgs, us: nat): (Machine, Rc)
  {
    if m.st != Recv then (m, Precond)
    else
      var (m1, rc) := DataWriteF(m.(st := Writing), b, d, us);
      (if m1.st == Writing then m1.(st := Recv) else m1, rc)
  }

  // ---- ota_end ----

  function EndCheckF(m: Machine, b: Board, e: EndArgs): (Machine, Rc)
  {
    if m.x.recv != m.x.size then (FailF(m), WriteError)
    else if !m.x.hwidOk then (FailF(m), HwidMismatch)
    else
      var m1 := FreeShaF(m);
      if !m.x.sha.Hashing? || b.sha256(m.x.sha.input) != m.x.shaWant then (FailF(m1), WriteError)
      else if !e.batt then (FailF(m1), Precond)
      else (m1, Ok)
  }

  function SetFlagF(m: Machine): Machine {
    m.(hw := FlagRaised(m.hw))
  }

  function SwitchBootF(m: Machine): Machine {
    m.(hw := Switched(m.hw))
  }

  function EndCommitF(m: Machine, b: Board, e: EndArgs, us: nat): (Machine, Rc)
  {
    if m.x.handle == 0 || !m.x.hasTarget then (m, WriteError)
    else
      var m1 := DropHandleF(ReleaseF(m));
      if !e.endOk || !b.signed(m.hw.slot) then (FailF(m1), BadSignature)
      else if !e.flagOk then (FailF(m1), WriteError)
      else
        var m2 := SetFlagF(m1);
        if !e.bootOk then (FailF(ClearFlagF(m2, e.clearOk)), WriteError)
        else (SwitchBootF(m2).(rebootAt := Some(us + REBOOT_DELAY_US), st := Reboot), Ok)
  }

  function EndRunF(m: Machine, b: Board, e: EndArgs, us: nat): (Machine, Rc)
  {
    var (m1, rc) := EndCheckF(m, b, e);
    if rc != Ok then (m1, rc) else EndCommitF(m1, b, e, us)
  }

  function EndF(m: Machine, b: Board, e: EndArgs, us: nat): (Machine, Rc)
  {
    if m.st != Recv then (m, Precond)
    else
      var (m1, rc) := EndRunF(m.(st := Verify), b, e, us);
      if m1.st == Verify then (FailF(m1), rc) else (m1, rc)
  }

  // ---- ota_abort, ota_poll, ota_reboot_due ----

  function AbortF(m: Machine): Machine {
    if m.st != Recv then m else FailF(m.(st := Aborting))
  }

  predicate StaleAt(m: Machine, us: nat) {
    OtaRecvStale(StampMs(us), m.lastData, RECV_TIMEOUT_S)
  }

  function PollF(m: Machine, us: nat): Machine {
    if m.st == Recv && StaleAt(m, us) then FailF(m.(st := Aborting)) else m
  }

  predicate RebootDue(m: Machine, us: nat) {
    m.st == Reboot && m.rebootAt.Some? && us >= m.rebootAt.value
  }

  // ---- what a quiet machine satisfies ----

  function UpTo(n: nat): (s: seq<nat>)
    ensures |s| == n
    ensures forall i :: 0 <= i < n ==> s[i] == i + 1
  {
    seq(n, i => i + 1)
  }

  function Joined(bs: seq<Block>): seq<Byte>
  {
    if bs == [] then [] else Joined(bs[..|bs| - 1]) + bs[|bs| - 1].bytes
  }

  /** Every block starts exactly where the blocks before it end, beginning at offset 0. */
  predicate InOrder(bs: seq<Block>)
  {
    forall i :: 0 <= i < |bs| ==> bs[i].offset == |Joined(bs[..i])|
  }

  /** Everything that must be true of the target slot for it to be allowed to boot. */
  predicate Certified(m: Machine, b: Board)
  {
    && |m.hw.slot| == m.x.size > 0
    && m.hw.slot == Joined(m.hw.blocks) && InOrder(m.hw.blocks)
    && b.sha256(m.hw.slot) == m.x.shaWant
    && TargetMatches(b, m.hw.slot)
    && b.signed(m.hw.slot)
    && m.hw.flag
    && |m.hw.writes| >= 2 && m.hw.writes[|m.hw.writes| - 2..] == [FlagSet, BootSwitch]
  }

  predicate Receiving(m: Machine, b: Board)
  {
    && m.x.handle == m.hw.begun > 0 && m.hw.released == UpTo(m.hw.begun - 1)
    && m.x.hasTarget && m.busy
    && 0 < m.x.size && m.x.recv == |m.hw.slot| <= m.x.size
    && m.x.sha == Hashing(m.hw.slot)
    && m.hw.slot == Joined(m.hw.blocks) && InOrder(m.hw.blocks)
    && (m.x.hwidOk ==> TargetMatches(b, m.hw.slot))
    && m.lastData == StampMs(m.hw.lastDataUs)
    && m.rebootAt == None
  }

  /** The target check has been passed exactly if its 4096 bytes are there. */
  predicate TargetChecked(m: Machine) { m.x.hwidOk <==> |m.hw.slot| >= HWID_CHECK_AT }

  /** The state between calls: no handle is outstanding unless a transfer is open, and Reboot is
      reached only with a certified slot. */
  predicate Quiet(m: Machine, b: Board)
  {
    match m.st
    case Idle => m.x.handle == 0 && m.x.sha == Freed && m.hw.released == UpTo(m.hw.begun) && !m.busy && m.rebootAt == None
    case Recv => Receiving(m, b) && TargetChecked(m)
    case Reboot => m.x.handle == 0 && m.x.sha == Freed && m.hw.released == UpTo(m.hw.begun) && m.busy
                   && m.rebootAt.Some? && Certified(m, b)
    case _ => false
  }

  lemma UpToGrows(n: nat)
    ensures UpTo(n) + [n + 1] == UpTo(n + 1)
  {
  }

  lemma JoinedPush(bs: seq<Block>, x: Block)
    ensures Joined(bs + [x]) == Joined(bs) + x.bytes
    ensures InOrder(bs) && x.offset == |Joined(bs)| ==> InOrder(bs + [x])
  {
    assert (bs + [x])[..|bs|] == bs;
    if InOrder(bs) && x.offset == |Joined(bs)| {
      forall i | 0 <= i < |bs| + 1
        ensures (bs + [x])[i].offset == |Joined((bs + [x])[..i])|
      {
        if i < |bs| {
          assert (bs + [x])[..i] == bs[..i];
        }
      }
    }
  }

  /** Giving up an open transfer gives its handle back, once. */
  lemma FailIsQuiet(m: Machine, b: Board)
    requires
      || (m.x.handle == m.hw.begun > 0 && m.hw.released == UpTo(m.hw.begun - 1))
      || (m.x.handle == 0 && m.hw.released == UpTo(m.hw.begun))
    ensures Quiet(FailF(m), b) && FailF(m).st == Idle
    ensures FailF(m).hw.begun == m.hw.begun && FailF(m).hw.writes == m.hw.writes
  {
    if m.x.handle != 0 {
      UpToGrows(m.hw.begun - 1);
    }
  }

  /** A transfer given up leaves nothing behind: no handle, no target, no counters, no hash context, no deadline
      and no busy flag; on the hardware only the handle is given back. */
  lemma FailClears(m: Machine)
    ensures var r := FailF(m);
            && r.st == Idle && r.x == Transfer(0, false, 0, 0, m.x.shaWant, Freed, false) && r.rebootAt == None && !r.busy
            && r.hw == m.hw.(released := m.hw.released + if m.x.handle == 0 then [] else [m.x.handle])
  {
    assert m.hw.released + [] == m.hw.released;
  }

  lemma StartIsQuiet(b: Board)
    ensures Quiet(Start, b) && Start.st == Idle && Start.hw.writes == [] && !Start.hw.bootIsTarget
  {
  }

  lemma TargetMatchesPrefix(b: Board, slot: seq<Byte>, more: seq<Byte>)
    requires TargetMatches(b, slot)
    ensures TargetMatches(b, slot + more)
  {
    assert (slot + more)[IMG_DESC_OFF..IMG_HWID_OFF] == slot[IMG_DESC_OFF..IMG_HWID_OFF];
    assert (slot + more)[IMG_HWID_OFF..IMG_HWID_OFF + HWID_LEN] == slot[IMG_HWID_OFF..IMG_HWID_OFF + HWID_LEN];
  }

  lemma BeginKeepsQuiet(m: Machine, b: Board, a: BeginArgs, us: nat)
    requires Quiet(m, b)
    ensures Quiet(BeginF(m, b, a, us).0, b)
    ensures BeginF(m, b, a, us).1 == Ok ==> m.st == Idle && BeginF(m, b, a, us).0.st == Recv
    ensures BeginF(m, b, a, us).1 != Ok ==> BeginF(m, b, a, us).0.st == m.st
  {
    var (m', rc) := BeginF(m, b, a, us);
    if rc == Ok {
      UpToGrows(m.hw.begun);
      assert m'.hw.released == UpTo(m'.hw.begun - 1);
      assert m'.hw.slot == Joined(m'.hw.blocks);
    }
  }

  /** The machine expects what the begin header announced: its first four bytes the size, the 32 bytes
      behind them the hash. */
  predicate Announced(m: Machine, header: seq<Byte>) {
    |header| >= BEGIN_LEN && IsLe32(m.x.size, header) && m.x.shaWant == header[4..36]
  }

  /** An accepted begin expects just that, of an empty slot behind a new handle; the whole list of what it
      takes to be accepted. */
  lemma BeginMeans(m: Machine, b: Board, a: BeginArgs, us: nat)
    requires Quiet(m, b)
    ensures var (r, rc) := BeginF(m, b, a, us);
            && (rc == Ok <==>
                  && m.st == Idle && |a.payload| >= 76 && a.payload[52..76] == b.hwid
                  && (exists size :: 0 < size <= OTA_MAX_IMG_BYTES && IsLe32(size, a.payload))
                  && a.stillMs >= OTA_STILL_MIN_MS && a.batt && !a.slotPending
                  && a.closeAcked && a.targetFound && a.eraseOk)
            && (rc == Ok ==>
                  && Announced(r, a.payload) && r.hw.slot == [] && r.x.sha == Hashing([]) && !r.x.hwidOk
                  && r.hw.begun == m.hw.begun + 1 && r.x.handle == r.hw.begun && r.lastData == us / 1000 % TWO_32)
            && (rc == HwidMismatch <==> |a.payload| >= 76 && m.st == Idle && a.payload[52..76] != b.hwid)
            && (rc == WriteError ==> !a.eraseOk && !r.x.hasTarget && r.x.handle == 0 && r.hw.begun == m.hw.begun)
            && (rc != Ok ==> r.st == m.st && r.busy == m.busy && r.hw.released == m.hw.released)
  {
    if |a.payload| >= BEGIN_LEN {
      RdU32LeMeans(a.payload);
      var size := RdU32Le(a.payload);
      assert IsLe32(size, a.payload);
      forall other | IsLe32(other, a.payload) ensures other == size {
        Le32Unique(size, other, a.payload);
      }
      FlagAloneNeverRefuses(Pre(m, a, true));
      FlagAloneNeverRefuses(Pre(m, a, false));
    }
  }

  /** The persisted flag alone changes neither whether a push is accepted nor the code it gets. */
  lemma BeginIgnoresTheFlag(m: Machine, b: Board, a: BeginArgs, us: nat, flag: bool)
    ensures BeginF(m.(hw := m.hw.(flag := flag)), b, a, us).1 == BeginF(m, b, a, us).1
    ensures BeginF(m, b, a, us).1 == Ok && a.clearOk ==> !BeginF(m, b, a, us).0.hw.flag
  {
    if |a.payload| >= BEGIN_LEN {
      FlagAloneNeverRefuses(Pre(m, a, true));
      FlagAloneNeverRefuses(Pre(m, a, false));
    }
  }

  lemma StoredKeepsReceiving(m: Machine, b: Board, p: seq<Byte>, us: nat)
    requires Receiving(m, b) && DataAccepted(m, p)
    ensures Receiving(StoredF(m, p, us), b)
    ensures StoredF(m, p, us).hw.slot == m.hw.slot + p[4..]
  {
    JoinedPush(m.hw.blocks, Block(RdU32Le(p), p[4..]));
    if m.x.hwidOk {
      TargetMatchesPrefix(b, m.hw.slot, p[4..]);
    }
  }

  lemma DataWriteKeepsReceiving(w: Machine, b: Board, d: DataArgs, us: nat)
    requires w.st == Writing && Receiving(w, b) && TargetChecked(w)
    ensures var (m1, rc) := DataWriteF(w, b, d, us);
            && (m1.st == Writing ==> Receiving(m1, b) && TargetChecked(m1))
            && (m1.st != Writing ==> m1.st == Idle && Quiet(m1, b) && rc != Ok)
            && (rc == Ok ==> m1.hw.slot == w.hw.slot + d.payload[4..] && m1.hw.lastDataUs == us)
            && (rc == Ok || m1.st == Idle || m1 == w)
  {
    if DataAccepted(w, d.payload) {
      if d.writeOk {
        StoredKeepsReceiving(w, b, d.payload, us);
        FailIsQuiet(StoredF(w, d.payload, us), b);
      } else {
        FailIsQuiet(w, b);
      }
    }
  }

  /** A refused or failed block leaves the slot and its certificate alone; an accepted one extends
      the slot by exactly its bytes. */
  lemma {:induction false} DataKeepsQuiet(m: Machine, b: Board, d: DataArgs, us: nat)
    requires Quiet(m, b)
    ensures Quiet(DataF(m, b, d, us).0, b)
    ensures DataF(m, b, d, us).1 == Ok ==>
              DataF(m, b, d, us).0.hw.slot == m.hw.slot + d.payload[4..] && DataF(m, b, d, us).0.hw.lastDataUs == us
    ensures DataF(m, b, d, us).1 != Ok ==> DataF(m, b, d, us).0 == m || DataF(m, b, d, us).0.st == Idle
  {
    if m.st == Recv {
      DataWriteKeepsReceiving(m.(st := Writing), b, d, us);
    }
  }

  /** ota_end either gives the transfer up or arms the reboot, and it arms the reboot only with
      everything checked on the very bytes that are in the slot. */
  lemma {:induction false} EndKeepsQuiet(m: Machine, b: Board, e: EndArgs, us: nat)
    requires Quiet(m, b)
    ensures Quiet(EndF(m, b, e, us).0, b)
    ensures m.st == Recv ==> EndF(m, b, e, us).0.st in {Idle, Reboot}
    ensures m.st == Recv && EndF(m, b, e, us).1 == Ok ==>
              && EndF(m, b, e, us).0.st == Reboot
              && EndF(m, b, e, us).0.rebootAt == Some(us + REBOOT_DELAY_US)
              && EndF(m, b, e, us).0.hw.slot == m.hw.slot
  {
    if m.st == Recv {
      var v := m.(st := Verify);
      FailIsQuiet(v, b);
      var (m1, rc) := EndCheckF(v, b, e);
      if rc == Ok {
        assert m1 == FreeShaF(v);
        var m2 := DropHandleF(ReleaseF(m1));
        UpToGrows(m.hw.begun - 1);
        FailIsQuiet(m2, b);
        FailIsQuiet(ClearFlagF(SetFlagF(m2), e.clearOk), b);
      } else {
        FailIsQuiet(FreeShaF(v), b);
      }
    }
  }

  lemma AbortAndPollKeepQuiet(m: Machine, b: Board, us: nat)
    requires Quiet(m, b)
    ensures Quiet(AbortF(m), b) && Quiet(PollF(m, us), b)
    ensures m.st == Recv ==> AbortF(m).st == Idle
    ensures m.st == Recv && StaleAt(m, us) ==> PollF(m, us).st == Idle
    ensures m.st != Recv || !StaleAt(m, us) ==> PollF(m, us) == m
  {
    if m.st == Recv {
      FailIsQuiet(m.(st := Aborting), b);
    }
  }

  /** The writes one ota_end adds, in order: the flag and then the boot slot when it arms a reboot,
      and otherwise nothing, the flag alone, or the flag and its clearing. */
  predicate EndWrites(added: seq<Persistent>, armed: bool)
  {
    if armed then added == [FlagSet, BootSwitch]
    else added == [] || added == [FlagSet] || added == [FlagSet, FlagClear]
  }

  lemma CommitWrites(m: Machine, b: Board, e: EndArgs, us: nat) returns (added: seq<Persistent>)
    requires m.st == Verify
    ensures EndCommitF(m, b, e, us).0.hw.writes == m.hw.writes + added
    ensures EndWrites(added, EndCommitF(m, b, e, us).0.st == Reboot)
  {
    var r := EndCommitF(m, b, e, us).0;
    if r.st == Reboot {
      added := [FlagSet, BootSwitch];
    } else if r.hw.writes == m.hw.writes {
      added := [];
    } else {
      added := if e.clearOk then [FlagSet, FlagClear] else [FlagSet];
    }
  }

  lemma EndWritesFlagBeforeBoot(m: Machine, b: Board, e: EndArgs, us: nat) returns (added: seq<Persistent>)
    requires m.st == Recv
    ensures EndF(m, b, e, us).0.hw.writes == m.hw.writes + added
    ensures EndWrites(added, EndF(m, b, e, us).0.st == Reboot)
  {
    var (m1, rc) := EndCheckF(m.(st := Verify), b, e);
    if rc == Ok {
      added := CommitWrites(m1, b, e, us);
    } else {
      added := [];
    }
  }

  // ---- the file's statics and entry points, in the source's own form ----

  class Receiver {
    const board: Board

    var st: State
    var x: Transfer
    var rebootAt: Option<nat>
    var lastData: U32
    var busy: bool
    var hw: Hardware

    ghost function View(): Machine
      reads this
    {
      Machine(st, x, rebootAt, lastData, busy, hw)
    }

    constructor (b: Board)
      ensures board == b && View() == Start
    {
      board := b;
      st, x, rebootAt, lastData, busy := Idle, NoTransfer, None, 0, false;
      hw := Start.hw;
    }

    /** ota_claim: one compare-exchange on the state word. */
    method Claim(from: State, to: State) returns (won: bool)
      modifies this`st
      ensures won <==> old(st) == from
      ensures st == if won then to else old(st)
    {
      won := st == from;
      if won {
        st := to;
      }
    }

    method Reset()
      modifies this
      ensures View() == ResetFieldsF(old(View())).(busy := false, st := Idle)
    {
      x := x.(handle := 0, hasTarget := false, size := 0, recv := 0, hwidOk := false);
      rebootAt := None;
      busy := false;
      st := Idle;
    }

    method Fail()
      modifies this
      ensures View() == FailF(old(View()))
    {
      if x.handle != 0 {
        hw := Released(hw, x.handle);
      }
      x := x.(sha := Freed);
      Reset();
    }

    method ClearFlag(ok: bool)
      modifies this`hw
      ensures View() == ClearFlagF(old(View()), ok)
    {
      if ok {
        hw := FlagCleared(hw);
      }
    }

    method Precheck(a: BeginArgs) returns (go: bool)
      requires |a.payload| >= BEGIN_LEN
      modifies this`hw
      ensures (View(), go) == PrecheckF(old(View()), a)
    {
      var pre := Preconditions(a.stillMs, RdU32Le(a.payload), st != Idle, true, a.batt, hw.flag, a.slotPending);
      var (act, _) := OtaPrecondEval(pre);
      if act == PreCloseSession {
        if !a.closeAcked {
          return false;
        }
        act := OtaPrecondEval(pre.(sessionOpen := false)).0;
      }
      if act == PreRefuse {
        return false;
      }
      if act == PreClearStale {
        ClearFlag(a.clearOk);
      }
      return true;
    }

    /** The publication half of ota_begin: every field, then the state word. */
    method Arm(a: BeginArgs, us: nat)
      requires |a.payload| >= BEGIN_LEN
      modifies this
      ensures View() == ArmF(old(View()), a, us)
    {
      x := x.(sha := Hashing([]), shaWant := a.payload[4..36]);
      x := x.(size := RdU32Le(a.payload), recv := 0, hwidOk := false);
      lastData, hw := StampMs(us), hw.(lastDataUs := us);
      busy := true;
      st := Recv;
    }

    method Open(a: BeginArgs, us: nat) returns (rc: Rc)
      requires |a.payload| >= BEGIN_LEN
      modifies this
      ensures (View(), rc) == OpenF(old(View()), a, us)
    {
      x := x.(hasTarget := a.targetFound);
      if !a.targetFound {
        return Precond;
      }
      if !a.eraseOk {
        hw := Erased(hw);
        x := x.(handle := 0, hasTarget := false);
        return WriteError;
      }
      hw := Begun(hw);
      x := x.(handle := hw.begun);
      Arm(a, us);
      return Ok;
    }

    method Begin(a: BeginArgs, us: nat) returns (rc: Rc)
      modifies this
      ensures (View(), rc) == BeginF(old(View()), board, a, us)
    {
      if |a.payload| < BEGIN_LEN || busy {
        return Precond;
      }
      if a.payload[52..76] != board.hwid {
        return HwidMismatch;
      }
      var go := Precheck(a);
      if !go {
        return Precond;
      }
      rc := Open(a, us);
    }

    method DataWrite(d: DataArgs, us: nat) returns (rc: Rc)
      modifies this
      ensures (View(), rc) == DataWriteF(old(View()), board, d, us)
    {
      if x.handle == 0 || |d.payload| < 4 {
        return WriteError;
      }
      var off, data := RdU32Le(d.payload), d.payload[4..];
      if |data| == 0 || off != x.recv || x.recv + |data| > x.size {
        return WriteError;
      }
      if !d.writeOk {
        Fail();
        return WriteError;
      }
      hw := Appended(hw, Block(off, data));
      if x.sha.Hashing? {
        x := x.(sha := Hashing(x.sha.input + data));
      }
      x := x.(recv := x.recv + |data|);
      lastData := StampMs(us);
      hw := hw.(lastDataUs := us);
      if !x.hwidOk && x.recv >= HWID_CHECK_AT {
        var hrc := VerifyHwid(board, hw.slot, d.selfOk, d.readOk);
        if hrc != Ok {
          Fail();
          return hrc;
        }
        x := x.(hwidOk := true);
      }
      return Ok;
    }

    method Data(d: DataArgs, us: nat) returns (rc: Rc)
      modifies this
      ensures (View(), rc) == DataF(old(View()), board, d, us)
    {
      var won := Claim(Recv, Writing);
      if !won {
        return Precond;
      }
      rc := DataWrite(d, us);
      won := Claim(Writing, Recv);
    }

    method EndCheck(e: EndArgs) returns (rc: Rc)
      modifies this
      ensures (View(), rc) == EndCheckF(old(View()), board, e)
    {
      if x.recv != x.size {
        Fail();
        return WriteError;
      }
      if !x.hwidOk {
        Fail();
        return HwidMismatch;
      }
      var matches := x.sha.Hashing? && board.sha256(x.sha.input) == x.shaWant;
      x := x.(sha := Freed);
      if !matches {
        Fail();
        return WriteError;
      }
      if !e.batt {
        Fail();
        return Precond;
      }
      return Ok;
    }

    method EndCommit(e: EndArgs, us: nat) returns (rc: Rc)
      modifies this
      ensures (View(), rc) == EndCommitF(old(View()), board, e, us)
    {
      if x.handle == 0 || !x.hasTarget {
        return WriteError;
      }
      var verified := e.endOk && board.signed(hw.slot);
      hw := Released(hw, x.handle);
      x := x.(handle := 0);
      if !verified {
        Fail();
        return BadSignature;
      }
      if !e.flagOk {
        Fail();
        return WriteError;
      }
      hw := FlagRaised(hw);
      if !e.bootOk {
        ClearFlag(e.clearOk);
        Fail();
        return WriteError;
      }
      hw := Switched(hw);
      rebootAt := Some(us + REBOOT_DELAY_US);
      st := Reboot;
      return Ok;
    }

    method End(e: EndArgs, us: nat) returns (rc: Rc)
      modifies this
      ensures (View(), rc) == EndF(old(View()), board, e, us)
    {
      var won := Claim(Recv, Verify);
      if !won {
        return Precond;
      }
      rc := EndCheck(e);
      if rc == Ok {
        rc := EndCommit(e, us);
      }
      if st == Verify {
        Fail();
      }
    }

    method Abort()
      modifies this
      ensures View() == AbortF(old(View()))
    {
      var won := Claim(Recv, Aborting);
      if won {
        Fail();
      }
    }

    /** ota_poll with nobody else running. `us` and `later` are its two clock readings. */
    method Poll(us: nat, later: nat)
      requires us <= later
      modifies this
      ensures View() == if old(st) == Recv && StaleAt(old(View()), us) then PollF(old(View()), later) else old(View())
    {
      if st != Recv || !OtaRecvStale(StampMs(us), lastData, RECV_TIMEOUT_S) {
        return;
      }
      var won := Claim(Recv, Aborting);
      if !won {
        return;
      }
      if !OtaRecvStale(StampMs(later), lastData, RECV_TIMEOUT_S) {
        won := Claim(Aborting, Recv);
        return;
      }
      Fail();
    }

    method IsRebootDue(us: nat) returns (due: bool)
      ensures due <==> RebootDue(View(), us)
      ensures due <==> st == Reboot && rebootAt.Some? && rebootAt.value <= us
    {
      due := st == Reboot && rebootAt.Some? && us >= rebootAt.value;
    }
  }
}
