/** components/app/ota/ota.c, two tasks at once: the console task inside begin/data/end/abort and
    the supervisor inside ota_poll, interleaved one shared access or hardware call at a time. */
module OtaRace {
  import opened Prelude
  import opened SupPolicy
  import opened Ota

  // ---- program counters: the next step of a call, with the local results it carries ----

  datatype BeginAt = Flag | LoadState | CloseSession(pre: Preconditions) | ClearStale | Erase | Clock
                   | Arm(us: nat) | Busy | Publish
  datatype DataAt = Claim | Check | Write | Hash | Count | Clock | Stamp(us: nat) | CheckTarget | Release
  datatype EndAt = Claim | Check | CompareSha | Battery | Sign | Persist | SwitchBoot | ClearFlag
                 | Deadline | Publish | Tail
  datatype PollAt = LoadState | LoadStamp | Clock(last: U32) | Claim | ReloadStamp | Reclock(last: U32) | Restore
  datatype FailAt = AbortHandle | FreeSha | ResetFields | ClearBusy | StoreIdle

  /** The call ota_fail returns into. */
  datatype Ret = ToData | ToEnd | ToOut

  datatype Pc =
    | Out
    | InBegin(a: BeginArgs, bat: BeginAt)
    | InData(d: DataArgs, dat: DataAt)
    | InEnd(e: EndArgs, eat: EndAt)
    | AbortClaim
    | InPoll(pat: PollAt)
    | InFail(r: Ret, fat: FailAt)

  function Rank(pc: Pc): nat
  {
    match pc
    case Out => 0
    case InFail(r, at) => FailRank(r) +
      (match at case StoreIdle => 1 case ClearBusy => 2 case ResetFields => 3 case FreeSha => 4 case AbortHandle => 5)
    case AbortClaim => 6
    case InBegin(_, at) => (
      match at case Publish => 1 case Busy => 2 case Arm(_) => 3 case Clock => 4 case Erase => 5
               case ClearStale => 6 case CloseSession(_) => 7 case LoadState => 8 case Flag => 9)
    case InData(_, at) => (
      match at case Release => 1 case CheckTarget => 7 case Stamp(_) => 8 case Clock => 9 case Count => 10
               case Hash => 11 case Write => 12 case Check => 13 case Claim => 14)
    case InEnd(_, at) => (
      match at case Tail => 6 case Publish => 12 case ClearFlag => 12 case Deadline => 13 case SwitchBoot => 14
               case Persist => 15 case Sign => 16 case Battery => 17 case CompareSha => 18 case Check => 19 case Claim => 20)
    case InPoll(at) => (
      match at case Restore => 1 case Reclock(_) => 6 case ReloadStamp => 7 case Claim => 8 case Clock(_) => 9
               case LoadStamp => 10 case LoadState => 11)
  }

  function FailRank(r: Ret): nat { match r case ToOut => 0 case ToData => 1 case ToEnd => 6 }

  // ---- one step of each call ----

  function GoBegin(a: BeginArgs, at: BeginAt, m: Machine, b: Board, us: nat): (r: (Pc, Machine))
    ensures Rank(r.0) < Rank(InBegin(a, at))
  {
    if |a.payload| < BEGIN_LEN then (Out, m)
    else
      match at
      case Flag => if m.busy || a.payload[52..76] != b.hwid then (Out, m) else (InBegin(a, BeginAt.LoadState), m)
      case LoadState =>
        var pre := Pre(m, a, true);
        if OtaPrecondEval(pre).0 == PreRefuse then (Out, m) else (InBegin(a, CloseSession(pre)), m)
      case CloseSession(pre) =>
        var v := OtaPrecondEval(pre.(sessionOpen := false)).0;
        if !a.closeAcked || v == PreRefuse then (Out, m)
        else (InBegin(a, if v == PreClearStale then BeginAt.ClearStale else Erase), m)
      case ClearStale => (InBegin(a, Erase), ClearFlagF(m, a.clearOk))
      case Erase =>
        if !a.targetFound then (Out, m.(x := m.x.(hasTarget := false)))
        else if !a.eraseOk then (Out, m.(x := m.x.(handle := 0, hasTarget := false), hw := Erased(m.hw)))
        else (InBegin(a, BeginAt.Clock), EraseF(m))
      case Clock => (InBegin(a, Arm(us)), m)
      case Arm(t) => (InBegin(a, Busy), ArmF(m, a, t).(busy := m.busy, st := m.st))
      case Busy => (InBegin(a, BeginAt.Publish), m.(busy := true))
      case Publish => (Out, m.(st := Recv))
  }

  function GoData(d: DataArgs, at: DataAt, m: Machine, b: Board, us: nat): (r: (Pc, Machine))
    ensures Rank(r.0) < Rank(InData(d, at))
  {
    match at
    case Claim => if m.st == Recv then (InData(d, DataAt.Check), m.(st := Writing)) else (Out, m)
    case Check => (InData(d, if DataAccepted(m, d.payload) then Write else Release), m)
    case Write =>
      if !d.writeOk then (InFail(ToData, AbortHandle), m)
      else if |d.payload| <= 4 then (InData(d, Release), m)
      else (InData(d, Hash), AppendF(m, d.payload))
    case Hash =>
      if |d.payload| <= 4 then (InData(d, Release), m) else (InData(d, Count), HashF(m, d.payload[4..]))
    case Count =>
      if |d.payload| <= 4 then (InData(d, Release), m) else (InData(d, DataAt.Clock), CountF(m, |d.payload| - 4))
    case Clock => (InData(d, Stamp(us)), m)
    case Stamp(t) => (InData(d, CheckTarget), StampF(m, t))
    case CheckTarget =>
      if m.x.hwidOk || m.x.recv < HWID_CHECK_AT then (InData(d, Release), m)
      else if VerifyHwid(b, m.hw.slot, d.selfOk, d.readOk) != Ok then (InFail(ToData, AbortHandle), m)
      else (InData(d, Release), m.(x := m.x.(hwidOk := true)))
    case Release => (Out, if m.st == Writing then m.(st := Recv) else m)
  }

  function GoEnd(e: EndArgs, at: EndAt, m: Machine, b: Board, us: nat): (r: (Pc, Machine))
    ensures Rank(r.0) < Rank(InEnd(e, at))
  {
    match at
    case Claim => if m.st == Recv then (InEnd(e, EndAt.Check), m.(st := Verify)) else (Out, m)
    case Check =>
      (if m.x.recv != m.x.size || !m.x.hwidOk then InFail(ToEnd, AbortHandle) else InEnd(e, CompareSha), m)
    case CompareSha =>
      (if !m.x.sha.Hashing? || b.sha256(m.x.sha.input) != m.x.shaWant then InFail(ToEnd, AbortHandle)
       else InEnd(e, Battery), FreeShaF(m))
    case Battery => (if !e.batt then InFail(ToEnd, AbortHandle) else InEnd(e, Sign), m)
    case Sign =>
      if m.x.handle == 0 || !m.x.hasTarget then (InEnd(e, Tail), m)
      else (if !e.endOk || !b.signed(m.hw.slot) then InFail(ToEnd, AbortHandle) else InEnd(e, Persist),
            DropHandleF(ReleaseF(m)))
    case Persist => if !e.flagOk then (InFail(ToEnd, AbortHandle), m) else (InEnd(e, SwitchBoot), SetFlagF(m))
    case SwitchBoot => if !e.bootOk then (InEnd(e, ClearFlag), m) else (InEnd(e, Deadline), SwitchBootF(m))
    case ClearFlag => (InFail(ToEnd, AbortHandle), ClearFlagF(m, e.clearOk))
    case Deadline => (InEnd(e, EndAt.Publish), m.(rebootAt := Some(us + REBOOT_DELAY_US)))
    case Publish => (InEnd(e, Tail), m.(st := Reboot))
    case Tail => (if m.st == Verify then InFail(ToOut, AbortHandle) else Out, m)
  }

  function GoPoll(at: PollAt, m: Machine, us: nat): (r: (Pc, Machine))
    ensures Rank(r.0) < Rank(InPoll(at))
  {
    match at
    case LoadState => (if m.st == Recv then InPoll(LoadStamp) else Out, m)
    case LoadStamp => (InPoll(PollAt.Clock(m.lastData)), m)
    case Clock(last) => (if OtaRecvStale(StampMs(us), last, RECV_TIMEOUT_S) then InPoll(PollAt.Claim) else Out, m)
    case Claim => if m.st == Recv then (InPoll(ReloadStamp), m.(st := Aborting)) else (Out, m)
    case ReloadStamp => (InPoll(Reclock(m.lastData)), m)
    case Reclock(last) =>
      (if OtaRecvStale(StampMs(us), last, RECV_TIMEOUT_S) then InFail(ToOut, AbortHandle) else InPoll(Restore), m)
    case Restore => (Out, if m.st == Aborting then m.(st := Recv) else m)
  }

  function AfterFail(r: Ret): Pc
  {
    match r
    case ToOut => Out
    case ToData => InData(DataArgs([], false, false, false), Release)
    case ToEnd => InEnd(EndArgs(false, false, false, false, false), Tail)
  }

  function GoFail(r: Ret, at: FailAt, m: Machine): (p: (Pc, Machine))
    ensures Rank(p.0) < Rank(InFail(r, at))
  {
    match at
    case AbortHandle => (InFail(r, FreeSha), ReleaseF(m))
    case FreeSha => (InFail(r, ResetFields), FreeShaF(m))
    case ResetFields => (InFail(r, ClearBusy), ResetFieldsF(m))
    case ClearBusy => (InFail(r, StoreIdle), m.(busy := false))
    case StoreIdle => (AfterFail(r), m.(st := Idle))
  }

  /** One step of one task. `us` is the clock it would read. */
  function Go(pc: Pc, m: Machine, b: Board, us: nat): (r: (Pc, Machine))
    ensures pc != Out ==> Rank(r.0) < Rank(pc)
  {
    match pc
    case Out => (Out, m)
    case InBegin(a, at) => GoBegin(a, at, m, b, us)
    case InData(d, at) => GoData(d, at, m, b, us)
    case InEnd(e, at) => GoEnd(e, at, m, b, us)
    case AbortClaim => if m.st == Recv then (InFail(ToOut, AbortHandle), m.(st := Aborting)) else (Out, m)
    case InPoll(at) => GoPoll(at, m, us)
    case InFail(r, at) => GoFail(r, at, m)
  }

  /** What a call makes of the machine when it runs to its end with nobody between. */
  function Rest(pc: Pc, m: Machine, b: Board, us: nat): Machine
    decreases Rank(pc)
  {
    if pc == Out then m else var (pc', m') := Go(pc, m, b, us); Rest(pc', m', b, us)
  }

  // ---- alone, the steps of a call do what the call's specification function says ----

  lemma FailAlone(r: Ret, m: Machine, b: Board, us: nat)
    ensures Rest(InFail(r, AbortHandle), m, b, us) == FailF(m)
  {
    var m1 := FreeShaF(ReleaseF(m));
    assert Rest(InFail(r, AbortHandle), m, b, us) == Rest(InFail(r, FreeSha), ReleaseF(m), b, us)
        == Rest(InFail(r, ResetFields), m1, b, us) == Rest(InFail(r, ClearBusy), ResetFieldsF(m1), b, us);
    var m2 := ResetFieldsF(m1).(busy := false);
    assert Rest(InFail(r, ClearBusy), ResetFieldsF(m1), b, us) == Rest(InFail(r, StoreIdle), m2, b, us)
        == Rest(AfterFail(r), m2.(st := Idle), b, us);
  }

  lemma BeginAlone(a: BeginArgs, m: Machine, b: Board, us: nat)
    ensures Rest(InBegin(a, Flag), m, b, us) == BeginF(m, b, a, us).0
  {
    if |a.payload| >= BEGIN_LEN && !m.busy && a.payload[52..76] == b.hwid {
      LoadedBeginAlone(a, m, b, us);
    }
  }

  lemma LoadedBeginAlone(a: BeginArgs, m: Machine, b: Board, us: nat)
    requires |a.payload| >= BEGIN_LEN && !m.busy && a.payload[52..76] == b.hwid
    ensures Rest(InBegin(a, BeginAt.LoadState), m, b, us) == BeginF(m, b, a, us).0
  {
    var pre := Pre(m, a, true);
    var (m1, go) := PrecheckF(m, a);
    if OtaPrecondEval(pre).0 != PreRefuse {
      assert Rest(InBegin(a, BeginAt.LoadState), m, b, us) == Rest(InBegin(a, CloseSession(pre)), m, b, us);
      if go {
        EraseAlone(a, m1, b, us);
        assert pre.(sessionOpen := false) == Pre(m, a, false);
        if PrecheckVerdict(m, a) == PreClearStale {
          assert Rest(InBegin(a, CloseSession(pre)), m, b, us) == Rest(InBegin(a, BeginAt.ClearStale), m, b, us)
              == Rest(InBegin(a, Erase), m1, b, us);
        } else {
          assert Rest(InBegin(a, CloseSession(pre)), m, b, us) == Rest(InBegin(a, Erase), m, b, us);
        }
      } else {
        assert Rest(InBegin(a, CloseSession(pre)), m, b, us) == Rest(Out, m, b, us);
      }
    }
  }

  lemma EraseAlone(a: BeginArgs, m: Machine, b: Board, us: nat)
    requires |a.payload| >= BEGIN_LEN
    ensures Rest(InBegin(a, Erase), m, b, us) == OpenF(m, a, us).0
  {
    if a.targetFound && a.eraseOk {
      var m1 := EraseF(m);
      var m2 := ArmF(m1, a, us).(busy := m1.busy, st := m1.st);
      assert Rest(InBegin(a, Erase), m, b, us) == Rest(InBegin(a, BeginAt.Clock), m1, b, us)
          == Rest(InBegin(a, Arm(us)), m1, b, us) == Rest(InBegin(a, Busy), m2, b, us);
      assert Rest(InBegin(a, Busy), m2, b, us) == Rest(InBegin(a, BeginAt.Publish), m2.(busy := true), b, us);
    }
  }

  lemma DataAlone(d: DataArgs, m: Machine, b: Board, us: nat)
    ensures Rest(InData(d, DataAt.Claim), m, b, us) == DataF(m, b, d, us).0
  {
    if m.st == Recv {
      var w := m.(st := Writing);
      assert Rest(InData(d, DataAt.Claim), m, b, us) == Rest(InData(d, DataAt.Check), w, b, us);
      if DataAccepted(w, d.payload) {
        assert Rest(InData(d, DataAt.Check), w, b, us) == Rest(InData(d, Write), w, b, us);
        if d.writeOk {
          WriteAlone(d, w, b, us);
        } else {
          FailAlone(ToData, w, b, us);
        }
      } else {
        assert Rest(InData(d, DataAt.Check), w, b, us) == Rest(InData(d, Release), w, b, us)
            == Rest(Out, w.(st := Recv), b, us);
      }
    }
  }

  lemma WriteAlone(d: DataArgs, w: Machine, b: Board, us: nat)
    requires w.st == Writing && DataAccepted(w, d.payload) && d.writeOk
    ensures Rest(InData(d, Write), w, b, us) == DataF(w.(st := Recv), b, d, us).0
  {
    var w1 := AppendF(w, d.payload);
    var w2 := HashF(w1, d.payload[4..]);
    var w3 := CountF(w2, |d.payload| - 4);
    var w4 := StampF(w3, us);
    assert w4 == StoredF(w, d.payload, us) && w.(st := Recv).(st := Writing) == w;
    assert Rest(InData(d, Write), w, b, us) == Rest(InData(d, Hash), w1, b, us)
        == Rest(InData(d, Count), w2, b, us) == Rest(InData(d, DataAt.Clock), w3, b, us);
    assert Rest(InData(d, DataAt.Clock), w3, b, us) == Rest(InData(d, Stamp(us)), w3, b, us)
        == Rest(InData(d, CheckTarget), w4, b, us);
    TargetAlone(d, w4, b, us);
  }

  lemma TargetAlone(d: DataArgs, w: Machine, b: Board, us: nat)
    requires w.st == Writing
    ensures Rest(InData(d, CheckTarget), w, b, us) ==
              if w.x.hwidOk || w.x.recv < HWID_CHECK_AT then w.(st := Recv)
              else if VerifyHwid(b, w.hw.slot, d.selfOk, d.readOk) != Ok then FailF(w)
              else w.(x := w.x.(hwidOk := true), st := Recv)
  {
    FailAlone(ToData, w, b, us);
    if w.x.hwidOk || w.x.recv < HWID_CHECK_AT {
      assert Rest(InData(d, CheckTarget), w, b, us) == Rest(InData(d, Release), w, b, us)
          == Rest(Out, w.(st := Recv), b, us);
    } else if VerifyHwid(b, w.hw.slot, d.selfOk, d.readOk) == Ok {
      var w' := w.(x := w.x.(hwidOk := true));
      assert Rest(InData(d, CheckTarget), w, b, us) == Rest(InData(d, Release), w', b, us)
          == Rest(Out, w'.(st := Recv), b, us);
    }
  }

  lemma {:induction false} EndAlone(e: EndArgs, m: Machine, b: Board, us: nat)
    ensures Rest(InEnd(e, EndAt.Claim), m, b, us) == EndF(m, b, e, us).0
  {
    if m.st == Recv {
      var v := m.(st := Verify);
      var f := FreeShaF(v);
      FailAlone(ToEnd, v, b, us);
      FailAlone(ToEnd, f, b, us);
      assert Rest(InEnd(e, EndAt.Claim), m, b, us) == Rest(InEnd(e, EndAt.Check), v, b, us);
      if EndCheckF(v, b, e).1 == Ok {
        assert Rest(InEnd(e, EndAt.Check), v, b, us) == Rest(InEnd(e, CompareSha), v, b, us)
            == Rest(InEnd(e, Battery), f, b, us) == Rest(InEnd(e, Sign), f, b, us);
        CommitAlone(e, f, b, us);
      } else if v.x.recv == v.x.size && v.x.hwidOk {
        assert Rest(InEnd(e, EndAt.Check), v, b, us) == Rest(InEnd(e, CompareSha), v, b, us);
      }
    }
  }

  lemma CommitAlone(e: EndArgs, f: Machine, b: Board, us: nat)
    requires f.st == Verify
    ensures Rest(InEnd(e, Sign), f, b, us) ==
              if EndCommitF(f, b, e, us).0.st == Verify then FailF(f) else EndCommitF(f, b, e, us).0
  {
    if f.x.handle == 0 || !f.x.hasTarget {
      FailAlone(ToOut, f, b, us);
      assert Rest(InEnd(e, Sign), f, b, us) == Rest(InEnd(e, Tail), f, b, us);
    } else {
      var g := DropHandleF(ReleaseF(f));
      FailAlone(ToEnd, g, b, us);
      if e.endOk && b.signed(f.hw.slot) && e.flagOk {
        var h := SetFlagF(g);
        assert Rest(InEnd(e, Sign), f, b, us) == Rest(InEnd(e, Persist), g, b, us) == Rest(InEnd(e, SwitchBoot), h, b, us);
        BootAlone(e, h, b, us);
      }
    }
  }

  lemma BootAlone(e: EndArgs, h: Machine, b: Board, us: nat)
    requires h.st == Verify
    ensures Rest(InEnd(e, SwitchBoot), h, b, us) ==
              if e.bootOk then SwitchBootF(h).(rebootAt := Some(us + REBOOT_DELAY_US), st := Reboot)
              else FailF(ClearFlagF(h, e.clearOk))
  {
    if e.bootOk {
      var k := SwitchBootF(h);
      var k1 := k.(rebootAt := Some(us + REBOOT_DELAY_US));
      assert Rest(InEnd(e, SwitchBoot), h, b, us) == Rest(InEnd(e, Deadline), k, b, us)
          == Rest(InEnd(e, EndAt.Publish), k1, b, us) == Rest(InEnd(e, Tail), k1.(st := Reboot), b, us)
          == Rest(Out, k1.(st := Reboot), b, us);
    } else {
      FailAlone(ToEnd, ClearFlagF(h, e.clearOk), b, us);
      assert Rest(InEnd(e, SwitchBoot), h, b, us) == Rest(InEnd(e, ClearFlag), h, b, us);
    }
  }

  lemma AbortAlone(m: Machine, b: Board, us: nat)
    ensures Rest(AbortClaim, m, b, us) == AbortF(m)
  {
    FailAlone(ToOut, m.(st := Aborting), b, us);
  }

  /** One poll running alone: a stale open transfer always ends in Idle, anything else is untouched. */
  lemma PollAlone(m: Machine, b: Board, us: nat)
    ensures Rest(InPoll(PollAt.LoadState), m, b, us) == PollF(m, us)
  {
    if m.st == Recv {
      var last := m.lastData;
      assert Rest(InPoll(PollAt.LoadState), m, b, us) == Rest(InPoll(LoadStamp), m, b, us)
          == Rest(InPoll(PollAt.Clock(last)), m, b, us);
      if StaleAt(m, us) {
        var n := m.(st := Aborting);
        assert Rest(InPoll(PollAt.Clock(last)), m, b, us) == Rest(InPoll(PollAt.Claim), m, b, us)
            == Rest(InPoll(ReloadStamp), n, b, us) == Rest(InPoll(Reclock(last)), n, b, us);
        FailAlone(ToOut, n, b, us);
      }
    }
  }
}
