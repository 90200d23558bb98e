/** From the steps of the receive machine to the flash: what is known of the slot's bytes at every step
    of an end call, and how each step of console and poll moves the disk of `OtaCrash`. So every history
    the interleaved machine can cause, cut at any step, is one of the histories proved about there. */
module OtaCommit {
  import opened Prelude
  import opened SupPolicy
  import opened Ota
  import opened OtaRace
  import opened OtaRuns
  import opened OtaCrash

  // ---- the machine at every step of an end call ----

  predicate Sized(m: Machine) { m.x.recv == m.x.size && m.x.hwidOk }

  predicate Hashed(m: Machine, b: Board) { b.sha256(m.hw.slot) == m.x.shaWant }

  /** The machine an end call holds at each of its steps is the one it won, changed by the steps so far
      and by nothing else, and it has passed the checks behind it. */
  predicate EndExact(s: Sys, b: Board)
  {
    s.con.InEnd? && !s.con.eat.Claim? && !s.con.eat.Tail? ==>
      var v, e := s.snap.(st := Verify), s.con.e;
      var f := FreeShaF(v);
      var g := DropHandleF(ReleaseF(f));
      Receiving(s.snap, b) && s.snap.st == Recv &&
      match s.con.eat
      case Check => s.m == v
      case CompareSha => s.m == v && Sized(v)
      case Battery => s.m == f && Sized(v) && Hashed(v, b)
      case Sign => s.m == f && Sized(v) && Hashed(v, b)
      case Persist => s.m == g && Sized(v) && Hashed(v, b) && b.signed(v.hw.slot)
      case SwitchBoot => s.m == SetFlagF(g) && Sized(v) && Hashed(v, b) && b.signed(v.hw.slot)
      case _ => true
  }

  lemma EndExactSteps(s: Sys, s': Sys, b: Board)
    requires OtaRuns.Inv(s, b) && EndExact(s, b) && Step(s, s', b)
    ensures EndExact(s', b)
  {
    hide Rest, Receiving, Certified, TargetMatches;
    if ConsoleStep(s, s', b) {
      if s.con.InEnd? && s.con.eat.Claim? && s'.con.InEnd? {
        ClaimedIsReceiving(s, b);
      } else if s.con.InEnd? && s.con.eat.CompareSha? {
        HashIsOfTheSlot(s, b);
      }
    } else if PollStep(s, s', b) {
      if s.con.InEnd? && !s.con.eat.Claim? && !s.con.eat.Tail? {
        assert Owns(s.con) && s.m.st == Verify;
      }
    }
  }

  lemma ClaimedIsReceiving(s: Sys, b: Board)
    requires OtaRuns.Inv(s, b) && s.con.InEnd? && s.con.eat.Claim? && s.m.st == Recv
    ensures Receiving(s.m, b)
  {
    hide Rest;
    assert Owns(s.sup) ==> s.m.st == Aborting;
  }

  lemma HashIsOfTheSlot(s: Sys, b: Board)
    requires EndExact(s, b) && s.con.InEnd? && s.con.eat.CompareSha?
    ensures s.m.x.sha == Hashing(s.m.hw.slot)
  {
  }

  lemma {:induction false} EveryRunIsEndExact(ss: seq<Sys>, b: Board, i: nat)
    requires OtaRuns.Run(ss, b) && i < |ss|
    ensures EndExact(ss[i], b)
  {
    if i > 0 {
      EveryRunIsEndExact(ss, b, i - 1);
      EveryRunKeepsInv(ss, b, i - 1);
      EndExactSteps(ss[i - 1], ss[i], b);
    }
  }

  /** Everything an image must satisfy to become the boot image, on the bytes now in the slot. */
  predicate SlotPasses(m: Machine, b: Board) {
    |m.hw.slot| == m.x.size && b.sha256(m.hw.slot) == m.x.shaWant && Genuine(b, m.hw.slot)
  }

  lemma SignedSlotPasses(s: Sys, b: Board)
    requires EndExact(s, b) && s.con.InEnd? && (s.con.eat.Sign? || s.con.eat.Persist? || s.con.eat.SwitchBoot?)
    requires b.signed(s.m.hw.slot)
    ensures SlotPasses(s.m, b)
  {
  }

  /** In every run the boot slot is switched only over bytes that have passed everything, the size and hash
      being those of the begin command, with the pending flag already persisted; power may be cut right
      after it. */
  lemma SwitchesOnlyACheckedSlot(ss: seq<Sys>, b: Board, i: nat)
    requires OtaRuns.Run(ss, b) && i < |ss| && ss[i].con.InEnd? && ss[i].con.eat.SwitchBoot?
    ensures SlotPasses(ss[i].m, b) && ss[i].m.hw.flag
    ensures var h, slot := ss[i].header, ss[i].m.hw.slot; |h| >= 76 && IsLe32(|slot|, h) && b.sha256(slot) == h[4..36]
  {
    EveryRunIsEndExact(ss, b, i);
    EveryRunKeepsInv(ss, b, i);
    EveryRunHoldsItsHeader(ss, b, i);
    InvShape(ss[i], b);
    SignedSlotPasses(ss[i], b);
  }

  // ---- what a step does to the flash ----

  /** The events of `OtaCrash` behind one step of a task, given how far the push has come. */
  function Writes(pc: Pc, m: Machine, b: Board, push: Push): seq<Event>
  {
    match pc
    case InBegin(a, at) =>
      if |a.payload| < BEGIN_LEN then []
      else if at.ClearStale? then [Event.ClearStale(a.clearOk)]
      else if !at.Erase? || !a.targetFound then []
      else if !a.eraseOk then [EraseTarget, GiveUp(true)]
      else [EraseTarget]
    case InData(d, at) => if at.Write? && d.writeOk && |d.payload| > 4 then [Fill(d.payload[4..])] else []
    case InEnd(e, at) => (
      match at
      case Sign =>
        if m.x.handle != 0 && m.x.hasTarget && e.endOk && b.signed(m.hw.slot) then [PassChecks(m.x.size, m.x.shaWant)] else []
      case Persist => if e.flagOk then [PersistFlag] else []
      case SwitchBoot => if e.bootOk then [Event.SwitchBoot] else []
      case ClearFlag => [GiveUp(e.clearOk)]
      case _ => [])
    case InFail(_, at) => if at.AbortHandle? && push != NoPush then [GiveUp(true)] else []
    case _ => []
  }

  /** The flash events behind a step of the pair of tasks. */
  function StepWrites(s: Sys, s': Sys, b: Board, push: Push): seq<Event> {
    if ConsoleStep(s, s', b) then Writes(s.con, s.m, b, push)
    else if PollStep(s, s', b) then Writes(s.sup, s.m, b, push)
    else []
  }

  /** The slot-on-trial test of a begin reads the boot record as it is. */
  predicate Honest(s: Sys, u: Unit) {
    s.con.InBegin? && s.con.bat.LoadState? ==> s.con.a.slotPending == OnTrial(u)
  }

  // ---- how far the push has come ----

  predicate PushFits(s: Sys, p: Push)
  {
    if Owns(s.con) then
      match s.con
      case InBegin(_, at) => p == (if at.CloseSession? || at.ClearStale? || at.Erase? then NoPush else Filling)
      case InData(_, at) => p == (if s.m.st == Idle then NoPush else Filling)
      case InEnd(_, at) => (
        match at
        case Persist => p == Checked
        case SwitchBoot => p == Flagged
        case ClearFlag => p == Flagged
        case Deadline => p == Applied
        case Publish => p == Applied
        case Tail => p == (if s.m.st == Idle then NoPush else if s.m.st == Reboot then Applied else Filling)
        case _ => p == Filling)
      case InFail(_, at) => p == NoPush || (at.AbortHandle? && (p == Filling || p == Checked))
      case _ => true
    else if Owns(s.sup) then
      match s.sup
      case InFail(_, at) => p == (if at.AbortHandle? then Filling else NoPush)
      case _ => p == Filling
    else p == (if s.m.st == Idle then NoPush else if s.m.st == Recv then Filling else Applied)
  }

  predicate PastTheSlotTest(pc: Pc) {
    pc.InBegin? && (pc.bat.CloseSession? || pc.bat.ClearStale? || pc.bat.Erase?)
  }

  /** Machine and disk in step: the push is where the calls stand, the target slot holds the machine's
      bytes, and no image is on trial while a push is under way. */
  predicate Matched(s: Sys, u: Unit)
  {
    && PushFits(s, u.push)
    && (u.push in {Filling, Checked, Flagged} ==> u.disk.At(Other(u.running)).image == s.m.hw.slot)
    && (u.push != NoPush || PastTheSlotTest(s.con) ==> !OnTrial(u))
  }

  ghost predicate Coupled(s: Sys, u: Unit, b: Board) { OtaRuns.Inv(s, b) && EndExact(s, b) && Matched(s, u) }

  /** What of the invariant the steps below need: who is inside, and the state word that goes with it. */
  predicate Shape(s: Sys, b: Board)
  {
    && !s.con.InPoll? && (s.sup == Out || s.sup.InPoll? || (s.sup.InFail? && s.sup.r == ToOut))
    && !(Owns(s.con) && Owns(s.sup)) && BeginArgsOk(s.con, b)
    && (Owns(s.con) ==> StateFits(s.con, s.m.st))
    && (Owns(s.sup) ==> s.m.st == Aborting)
    && (!Owns(s.con) && !Owns(s.sup) ==> s.m.st in {Idle, Recv, Reboot})
  }

  lemma InvShape(s: Sys, b: Board)
    requires OtaRuns.Inv(s, b)
    ensures Shape(s, b)
  {
  }

  lemma OneEvent(u: Unit, e: Event, b: Board)
    requires Enabled(u, e, b)
    ensures After(u, [e], b) == Some(Next(u, e, b))
  {
    assert [e][1..] == [];
    assert After(Next(u, e, b), [], b) == Some(Next(u, e, b));
  }

  lemma TwoEvents(u: Unit, e: Event, e': Event, b: Board)
    requires Enabled(u, e, b) && Enabled(Next(u, e, b), e', b)
    ensures After(u, [e, e'], b) == Some(Next(Next(u, e, b), e', b))
  {
    assert [e, e'][1..] == [e'];
    OneEvent(Next(u, e, b), e', b);
  }

  lemma NoEvent(u: Unit, b: Board)
    ensures After(u, [], b) == Some(u)
  {
  }

  // ---- every step of every task is a path ----

  lemma BeginStepIsAPath(s: Sys, s': Sys, u: Unit, b: Board)
    requires Shape(s, b) && Shape(s', b) && Matched(s, u) && Honest(s, u)
    requires ConsoleStep(s, s', b) && s.con.InBegin? && (s.con.bat.LoadState? || s.con.bat.Flag?)
    ensures Matched(s', u) && Writes(s.con, s.m, b, u.push) == []
  {
  }

  lemma EraseStepIsAPath(s: Sys, s': Sys, u: Unit, b: Board)
    requires Shape(s, b) && Shape(s', b) && Matched(s, u)
    requires ConsoleStep(s, s', b) && s.con.InBegin? && s.con.bat.Erase?
    ensures var es := Writes(s.con, s.m, b, u.push);
            After(u, es, b).Some? && Matched(s', After(u, es, b).value)
  {
    hide OtaPrecondEval, GoData, GoEnd, GoPoll, GoFail, Honest;
    NoEvent(u, b);
    if s.con.a.targetFound {
      OneEvent(u, EraseTarget, b);
      if !s.con.a.eraseOk {
        TwoEvents(u, EraseTarget, GiveUp(true), b);
      }
    }
  }

  lemma OpenStepIsAPath(s: Sys, s': Sys, u: Unit, b: Board)
    requires Shape(s, b) && Shape(s', b) && Matched(s, u)
    requires ConsoleStep(s, s', b) && s.con.InBegin? && Owns(s.con) && !s.con.bat.Erase?
    ensures var es := Writes(s.con, s.m, b, u.push);
            After(u, es, b).Some? && Matched(s', After(u, es, b).value)
  {
    hide OtaPrecondEval, GoData, GoEnd, GoPoll, GoFail, Honest;
    NoEvent(u, b);
    if s.con.bat.ClearStale? {
      OneEvent(u, Event.ClearStale(s.con.a.clearOk), b);
    }
  }

  lemma DataStepIsAPath(s: Sys, s': Sys, u: Unit, b: Board)
    requires Shape(s, b) && Shape(s', b) && Matched(s, u) && ConsoleStep(s, s', b) && s.con.InData?
    ensures var es := Writes(s.con, s.m, b, u.push);
            After(u, es, b).Some? && Matched(s', After(u, es, b).value)
  {
    hide TargetMatches, VerifyHwid, DataAccepted, GoBegin, GoEnd, GoPoll, GoFail;
    NoEvent(u, b);
    var d := s.con.d;
    if s.con.dat.Write? && d.writeOk && |d.payload| > 4 {
      OneEvent(u, Fill(d.payload[4..]), b);
    }
  }

  predicate SignGoesThrough(m: Machine, e: EndArgs, b: Board) {
    m.x.handle != 0 && m.x.hasTarget && e.endOk && b.signed(m.hw.slot)
  }

  lemma SignStepIsAPath(s: Sys, s': Sys, u: Unit, b: Board)
    requires Shape(s, b) && Shape(s', b) && Matched(s, u) && ConsoleStep(s, s', b) && s.con.InEnd? && s.con.eat.Sign?
    requires SignGoesThrough(s.m, s.con.e, b) ==> SlotPasses(s.m, b)
    ensures var es := Writes(s.con, s.m, b, u.push);
            After(u, es, b).Some? && Matched(s', After(u, es, b).value)
  {
    hide Genuine, GoBegin, GoData, GoPoll, GoFail;
    NoEvent(u, b);
    if SignGoesThrough(s.m, s.con.e, b) {
      OneEvent(u, PassChecks(s.m.x.size, s.m.x.shaWant), b);
    }
  }

  lemma PersistStepIsAPath(s: Sys, s': Sys, u: Unit, b: Board)
    requires Shape(s, b) && Shape(s', b) && Matched(s, u) && ConsoleStep(s, s', b) && s.con.InEnd? && s.con.eat.Persist?
    ensures var es := Writes(s.con, s.m, b, u.push);
            After(u, es, b).Some? && Matched(s', After(u, es, b).value)
  {
    hide Genuine, OtaPrecondEval, TargetMatches, GoBegin, GoData, GoPoll, GoFail, BeginArgsOk, Honest;
    NoEvent(u, b);
    if s.con.e.flagOk {
      OneEvent(u, PersistFlag, b);
    }
  }

  lemma SwitchStepIsAPath(s: Sys, s': Sys, u: Unit, b: Board)
    requires Shape(s, b) && Shape(s', b) && Matched(s, u) && ConsoleStep(s, s', b) && s.con.InEnd? && s.con.eat.SwitchBoot?
    ensures var es := Writes(s.con, s.m, b, u.push);
            After(u, es, b).Some? && Matched(s', After(u, es, b).value)
  {
    hide Genuine, OtaPrecondEval, TargetMatches, GoBegin, GoData, GoPoll, GoFail, BeginArgsOk, Honest;
    NoEvent(u, b);
    if s.con.e.bootOk {
      OneEvent(u, Event.SwitchBoot, b);
    }
  }

  lemma ClearStepIsAPath(s: Sys, s': Sys, u: Unit, b: Board)
    requires Shape(s, b) && Shape(s', b) && Matched(s, u) && ConsoleStep(s, s', b) && s.con.InEnd? && s.con.eat.ClearFlag?
    ensures var es := Writes(s.con, s.m, b, u.push);
            After(u, es, b).Some? && Matched(s', After(u, es, b).value)
  {
    hide Genuine, OtaPrecondEval, TargetMatches, GoBegin, GoData, GoPoll, GoFail, BeginArgsOk, Honest;
    OneEvent(u, GiveUp(s.con.e.clearOk), b);
  }

  predicate Commits(at: EndAt) { at.Sign? || at.Persist? || at.SwitchBoot? || at.ClearFlag? }

  lemma EndStepIsAPath(s: Sys, s': Sys, u: Unit, b: Board)
    requires Shape(s, b) && Shape(s', b) && Matched(s, u) && ConsoleStep(s, s', b) && s.con.InEnd? && !Commits(s.con.eat)
    ensures var es := Writes(s.con, s.m, b, u.push);
            After(u, es, b).Some? && Matched(s', After(u, es, b).value)
  {
    hide Genuine, OtaPrecondEval, TargetMatches, GoBegin, GoData, GoPoll, GoFail, BeginArgsOk, Honest;
    NoEvent(u, b);
  }

  lemma OtherStepIsAPath(s: Sys, s': Sys, u: Unit, b: Board)
    requires Shape(s, b) && Shape(s', b) && Matched(s, u) && ConsoleStep(s, s', b) && (s.con.InFail? || s.con.AbortClaim?)
    ensures var es := Writes(s.con, s.m, b, u.push);
            After(u, es, b).Some? && Matched(s', After(u, es, b).value)
  {
    NoEvent(u, b);
    if s.con.InFail? && s.con.fat.AbortHandle? && u.push != NoPush {
      OneEvent(u, GiveUp(true), b);
    }
  }

  lemma PollStepIsAPath(s: Sys, s': Sys, u: Unit, b: Board)
    requires Shape(s, b) && Shape(s', b) && Matched(s, u) && PollStep(s, s', b)
    ensures var es := Writes(s.sup, s.m, b, u.push);
            After(u, es, b).Some? && Matched(s', After(u, es, b).value)
  {
    NoEvent(u, b);
    if s.sup.InFail? && s.sup.fat.AbortHandle? && u.push != NoPush {
      OneEvent(u, GiveUp(true), b);
    }
  }

  lemma QuietStepIsAPath(s: Sys, s': Sys, u: Unit, b: Board)
    requires Shape(s, b) && Shape(s', b) && Matched(s, u)
    requires Step(s, s', b) && !ConsoleStep(s, s', b) && !PollStep(s, s', b)
    ensures Matched(s', u)
  {
  }

  /** Every step of console or poll, whatever the hardware answers, is a path of the crash model, and
      leaves machine and disk in step. In particular the checks are passed only on bytes that pass. */
  lemma StepIsAPath(s: Sys, s': Sys, u: Unit, b: Board)
    requires Coupled(s, u, b) && Honest(s, u) && Step(s, s', b)
    ensures var es := StepWrites(s, s', b, u.push);
            After(u, es, b).Some? && Coupled(s', After(u, es, b).value, b)
  {
    OtaRuns.StepKeepsInv(s, s', b);
    EndExactSteps(s, s', b);
    InvShape(s, b);
    InvShape(s', b);
    if s.con.InEnd? && s.con.eat.Sign? && b.signed(s.m.hw.slot) {
      SignedSlotPasses(s, b);
    }
    assert !s.con.InPoll?;
    hide OtaRuns.Inv, EndExact, Matched, Shape, Writes, Go, SlotPasses;
    NoEvent(u, b);
    if ConsoleStep(s, s', b) {
      if s.con.InBegin? {
        if s.con.bat.LoadState? || s.con.bat.Flag? {
          BeginStepIsAPath(s, s', u, b);
        } else if s.con.bat.Erase? {
          EraseStepIsAPath(s, s', u, b);
        } else {
          OpenStepIsAPath(s, s', u, b);
        }
      } else if s.con.InData? {
        DataStepIsAPath(s, s', u, b);
      } else if !s.con.InEnd? {
        OtherStepIsAPath(s, s', u, b);
      } else if s.con.eat.Sign? {
        SignStepIsAPath(s, s', u, b);
      } else if s.con.eat.Persist? {
        PersistStepIsAPath(s, s', u, b);
      } else if s.con.eat.SwitchBoot? {
        SwitchStepIsAPath(s, s', u, b);
      } else if s.con.eat.ClearFlag? {
        ClearStepIsAPath(s, s', u, b);
      } else {
        EndStepIsAPath(s, s', u, b);
      }
    } else if PollStep(s, s', b) {
      PollStepIsAPath(s, s', u, b);
    } else {
      QuietStepIsAPath(s, s', u, b);
    }
  }

  // ---- whole boots ----

  datatype Joint = Joint(s: Sys, u: Unit)

  /** What the supervisor does to the flash outside the receive machine. */
  predicate SupervisorEvent(e: Event) { e.FirstTick? || e.MarkValid? || e.ClearAfterMark? }

  /** A step of console or poll with its flash events, or one of the supervisor's own. */
  ghost predicate JointStep(j: Joint, j': Joint, b: Board)
  {
    || (Step(j.s, j'.s, b) && Honest(j.s, j.u) && After(j.u, StepWrites(j.s, j'.s, b, j.u.push), b) == Some(j'.u))
    || (j'.s == j.s && exists e :: SupervisorEvent(e) && Enabled(j.u, e, b) && j'.u == Next(j.u, e, b))
  }

  /** One boot: fresh statics, and the disk as the bootloader left it. */
  ghost predicate Boot(js: seq<Joint>, b: Board)
  {
    && |js| > 0 && Init(js[0].s) && js[0].u.push == NoPush
    && forall i :: 0 <= i < |js| - 1 ==> JointStep(js[i], js[i + 1], b)
  }

  lemma StartsCoupled(j: Joint, b: Board)
    requires Init(j.s) && j.u.push == NoPush
    ensures Coupled(j.s, j.u, b)
  {
    assert OtaRuns.Run([j.s], b);
    EveryRunKeepsInv([j.s], b, 0);
  }

  lemma SupervisorKeepsStep(s: Sys, u: Unit, e: Event, b: Board)
    requires Matched(s, u) && SupervisorEvent(e) && Enabled(u, e, b)
    ensures Matched(s, Next(u, e, b))
  {
  }

  lemma JointStepIsAPath(j: Joint, j': Joint, b: Board) returns (es: seq<Event>)
    requires Coupled(j.s, j.u, b) && JointStep(j, j', b)
    ensures Coupled(j'.s, j'.u, b) && After(j.u, es, b) == Some(j'.u)
  {
    hide OtaRuns.Inv, EndExact, Matched, Step, StepWrites, Honest, SupervisorEvent, Enabled, Next, After;
    if Step(j.s, j'.s, b) && Honest(j.s, j.u) && After(j.u, StepWrites(j.s, j'.s, b, j.u.push), b) == Some(j'.u) {
      es := StepWrites(j.s, j'.s, b, j.u.push);
      StepIsAPath(j.s, j'.s, j.u, b);
    } else {
      var e :| SupervisorEvent(e) && Enabled(j.u, e, b) && j'.u == Next(j.u, e, b);
      es := [e];
      SupervisorKeepsStep(j.s, j.u, e, b);
      OneEvent(j.u, e, b);
    }
  }

  lemma {:induction false} BootIsAPath(js: seq<Joint>, b: Board, i: nat) returns (es: seq<Event>)
    requires Boot(js, b) && i < |js|
    ensures After(js[0].u, es, b) == Some(js[i].u) && Coupled(js[i].s, js[i].u, b)
  {
    if i == 0 {
      StartsCoupled(js[0], b);
      NoEvent(js[0].u, b);
      es := [];
    } else {
      var front := BootIsAPath(js, b, i - 1);
      var last := JointStepIsAPath(js[i - 1], js[i], b);
      AfterConcat(js[0].u, front, last, b);
      es := front + last;
    }
  }

  /** Power cut at any step of any boot, on any history before it: the boot slot and the running one hold
      genuine images, so does what the bootloader then starts, and the reset leads to one more history of
      the same kind, from which the next boot may be taken in turn. */
  lemma PowerCutAnywhere(u: Unit, before: seq<Event>, js: seq<Joint>, b: Board, i: nat) returns (es: seq<Event>)
    requires Factory(u, b) && Boot(js, b) && After(u, before, b) == Some(js[0].u) && i < |js|
    ensures var d := js[i].u.disk; Genuine(b, d.At(d.boot).image) && Genuine(b, d.At(js[i].u.running).image)
    ensures var n := Next(js[i].u, Reset, b); Genuine(b, n.disk.At(n.running).image) && n.push == NoPush
    ensures After(u, es, b) == Some(Next(js[i].u, Reset, b))
  {
    var during := BootIsAPath(js, b, i);
    AfterConcat(u, before, during, b);
    NeverBootsUnverified(u, before + during, b);
    OneEvent(js[i].u, Reset, b);
    AfterConcat(u, before + during, [Reset], b);
    es := before + during + [Reset];
  }
}
