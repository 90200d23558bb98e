/** Every run of the console task and the supervisor over one OTA machine: who may touch it, what a
    call that won its claim achieves, and what holds whenever nobody is inside. */
module OtaRuns {
  import opened Prelude
  import opened SupPolicy
  import opened Ota
  import opened OtaRace

  /** The shared machine, both tasks, the clock, and what the proof remembers: for the console's
      call, the step that won the machine (`entry`), the machine it won (`snap`) and the clock it
      read (`clk`); for the poll, the machine it won (`ssnap`); and the begin command whose transfer was
      opened last (`header`). */
  datatype Sys = Sys(
    m: Machine, con: Pc, sup: Pc, now: nat,
    entry: Pc, snap: Machine, clk: nat, ssnap: Machine, header: seq<Byte>)

  /** A fresh boot: the statics are zero, the flash keeps whatever it held. */
  predicate Init(s: Sys) {
    && s.m == Start.(hw := s.m.hw) && s.m.hw.begun == 0 && s.m.hw.released == [] && s.m.hw.lastDataUs == 0
    && s.con == Out && s.sup == Out && s.clk == 0
  }

  predicate FirstStep(pc: Pc) {
    match pc
    case InBegin(_, at) => at.Flag?
    case InData(_, at) => at.Claim?
    case InEnd(_, at) => at.Claim?
    case AbortClaim => true
    case _ => false
  }

  /** The step that decides whether this call gets the machine. */
  predicate Decisive(pc: Pc) {
    match pc
    case InBegin(_, at) => at.LoadState?
    case InData(_, at) => at.Claim?
    case InEnd(_, at) => at.Claim?
    case AbortClaim => true
    case _ => false
  }

  /** The task at this step holds the machine. */
  predicate Owns(pc: Pc) {
    match pc
    case InBegin(_, at) => !at.Flag? && !at.LoadState?
    case InData(_, at) => !at.Claim?
    case InEnd(_, at) => !at.Claim?
    case InPoll(at) => at.ReloadStamp? || at.Reclock? || at.Restore?
    case InFail(_, _) => true
    case _ => false
  }

  predicate ReadsClock(pc: Pc) {
    match pc
    case InBegin(_, at) => at.Clock?
    case InData(_, at) => at.Clock?
    case InEnd(_, at) => at.Deadline?
    case InPoll(at) => at.Clock? || at.Reclock?
    case _ => false
  }

  /** The call has no clock reading ahead of it. */
  predicate Clocked(pc: Pc) {
    match pc
    case InBegin(_, at) => at.Arm? || at.Busy? || at.Publish?
    case InData(_, at) => at.Stamp? || at.CheckTarget? || at.Release?
    case InEnd(_, at) => at.Publish? || at.Tail?
    case InFail(_, _) => true
    case _ => false
  }

  predicate ConsoleStep(s: Sys, s': Sys, b: Board)
  {
    && s.con != Out
    && var (con', m') := Go(s.con, s.m, b, s.now);
       s' == s.(con := con', m := m',
                entry := if Decisive(s.con) then s.con else s.entry,
                snap := if Decisive(s.con) then s.m else s.snap,
                clk := if Clocked(s.con) then s.clk else s.now,
                header := if s.con.InBegin? && s.con.bat.Publish? then s.con.a.payload else s.header)
  }

  predicate PollStep(s: Sys, s': Sys, b: Board)
  {
    && s.sup != Out
    && var (sup', m') := Go(s.sup, s.m, b, s.now);
       s' == s.(sup := sup', m := m', ssnap := if s.sup == InPoll(PollAt.Claim) then s.m else s.ssnap)
  }

  predicate Step(s: Sys, s': Sys, b: Board)
  {
    || (s'.now >= s.now && s' == s.(now := s'.now))
    || (s.con == Out && FirstStep(s'.con) && s' == s.(con := s'.con))
    || (s.sup == Out && s' == s.(sup := InPoll(PollAt.LoadState)))
    || ConsoleStep(s, s', b)
    || PollStep(s, s', b)
  }

  predicate Run(ss: seq<Sys>, b: Board)
  {
    && |ss| > 0 && Init(ss[0])
    && forall i :: 0 <= i < |ss| - 1 ==> Step(ss[i], ss[i + 1], b)
  }

  // ---- the invariant ----

  predicate StateFits(pc: Pc, st: State) {
    match pc
    case InBegin(_, _) => st == Idle
    case InData(_, at) => st == Writing || (at.Release? && st == Idle)
    case InEnd(_, at) => st == Verify || (at.Tail? && (st == Idle || st == Reboot))
    case InFail(r, _) => st == (match r case ToData => Writing case ToEnd => Verify case ToOut => st)
                         && (r == ToOut ==> st == Aborting || st == Verify)
    case _ => true
  }

  predicate BeginArgsOk(pc: Pc, b: Board) {
    pc.InBegin? && !pc.bat.Flag? ==> |pc.a.payload| >= BEGIN_LEN && pc.a.payload[52..76] == b.hwid
  }

  predicate ClockedArgs(pc: Pc, now: nat) {
    match pc
    case InBegin(_, at) => at.Arm? ==> at.us <= now
    case InData(_, at) => at.Stamp? ==> at.us <= now
    case _ => true
  }

  ghost predicate ConsoleCall(s: Sys, b: Board)
  {
    && Decisive(s.entry) && Quiet(s.snap, b) && BeginArgsOk(s.entry, b)
    && (s.entry.InBegin? ==> s.snap.st == Idle)
    && (!s.entry.InBegin? ==> s.snap.st == Recv)
    && StateFits(s.con, s.m.st)
    && (if Clocked(s.con) then Rest(s.con, s.m, b, s.clk) == Rest(s.entry, s.snap, b, s.clk)
        else forall us :: Rest(s.con, s.m, b, us) == Rest(s.entry, s.snap, b, us))
  }

  predicate PollCall(s: Sys, b: Board)
  {
    && Quiet(s.ssnap, b) && s.ssnap.st == Recv && s.m.st == Aborting && s.ssnap.hw.lastDataUs <= s.now
    && match s.sup
       case InPoll(at) => s.m == s.ssnap.(st := Aborting) && (at.Reclock? ==> at.last == s.ssnap.lastData)
       case InFail(_, _) =>
         && Rest(s.sup, s.m, b, 0) == FailF(s.ssnap.(st := Aborting))
         && s.now / 1000 - s.ssnap.hw.lastDataUs / 1000 >= RECV_TIMEOUT_S * 1000
       case _ => true
  }

  ghost predicate Inv(s: Sys, b: Board)
  {
    && !s.con.InPoll? && (s.sup == Out || s.sup.InPoll? || (s.sup.InFail? && s.sup.r == ToOut))
    && !(Owns(s.con) && Owns(s.sup))
    && (Owns(s.con) ==> ConsoleCall(s, b))
    && (Owns(s.sup) ==> PollCall(s, b))
    && (!Owns(s.con) && !Owns(s.sup) ==> Quiet(s.m, b))
    && BeginArgsOk(s.con, b) && ClockedArgs(s.con, s.now) && s.m.hw.lastDataUs <= s.now && s.clk <= s.now
  }

  // ---- steps ----

  lemma GoClockFree(pc: Pc, m: Machine, b: Board, us: nat, us': nat)
    requires !ReadsClock(pc)
    ensures Go(pc, m, b, us) == Go(pc, m, b, us')
  {
  }

  /** A task that does not hold the machine changes nothing of it but, by winning, the state word. */
  lemma NonOwnerTouchesNothing(pc: Pc, m: Machine, b: Board, us: nat)
    requires !Owns(pc) && pc != Out
    ensures Go(pc, m, b, us).1 == m.(st := Go(pc, m, b, us).1.st)
    ensures !Owns(Go(pc, m, b, us).0) ==> Go(pc, m, b, us).1 == m
    ensures Owns(Go(pc, m, b, us).0) ==> Decisive(pc) || pc == InPoll(PollAt.Claim)
  {
  }

  /** What each call achieves, by its decisive step, on the machine that step found. */
  function CallF(entry: Pc, m: Machine, b: Board, us: nat): Machine
    requires Decisive(entry)
  {
    match entry
    case InBegin(a, _) => BeginF(m, b, a, us).0
    case InData(d, _) => DataF(m, b, d, us).0
    case InEnd(e, _) => EndF(m, b, e, us).0
    case AbortClaim => AbortF(m)
  }

  lemma CallAlone(entry: Pc, m: Machine, b: Board, us: nat)
    requires Decisive(entry) && BeginArgsOk(entry, b) && Quiet(m, b)
    requires entry.InBegin? ==> m.st == Idle
    ensures Rest(entry, m, b, us) == CallF(entry, m, b, us)
    ensures Quiet(CallF(entry, m, b, us), b)
  {
    match entry
    case InBegin(a, _) =>
      LoadedBeginAlone(a, m, b, us);
      BeginKeepsQuiet(m, b, a, us);
    case InData(d, _) =>
      DataAlone(d, m, b, us);
      DataKeepsQuiet(m, b, d, us);
    case InEnd(e, _) =>
      EndAlone(e, m, b, us);
      EndKeepsQuiet(m, b, e, us);
    case AbortClaim =>
      AbortAlone(m, b, us);
      AbortAndPollKeepQuiet(m, b, us);
  }

  predicate OwnerOk(pc: Pc, m: Machine, b: Board, now: nat) {
    !pc.InPoll? && StateFits(pc, m.st) && BeginArgsOk(pc, b) && ClockedArgs(pc, now) && m.hw.lastDataUs <= now
  }

  /** The state word, the stamp and the bounds after one owning step. */
  lemma OwnerStepShape(pc: Pc, m: Machine, b: Board, now: nat)
    requires Owns(pc) && OwnerOk(pc, m, b, now)
    ensures OwnerOk(Go(pc, m, b, now).0, Go(pc, m, b, now).1, b, now)
    ensures Go(pc, m, b, now).0 != Out ==> Owns(Go(pc, m, b, now).0)
    ensures pc.InFail? && Go(pc, m, b, now).0.InFail? ==> Go(pc, m, b, now).0.r == pc.r
  {
    match pc
    case InBegin(a, at) => BeginStepShape(a, at, m, b, now);
    case InData(d, at) => DataStepShape(d, at, m, b, now);
    case InEnd(e, at) => EndStepShape(e, at, m, b, now);
    case InFail(r, at) =>
  }

  lemma BeginStepShape(a: BeginArgs, at: BeginAt, m: Machine, b: Board, now: nat)
    requires Owns(InBegin(a, at)) && OwnerOk(InBegin(a, at), m, b, now)
    ensures var (pc', m') := GoBegin(a, at, m, b, now); OwnerOk(pc', m', b, now) && (pc' != Out ==> Owns(pc'))
  {
  }

  lemma DataStepShape(d: DataArgs, at: DataAt, m: Machine, b: Board, now: nat)
    requires Owns(InData(d, at)) && OwnerOk(InData(d, at), m, b, now)
    ensures var (pc', m') := GoData(d, at, m, b, now); OwnerOk(pc', m', b, now) && (pc' != Out ==> Owns(pc'))
  {
  }

  lemma EndStepShape(e: EndArgs, at: EndAt, m: Machine, b: Board, now: nat)
    requires Owns(InEnd(e, at)) && OwnerOk(InEnd(e, at), m, b, now)
    ensures var (pc', m') := GoEnd(e, at, m, b, now); OwnerOk(pc', m', b, now) && (pc' != Out ==> Owns(pc'))
  {
  }

  lemma RestUnfolds(pc: Pc, m: Machine, b: Board, now: nat, us: nat)
    requires pc != Out && (ReadsClock(pc) ==> us == now)
    ensures Rest(pc, m, b, us) == Rest(Go(pc, m, b, now).0, Go(pc, m, b, now).1, b, us)
  {
    if !ReadsClock(pc) {
      GoClockFree(pc, m, b, now, us);
    }
  }

  lemma AfterTheClock(pc: Pc, m: Machine, b: Board, us: nat)
    requires ReadsClock(pc) && !pc.InPoll?
    ensures Go(pc, m, b, us).0 == Out || Clocked(Go(pc, m, b, us).0)
  {
  }

  /** One owning step uses up one step of the call: what the call will achieve does not change. */
  lemma RestCarries(s: Sys, s': Sys, b: Board)
    requires ConsoleStep(s, s', b) && Owns(s.con) && !s.con.InPoll? && ConsoleCall(s, b) && !Decisive(s.con)
    ensures if Clocked(s'.con) || s'.con == Out then Rest(s'.con, s'.m, b, s'.clk) == Rest(s.entry, s.snap, b, s'.clk)
            else forall us :: Rest(s'.con, s'.m, b, us) == Rest(s.entry, s.snap, b, us)
  {
    RestUnfolds(s.con, s.m, b, s.now, s'.clk);
    if ReadsClock(s.con) {
      AfterTheClock(s.con, s.m, b, s.now);
    } else if !Clocked(s.con) {
      forall us
        ensures Rest(s'.con, s'.m, b, us) == Rest(s.entry, s.snap, b, us)
      {
        RestUnfolds(s.con, s.m, b, s.now, us);
      }
    } else {
      StaysClocked(s.con, s.m, b, s.now);
    }
  }

  lemma StaysClocked(pc: Pc, m: Machine, b: Board, us: nat)
    requires Clocked(pc)
    ensures Go(pc, m, b, us).0 == Out || Clocked(Go(pc, m, b, us).0)
  {
  }

  lemma ConsoleOwnerStep(s: Sys, s': Sys, b: Board)
    requires Inv(s, b) && ConsoleStep(s, s', b) && Owns(s.con)
    ensures Inv(s', b)
    ensures s'.con == Out ==> s'.m == CallF(s.entry, s.snap, b, s'.clk)
  {
    OwnerStepShape(s.con, s.m, b, s.now);
    RestCarries(s, s', b);
    assert !Decisive(s.con) && s'.entry == s.entry && s'.snap == s.snap;
    if s'.con == Out {
      CallAlone(s.entry, s.snap, b, s'.clk);
    }
  }

  lemma ConsoleClaimStep(s: Sys, s': Sys, b: Board)
    requires Inv(s, b) && ConsoleStep(s, s', b) && !Owns(s.con)
    ensures Inv(s', b)
  {
    NonOwnerTouchesNothing(s.con, s.m, b, s.now);
    if Owns(s'.con) {
      assert Quiet(s.m, b);
      if Clocked(s'.con) {
        assert Rest(s.con, s.m, b, s.now) == Rest(s'.con, s'.m, b, s.now);
      } else {
        forall us
          ensures Rest(s'.con, s'.m, b, us) == Rest(s.con, s.m, b, us)
        {
          GoClockFree(s.con, s.m, b, s.now, us);
        }
      }
    }
  }

  lemma PollFailStep(s: Sys, s': Sys, b: Board)
    requires Inv(s, b) && PollStep(s, s', b) && s.sup.InFail?
    ensures Inv(s', b) && s'.ssnap == s.ssnap
    ensures s'.sup == Out ==> s'.m == FailF(s.ssnap.(st := Aborting))
  {
    OwnerStepShape(s.sup, s.m, b, s.now);
    GoClockFree(s.sup, s.m, b, s.now, 0);
    assert Rest(s.sup, s.m, b, 0) == Rest(s'.sup, s'.m, b, 0);
    AbortAndPollKeepQuiet(s.ssnap, b, 0);
  }

  lemma PollRecheckStep(s: Sys, s': Sys, b: Board)
    requires Inv(s, b) && PollStep(s, s', b) && Owns(s.sup) && s.sup.InPoll?
    ensures Inv(s', b)
    ensures s'.sup == Out ==> s'.m == s.ssnap
    ensures s'.sup.InFail? ==> s.now / 1000 - s.ssnap.hw.lastDataUs / 1000 >= RECV_TIMEOUT_S * 1000
  {
    FailAlone(ToOut, s.m, b, 0);
    if s.sup.pat.Reclock? {
      StaleMeansOld(s.now / 1000, s.ssnap.hw.lastDataUs / 1000, RECV_TIMEOUT_S);
    }
  }

  lemma PollClaimStep(s: Sys, s': Sys, b: Board)
    requires Inv(s, b) && PollStep(s, s', b) && !Owns(s.sup)
    ensures Inv(s', b)
  {
    NonOwnerTouchesNothing(s.sup, s.m, b, s.now);
  }

  lemma QuietStep(s: Sys, s': Sys, b: Board)
    requires Inv(s, b)
    requires
      || (s'.now >= s.now && s' == s.(now := s'.now))
      || (s.con == Out && FirstStep(s'.con) && s' == s.(con := s'.con))
      || (s.sup == Out && s' == s.(sup := InPoll(PollAt.LoadState)))
    ensures Inv(s', b)
  {
    assert s'.now / 1000 >= s.now / 1000;
    assert Owns(s'.con) <==> Owns(s.con);
    assert Owns(s'.sup) <==> Owns(s.sup);
    if Owns(s.con) {
      assert ConsoleCall(s', b);
    }
    if Owns(s.sup) {
      assert PollCall(s', b);
    }
  }

  lemma StepKeepsInv(s: Sys, s': Sys, b: Board)
    requires Inv(s, b) && Step(s, s', b)
    ensures Inv(s', b)
  {
    if ConsoleStep(s, s', b) {
      if Owns(s.con) {
        ConsoleOwnerStep(s, s', b);
      } else {
        ConsoleClaimStep(s, s', b);
      }
    } else if PollStep(s, s', b) {
      if !Owns(s.sup) {
        PollClaimStep(s, s', b);
      } else if s.sup.InFail? {
        PollFailStep(s, s', b);
      } else {
        PollRecheckStep(s, s', b);
      }
    } else {
      QuietStep(s, s', b);
    }
  }

  lemma {:induction false} EveryRunKeepsInv(ss: seq<Sys>, b: Board, i: nat)
    requires Run(ss, b) && i < |ss|
    ensures Inv(ss[i], b)
  {
    if i > 0 {
      EveryRunKeepsInv(ss, b, i - 1);
      StepKeepsInv(ss[i - 1], ss[i], b);
    }
  }

  // ---- the begin command behind a transfer ----

  predicate Clearing(pc: Pc) { pc.InFail? && (pc.fat.ClearBusy? || pc.fat.StoreIdle?) }

  /** What the machine expects is what the begin command of its transfer announced, from the moment the
      fields are set until a failure resets them. */
  predicate HeaderHolds(s: Sys) {
    && (s.con.InBegin? && (s.con.bat.Busy? || s.con.bat.Publish?) ==> Announced(s.m, s.con.a.payload))
    && (s.m.st != Idle && !Clearing(s.con) && !Clearing(s.sup) ==> Announced(s.m, s.header))
  }

  lemma BeginKeepsHeader(s: Sys, s': Sys, b: Board)
    requires Inv(s, b) && HeaderHolds(s) && ConsoleStep(s, s', b) && s.con.InBegin?
    ensures HeaderHolds(s')
  {
    assert Owns(s.con) ==> s.m.st == Idle;
    hide Rest, Quiet, IsLe32, ConsoleCall, PollCall, Inv;
    if s.con.bat.Arm? && |s.con.a.payload| >= BEGIN_LEN {
      RdU32LeMeans(s.con.a.payload);
    }
  }

  lemma PublishesFromVerify(s: Sys, b: Board)
    requires Inv(s, b) && s.con.InEnd? && s.con.eat.Publish?
    ensures s.m.st == Verify
  {
  }

  /** Past a begin, size and hash change only where a failure resets the fields, and the machine leaves
      Idle in no other way. */
  lemma GoKeepsExpectation(pc: Pc, m: Machine, b: Board, us: nat)
    requires !pc.InBegin? && (pc.InEnd? && pc.eat.Publish? ==> m.st != Idle)
    ensures var (pc', m') := Go(pc, m, b, us);
            && (m'.st != Idle ==> m.st != Idle)
            && ((m'.x.size == m.x.size && m'.x.shaWant == m.x.shaWant) || Clearing(pc'))
            && (Clearing(pc) ==> Clearing(pc') || m'.st == Idle)
  {
  }

  lemma OtherCallKeepsHeader(s: Sys, s': Sys, b: Board)
    requires s.con.InEnd? && s.con.eat.Publish? ==> s.m.st != Idle
    requires HeaderHolds(s) && ConsoleStep(s, s', b) && !s.con.InBegin?
    ensures HeaderHolds(s')
  {
    GoKeepsExpectation(s.con, s.m, b, s.now);
    assert !s'.con.InBegin?;
    hide Go, IsLe32;
  }

  lemma PollKeepsHeader(s: Sys, s': Sys, b: Board)
    requires Inv(s, b) && HeaderHolds(s) && PollStep(s, s', b)
    ensures HeaderHolds(s')
  {
    assert !s.sup.InBegin? && !s.sup.InEnd?;
    assert s.con.InBegin? && Owns(s.con) ==> !Owns(s.sup) && s.m.st == Idle;
    assert !Owns(s.sup) && s.m.st == Idle ==> Go(s.sup, s.m, b, s.now).1 == s.m;
    GoKeepsExpectation(s.sup, s.m, b, s.now);
    hide Rest, Quiet, ConsoleCall, PollCall, Inv, Go, IsLe32;
  }

  lemma {:induction false} EveryRunHoldsItsHeader(ss: seq<Sys>, b: Board, i: nat)
    requires Run(ss, b) && i < |ss|
    ensures HeaderHolds(ss[i])
  {
    if i > 0 {
      var s, s' := ss[i - 1], ss[i];
      EveryRunHoldsItsHeader(ss, b, i - 1);
      EveryRunKeepsInv(ss, b, i - 1);
      EveryRunKeepsInv(ss, b, i);
      hide Inv, HeaderHolds, ConsoleStep, PollStep;
      assert Step(s, s', b);
      if ConsoleStep(s, s', b) {
        if s.con.InBegin? {
          BeginKeepsHeader(s, s', b);
        } else {
          if s.con.InEnd? && s.con.eat.Publish? {
            PublishesFromVerify(s, b);
          }
          OtherCallKeepsHeader(s, s', b);
        }
      } else if PollStep(s, s', b) {
        PollKeepsHeader(s, s', b);
      } else {
        OtherStepsKeepHeader(s, s', b);
      }
    }
  }

  lemma OtherStepsKeepHeader(s: Sys, s': Sys, b: Board)
    requires HeaderHolds(s) && Step(s, s', b) && !ConsoleStep(s, s', b) && !PollStep(s, s', b)
    ensures HeaderHolds(s')
  {
    hide ConsoleStep, PollStep;
  }

  // ---- what it means, for every state of every run ----

  /** Ownership: never two tasks inside, and a step of a task that has not won its claim leaves the
      handle, the hash context, the counters and every other field as they were. */
  lemma OnlyTheWinnerTouches(ss: seq<Sys>, b: Board, i: nat)
    requires Run(ss, b) && i + 1 < |ss|
    ensures !(Owns(ss[i].con) && Owns(ss[i].sup))
    ensures ConsoleStep(ss[i], ss[i + 1], b) && !Owns(ss[i].con) ==>
              ss[i + 1].m == ss[i].m.(st := ss[i + 1].m.st)
    ensures PollStep(ss[i], ss[i + 1], b) && !Owns(ss[i].sup) ==>
              ss[i + 1].m == ss[i].m.(st := ss[i + 1].m.st)
  {
    EveryRunKeepsInv(ss, b, i);
    if ss[i].con != Out && !Owns(ss[i].con) {
      NonOwnerTouchesNothing(ss[i].con, ss[i].m, b, ss[i].now);
    }
    if ss[i].sup != Out && !Owns(ss[i].sup) {
      NonOwnerTouchesNothing(ss[i].sup, ss[i].m, b, ss[i].now);
    }
  }

  /** Atomicity: whatever the supervisor does meanwhile, a console call that won the machine leaves
      it exactly as the call run alone would have, on the machine its winning step found. */
  lemma WonCallsAreAtomic(ss: seq<Sys>, b: Board, i: nat)
    requires Run(ss, b) && i + 1 < |ss|
    requires ConsoleStep(ss[i], ss[i + 1], b) && Owns(ss[i].con) && ss[i + 1].con == Out
    ensures Decisive(ss[i].entry) && ss[i + 1].m == CallF(ss[i].entry, ss[i].snap, b, ss[i + 1].clk)
    ensures ss[i + 1].clk <= ss[i + 1].now
  {
    EveryRunKeepsInv(ss, b, i);
    ConsoleOwnerStep(ss[i], ss[i + 1], b);
  }

  /** Whenever no call holds the machine, the handle ledger is settled: Idle and Reboot have every
      handle ever opened released exactly once, Recv all but the one it holds. */
  lemma HandlesReleasedExactlyOnce(ss: seq<Sys>, b: Board, i: nat)
    requires Run(ss, b) && i < |ss| && !Owns(ss[i].con) && !Owns(ss[i].sup)
    ensures ss[i].m.st in {Idle, Recv, Reboot}
    ensures ss[i].m.st in {Idle, Reboot} ==> ss[i].m.x.handle == 0 && ss[i].m.hw.released == UpTo(ss[i].m.hw.begun)
    ensures ss[i].m.st == Recv ==>
              ss[i].m.x.handle == ss[i].m.hw.begun && ss[i].m.hw.released + [ss[i].m.x.handle] == UpTo(ss[i].m.hw.begun)
  {
    EveryRunKeepsInv(ss, b, i);
    if ss[i].m.st == Recv {
      UpToGrows(ss[i].m.hw.begun - 1);
    }
  }

  /** Reboot is reachable only with a certified slot: as many bytes as the begin command of that transfer
      declares in its first four, written in order from offset 0, with the hash in the 32 behind them, the
      matching hardware id and project, a good signature, and the flag persisted immediately before the
      boot slot was switched. */
  lemma RebootIsCertified(ss: seq<Sys>, b: Board, i: nat)
    requires Run(ss, b) && i < |ss| && ss[i].m.st == Reboot
    ensures Certified(ss[i].m, b)
    ensures var h, slot := ss[i].header, ss[i].m.hw.slot; |h| >= 76 && IsLe32(|slot|, h) && b.sha256(slot) == h[4..36]
    ensures var slot := ss[i].m.hw.slot; |slot| >= 4096 && slot[0x120..0x138] == b.hwid && b.sameProject(slot[0x20..0x120])
    ensures ss[i].m.x.handle == 0 && ss[i].m.hw.released == UpTo(ss[i].m.hw.begun)
  {
    var s := ss[i];
    EveryRunKeepsInv(ss, b, i);
    EveryRunHoldsItsHeader(ss, b, i);
    TargetMatchesIff(b, s.m.hw.slot);
    assert !Clearing(s.con) && !Clearing(s.sup);
    if Owns(s.con) {
      assert s.con.InEnd? && s.con.eat.Tail?;
      assert Rest(s.con, s.m, b, s.clk) == Rest(Out, s.m, b, s.clk) == s.m;
      CallAlone(s.entry, s.snap, b, s.clk);
    }
  }

  /** The receive timeout: the step that commits a poll to aborting happens only when the data of
      the transfer it holds - whichever transfer that is by now - is older than the limit. */
  lemma TimeoutOnlyWhenOld(ss: seq<Sys>, b: Board, i: nat)
    requires Run(ss, b) && i < |ss| && ss[i].sup.InFail?
    ensures ss[i].ssnap.st == Recv
    ensures ss[i].now / 1000 - ss[i].ssnap.hw.lastDataUs / 1000 >= RECV_TIMEOUT_S * 1000
    ensures Rest(ss[i].sup, ss[i].m, b, 0) == FailF(ss[i].ssnap.(st := Aborting))
  {
    EveryRunKeepsInv(ss, b, i);
  }

  // ---- one poll, over a stretch of a run in which the clock moves ----

  /** The age of the data of `m` in whole milliseconds at clock reading `now`. */
  function AgeMs(m: Machine, now: nat): int { now / 1000 - m.hw.lastDataUs / 1000 }

  predicate Old(m: Machine, now: nat) { AgeMs(m, now) >= RECV_TIMEOUT_S * 1000 }

  /** The poll starts at state `i` and is back at state `k`; in between the clock moves as it likes and
      the console, which is not inside, makes no step. */
  predicate PollStretch(ss: seq<Sys>, i: nat, k: nat, b: Board)
  {
    && i < k < |ss| && ss[i].sup == InPoll(PollAt.LoadState) && ss[k].sup == Out && !Owns(ss[i].con)
    && (forall j :: i <= j < k ==> ss[j].sup != Out && ss[j + 1].con == ss[j].con && !ConsoleStep(ss[j], ss[j + 1], b))
  }

  /** Where a poll on the open transfer of `m0` can be: the transfer untouched, or claimed because it was
      old, or given up. */
  predicate PollHolds(s: Sys, m0: Machine, start: nat)
  {
    && start <= s.now
    && match s.sup
       case InPoll(at) =>
         if Owns(s.sup) then
           s.ssnap == m0 && s.m == m0.(st := Aborting) && Old(m0, s.now) && !at.Restore?
         else s.m == m0 && (at.Clock? ==> at.last == m0.lastData) && (at.Claim? ==> Old(m0, s.now))
       case InFail(_, _) => s.ssnap == m0 && Old(m0, s.now)
       case Out => (s.m == m0 && !Old(m0, start)) || (s.m == FailF(m0.(st := Aborting)) && Old(m0, s.now))
       case _ => false
  }

  lemma OpenIsQuiet(s: Sys, b: Board)
    requires Inv(s, b) && s.m.st == Recv
    ensures Quiet(s.m, b) && s.m.hw.lastDataUs <= s.now
  {
    assert !Owns(s.con) && !Owns(s.sup);
  }

  lemma PollHoldsUnclaimed(s: Sys, s': Sys, b: Board, m0: Machine, start: nat)
    requires PollHolds(s, m0, start) && PollStep(s, s', b) && s.sup.InPoll? && !Owns(s.sup)
    requires m0.st == Recv && m0.hw.lastDataUs <= start && AgeMs(m0, s'.now) < TWO_32
    requires m0.lastData == StampMs(m0.hw.lastDataUs)
    ensures PollHolds(s', m0, start)
  {
    StaleMeansOld(s.now / 1000, m0.hw.lastDataUs / 1000, RECV_TIMEOUT_S);
  }

  lemma PollHoldsOn(s: Sys, s': Sys, b: Board, m0: Machine, start: nat)
    requires Inv(s, b) && PollHolds(s, m0, start) && Quiet(m0, b) && m0.st == Recv && s.sup != Out
    requires Step(s, s', b) && s'.con == s.con && !ConsoleStep(s, s', b) && !Owns(s.con)
    requires m0.hw.lastDataUs <= start && AgeMs(m0, s'.now) < TWO_32
    ensures PollHolds(s', m0, start)
  {
    assert s'.now / 1000 >= s.now / 1000 >= start / 1000;
    StaleMeansOld(s.now / 1000, m0.hw.lastDataUs / 1000, RECV_TIMEOUT_S);
    if PollStep(s, s', b) && s.sup.InFail? {
      PollFailStep(s, s', b);
    } else if PollStep(s, s', b) && Owns(s.sup) {
      PollRecheckStep(s, s', b);
    } else if PollStep(s, s', b) {
      PollHoldsUnclaimed(s, s', b, m0, start);
    }
  }

  /** A poll that meets an open transfer nobody is inside, while the clock runs on: if the transfer is old
      when the poll starts it is given up and the machine is idle with its handle released; if it is still
      young when the poll ends nothing has changed; and nothing else can come of it. (For data less than
      2^32 milliseconds old, which the stamps can tell apart.) */
  lemma {:induction false} PollReapsStale(ss: seq<Sys>, b: Board, i: nat, k: nat)
    requires Run(ss, b) && PollStretch(ss, i, k, b) && ss[i].m.st == Recv && AgeMs(ss[i].m, ss[k].now) < TWO_32
    ensures ss[k].m == ss[i].m || (ss[k].m == FailF(ss[i].m.(st := Aborting)) && ss[k].m.st == Idle && Quiet(ss[k].m, b))
    ensures Old(ss[i].m, ss[i].now) ==> ss[k].m.st == Idle
    ensures !Old(ss[i].m, ss[k].now) ==> ss[k].m == ss[i].m
  {
    EveryRunKeepsInv(ss, b, i);
    PollAlong(ss, b, i, k, k);
    AbortAndPollKeepQuiet(ss[i].m, b, 0);
  }

  lemma {:induction false} PollAlong(ss: seq<Sys>, b: Board, i: nat, j: nat, k: nat)
    requires Run(ss, b) && PollStretch(ss, i, k, b) && ss[i].m.st == Recv && AgeMs(ss[i].m, ss[k].now) < TWO_32
    requires i <= j <= k
    ensures PollHolds(ss[j], ss[i].m, ss[i].now) && !Owns(ss[j].con)
    decreases j
  {
    if j == i {
      hide Step;
      EveryRunKeepsInv(ss, b, i);
    } else {
      hide Step, Inv, PollHolds, Quiet;
      PollAlong(ss, b, i, j - 1, k);
      EveryRunKeepsInv(ss, b, i);
      EveryRunKeepsInv(ss, b, j - 1);
      ClockGoesOn(ss, b, j, k);
      OpenIsQuiet(ss[i], b);
      assert Step(ss[j - 1], ss[j], b);
      PollHoldsOn(ss[j - 1], ss[j], b, ss[i].m, ss[i].now);
    }
  }

  lemma {:induction false} ClockGoesOn(ss: seq<Sys>, b: Board, i: nat, k: nat)
    requires Run(ss, b) && i <= k < |ss|
    ensures ss[i].now <= ss[k].now
    decreases k
  {
    if i < k {
      ClockGoesOn(ss, b, i, k - 1);
      assert Step(ss[k - 1], ss[k], b);
    }
  }
}
