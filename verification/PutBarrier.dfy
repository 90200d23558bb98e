/** The shared assembly buffer of components/app/cmd/cmd.c. A track upload stages its text there and
    hands it to the logger; after a timeout the logger may still be reading it. Every command that
    writes the buffer first waits behind a barrier request. The console task's commands run over the
    request/reply machine of LogRequest, interleaved with every other task and the logger. */
module PutBarrier {
  import opened Prelude
  import opened LogRequest

  datatype Op = List | ConfigGet | ErrlogGet | DiagGet | TracksGet | TracksPut | Delete | OtaBegin | Elsewhere

  /** The commands cmd_dispatch holds back at the barrier. */
  predicate HeldBack(op: Op) { op in {List, ConfigGet, ErrlogGet, DiagGet, TracksGet, TracksPut} }

  /** The commands whose own code writes the buffer. */
  predicate WritesBuffer(op: Op) { op != Delete && op != OtaBegin && op != Elsewhere }

  /** The commands that make one synchronous request of their own. */
  predicate Asks(op: Op) { op in {Delete, OtaBegin} }

  datatype Console = Ready | Barrier(op: Op) | Writing(op: Op) | PutWait | AskWait

  /** `pending` is s_put_pending. */
  datatype State = State(s: Sys, con: Console, pending: bool)

  datatype Step =
    | Dispatch(op: Op)
    | Write            // one store into the buffer
    | DoneWriting(stage: bool)   // an upload of a bad length ends here with nothing staged
    | Request(m: Move)

  /** The code a request call returns to its task with this move, if it returns. */
  function Returns(s: Sys, m: Move): Option<int>
    requires Enabled(s, m)
  {
    match m
    case Send(_, false) => Some(-1)
    case GiveUp(_) => Some(-2)
    case Receive(t) =>
      var r := s.tasks[t].slot.value;
      if TagOf(r.word) == s.tasks[t].pc.id % TAGS then Some(CodeOf(r.word))
      else if s.tasks[t].pc.discards + 1 < LOG_REQ_Q_DEPTH then None
      else Some(-2)
    case _ => None
  }

  function TaskOf(m: Move): Option<nat> {
    match m
    case Draw(t, _) => Some(t)
    case Clear(t) => Some(t)
    case Send(t, _) => Some(t)
    case Receive(t) => Some(t)
    case GiveUp(t) => Some(t)
    case _ => None
  }

  predicate CanStep(p: State, x: Step) {
    match x
    case Dispatch(_) => p.con.Ready? && Enabled(p.s, Draw(CONSOLE, false))
    case Write => p.con.Writing?
    case DoneWriting(stage) => p.con.Writing? && (stage ==> p.con.op.TracksPut? && Enabled(p.s, Draw(CONSOLE, true)))
    case Request(m) => Enabled(p.s, m) && !(m.Draw? && m.t == CONSOLE)
  }

  /** The console goes on with the code its request returned. */
  function Resume(p: State, rc: int): State {
    match p.con
    case Barrier(op) => if rc == 0 then p.(con := Writing(op), pending := false) else p.(con := Ready)
    case PutWait => p.(con := Ready, pending := p.pending || rc == -2)
    case AskWait => p.(con := Ready)
    case _ => p
  }

  function Stepped(p: State, x: Step): State
    requires CanStep(p, x)
  {
    match x
    case Dispatch(op) =>
      if HeldBack(op) && p.pending then State(Next(p.s, Draw(CONSOLE, false)), Barrier(op), true)
      else if WritesBuffer(op) then p.(con := Writing(op))
      else if Asks(op) then p.(s := Next(p.s, Draw(CONSOLE, false)), con := AskWait)
      else p
    case Write => p
    case DoneWriting(stage) =>
      if stage then p.(s := Next(p.s, Draw(CONSOLE, true)), con := PutWait)
      else p.(con := Ready)
    case Request(m) =>
      var q := p.(s := Next(p.s, m));
      if TaskOf(m) == Some(CONSOLE) && Returns(p.s, m).Some? then Resume(q, Returns(p.s, m).value) else q
  }

  predicate Run(p: State, xs: seq<Step>)
    decreases |xs|
  {
    xs == [] || (CanStep(p, xs[0]) && Run(Stepped(p, xs[0]), xs[1..]))
  }

  function After(p: State, xs: seq<Step>): State
    requires Run(p, xs)
    decreases |xs|
  {
    if xs == [] then p else After(Stepped(p, xs[0]), xs[1..])
  }

  function Boot(n: nat): State { State(LogRequest.Boot(n), Ready, false) }

  /** Nothing the logger still has to handle reads the buffer. */
  predicate NoPut(s: Sys) { forall e <- s.backlog :: !e.put }

  /** The console never took a reply for another request's. */
  predicate NeverFooled(s: Sys) { forall a <- s.answers :: a.task == CONSOLE ==> a.origin == a.id }

  /** The console never took a reply 256 or more generations after its request drew its own. */
  predicate Within256(s: Sys) { forall a <- s.answers :: a.task == CONSOLE ==> a.id - a.origin < TAGS }

  /** The two are the same: a tag can be mistaken only a whole round later. */
  lemma FooledOnlyARoundLater(s: Sys)
    requires LogRequest.Inv(s)
    ensures Within256(s) <==> NeverFooled(s)
  {
    forall a | a in s.answers && a.task == CONSOLE ensures a.id - a.origin < TAGS <==> a.origin == a.id {
      assert AnswerOk(a, s.handled);
    }
  }

  // ---- the invariant ----

  predicate Sending(pc: Pc, put: bool) { (pc.Drawn? || pc.Cleared?) && pc.put == put }

  predicate Inv(p: State) {
    && |p.s.tasks| > CONSOLE
    && LogRequest.Inv(p.s)
    && (NeverFooled(p.s) ==>
          && (!p.pending && !p.con.PutWait? ==> NoPut(p.s))
          && (p.con.Writing? ==> NoPut(p.s) && !p.pending)
          && (p.con.PutWait? ==> !p.pending && (Sending(p.s.tasks[CONSOLE].pc, true) ==> NoPut(p.s))))
    && match p.con
       case Ready => p.s.tasks[CONSOLE].pc.Idle?
       case Writing(_) => p.s.tasks[CONSOLE].pc.Idle?
       case PutWait => Sending(p.s.tasks[CONSOLE].pc, true) || p.s.tasks[CONSOLE].pc.Waiting?
       case _ => Sending(p.s.tasks[CONSOLE].pc, false) || p.s.tasks[CONSOLE].pc.Waiting?
  }

  lemma FooledForever(s: Sys, m: Move)
    requires Enabled(s, m) && NeverFooled(Next(s, m))
    ensures NeverFooled(s)
  {
    assert forall a <- s.answers :: a in Next(s, m).answers;
  }

  /** A reply the console takes, not being fooled, leaves no upload with the logger. */
  lemma TakenReplyClears(s: Sys, m: Move)
    requires LogRequest.Inv(s) && Enabled(s, m) && m.Receive? && m.t == CONSOLE
    requires TagOf(s.tasks[CONSOLE].slot.value.word) == s.tasks[CONSOLE].pc.id % TAGS
    requires NeverFooled(Next(s, m))
    ensures NoPut(Next(s, m)) && NoPut(s)
  {
    var r, id := s.tasks[CONSOLE].slot.value, s.tasks[CONSOLE].pc.id;
    var a := Answer(CONSOLE, id, r.id, r.raw, CodeOf(r.word));
    assert a == Next(s, m).answers[|s.answers|];
    OwnReplyMeansNothingOutstanding(s, CONSOLE);
    forall e <- s.backlog ensures !e.put {
      var i :| 0 <= i < |s.backlog| && s.backlog[i] == e;
    }
  }

  /** Any other move leaves the uploads with the logger no more than they were, but for the console's
      own send of one. */
  lemma PutsOnlyFromSend(s: Sys, m: Move)
    requires LogRequest.Inv(s) && Enabled(s, m) && NoPut(s) && |s.tasks| > CONSOLE
    requires !(m.Send? && m.t == CONSOLE && Sending(s.tasks[CONSOLE].pc, true))
    ensures NoPut(Next(s, m))
  {
    if m.Send? {
      assert TaskOk(s.tasks[m.t], m.t, s.gen, s.backlog, s.handled);
    }
  }

  /** The word in the console's slot carries the tag it waits for. */
  predicate TagMatches(s: Sys)
    requires Enabled(s, Receive(CONSOLE))
  {
    TagOf(s.tasks[CONSOLE].slot.value.word) == s.tasks[CONSOLE].pc.id % TAGS
  }

  lemma ConsoleTakesItsReply(p: State)
    requires Inv(p) && CanStep(p, Request(Receive(CONSOLE))) && TagMatches(p.s)
    ensures Inv(Stepped(p, Request(Receive(CONSOLE))))
  {
    var m := Receive(CONSOLE);
    NextOk(p.s, m);
    if NeverFooled(Next(p.s, m)) {
      TakenReplyClears(p.s, m);
    }
  }

  lemma ConsoleDiscards(p: State)
    requires Inv(p) && CanStep(p, Request(Receive(CONSOLE))) && !TagMatches(p.s)
    ensures Inv(Stepped(p, Request(Receive(CONSOLE))))
  {
    var m := Receive(CONSOLE);
    NextOk(p.s, m);
    if NoPut(p.s) {
      PutsOnlyFromSend(p.s, m);
    }
  }

  lemma ConsoleSends(p: State, ok: bool)
    requires Inv(p) && CanStep(p, Request(Send(CONSOLE, ok)))
    ensures Inv(Stepped(p, Request(Send(CONSOLE, ok))))
  {
    var m := Send(CONSOLE, ok);
    NextOk(p.s, m);
    if NoPut(p.s) && !Sending(p.s.tasks[CONSOLE].pc, true) {
      PutsOnlyFromSend(p.s, m);
    }
  }

  lemma ConsoleWaits(p: State, m: Move)
    requires Inv(p) && CanStep(p, Request(m)) && (m == Clear(CONSOLE) || m == GiveUp(CONSOLE))
    ensures Inv(Stepped(p, Request(m)))
  {
    NextOk(p.s, m);
    if NoPut(p.s) {
      PutsOnlyFromSend(p.s, m);
    }
  }

  lemma OtherMoveKeeps(p: State, m: Move)
    requires Inv(p) && CanStep(p, Request(m)) && TaskOf(m) != Some(CONSOLE)
    ensures Inv(Stepped(p, Request(m)))
  {
    NextOk(p.s, m);
    var q := Stepped(p, Request(m));
    assert q.s.tasks[CONSOLE].pc == p.s.tasks[CONSOLE].pc;
    if NeverFooled(q.s) {
      FooledForever(p.s, m);
      if NoPut(p.s) {
        PutsOnlyFromSend(p.s, m);
      }
    }
  }

  lemma DrawKeeps(p: State, put: bool, con: Console)
    requires Inv(p) && Enabled(p.s, Draw(CONSOLE, put))
    requires if put then con.PutWait? && p.con.Writing? else (con.Barrier? && p.pending) || con.AskWait?
    requires p.con.Ready? || p.con.Writing?
    ensures Inv(State(Next(p.s, Draw(CONSOLE, put)), con, p.pending))
  {
    NextOk(p.s, Draw(CONSOLE, put));
    if NoPut(p.s) {
      PutsOnlyFromSend(p.s, Draw(CONSOLE, put));
    }
  }

  lemma StepKeeps(p: State, x: Step)
    requires Inv(p) && CanStep(p, x)
    ensures Inv(Stepped(p, x))
  {
    match x {
      case Dispatch(op) =>
        if HeldBack(op) && p.pending {
          DrawKeeps(p, false, Barrier(op));
        } else if Asks(op) {
          DrawKeeps(p, false, AskWait);
        }
      case Write =>
      case DoneWriting(stage) =>
        if stage {
          DrawKeeps(p, true, PutWait);
        }
      case Request(m) =>
        if TaskOf(m) != Some(CONSOLE) {
          OtherMoveKeeps(p, m);
        } else if m.Receive? {
          if TagMatches(p.s) {
            ConsoleTakesItsReply(p);
          } else {
            ConsoleDiscards(p);
          }
        } else if m.Send? {
          ConsoleSends(p, m.ok);
        } else {
          ConsoleWaits(p, m);
        }
    }
  }

  // ---- the theorem ----

  /** The steps at which the console draws a generation for a request. */
  predicate Draws(p: State, x: Step) {
    match x
    case Dispatch(op) => (HeldBack(op) && p.pending) || Asks(op)
    case DoneWriting(stage) => stage
    case _ => false
  }

  /** Whenever the console draws a generation, none of its requests still with the logger carries that
      tag; so it is if they are fewer than 256 generations old (LogRequest.YoungIsFree). */
  predicate DrawsFreeTags(p: State, xs: seq<Step>)
    requires Run(p, xs)
    decreases |xs|
  {
    xs == [] || ((Draws(p, xs[0]) ==> TagFree(p.s, CONSOLE)) && DrawsFreeTags(Stepped(p, xs[0]), xs[1..]))
  }

  predicate Unfooled(p: State) {
    && |p.s.tasks| > CONSOLE && Apart(p.s, CONSOLE)
    && NeverFooled(p.s)
  }

  lemma MoveKeepsUnfooled(s: Sys, m: Move)
    requires LogRequest.Inv(s) && Enabled(s, m) && |s.tasks| > CONSOLE && Apart(s, CONSOLE) && NeverFooled(s)
    requires m.Draw? && m.t == CONSOLE ==> TagFree(s, CONSOLE)
    ensures |Next(s, m).tasks| > CONSOLE && Apart(Next(s, m), CONSOLE) && NeverFooled(Next(s, m))
  {
    ApartKept(s, m, CONSOLE);
  }

  lemma {:induction false} NeverFooledAlong(p: State, xs: seq<Step>)
    requires Inv(p) && Unfooled(p) && Run(p, xs) && DrawsFreeTags(p, xs)
    ensures Inv(After(p, xs)) && Unfooled(After(p, xs))
    decreases |xs|
  {
    if xs != [] {
      var q := Stepped(p, xs[0]);
      StepKeeps(p, xs[0]);
      match xs[0] {
        case Request(m) => MoveKeepsUnfooled(p.s, m);
        case Write =>
        case DoneWriting(stage) => if stage { MoveKeepsUnfooled(p.s, Draw(CONSOLE, true)); }
        case Dispatch(op) => if Draws(p, xs[0]) { MoveKeepsUnfooled(p.s, Draw(CONSOLE, false)); }
      }
      NeverFooledAlong(q, xs[1..]);
    }
  }

  /** In every interleaving: if the console never draws a tag that one of its own requests still with the
      logger carries, no command stores into the assembly buffer while the logger has a track upload to
      read from it or is reading one. */
  lemma NoWriteUnderAnUpload(n: nat, xs: seq<Step>)
    requires n > CONSOLE && Run(Boot(n), xs) && CanStep(After(Boot(n), xs), Write)
    requires DrawsFreeTags(Boot(n), xs)
    ensures NoPut(After(Boot(n), xs).s)
  {
    BootOk(n);
    NeverFooledAlong(Boot(n), xs);
  }

  // ---- the barrier at work ----

  lemma {:induction false} RunConcat(p: State, a: seq<Step>, b: seq<Step>)
    requires Run(p, a) && Run(After(p, a), b)
    ensures Run(p, a + b) && After(p, a + b) == After(After(p, a), b)
    decreases |a|
  {
    if a == [] {
      assert a + b == b;
    } else {
      assert (a + b)[1..] == a[1..] + b;
      RunConcat(Stepped(p, a[0]), a[1..], b);
    }
  }

  /** One step after a run. */
  lemma Then(p: State, xs: seq<Step>, x: Step)
    requires Run(p, xs) && CanStep(After(p, xs), x)
    ensures Run(p, xs + [x]) && After(p, xs + [x]) == Stepped(After(p, xs), x)
  {
    assert [x][1..] == [];
    assert Run(After(p, xs), [x]) && After(After(p, xs), [x]) == Stepped(After(p, xs), x);
    RunConcat(p, xs, [x]);
  }

  /** A call of the console that is sent and given up, or, if `waits` is not set, sent. */
  lemma Sent(p: State, waits: bool) returns (xs: seq<Step>)
    requires |p.s.tasks| > CONSOLE && p.s.tasks[CONSOLE].pc.Drawn? && Queued(p.s) < LOG_REQ_Q_DEPTH
    requires p.con.PutWait? || p.con.Barrier?
    ensures Run(p, xs)
    ensures var q, pc := After(p, xs), p.s.tasks[CONSOLE].pc;
            && q.s.backlog == p.s.backlog + [Entry(Some(CONSOLE), pc.id, pc.put)] && q.s.inHand == p.s.inHand
            && q.s.gen == p.s.gen && |q.s.tasks| == |p.s.tasks|
            && if waits then q.con == p.con && q.pending == p.pending && q.s.tasks[CONSOLE] == Task(Waiting(pc.id, 0), None)
               else q.con == Ready && q.pending == (p.pending || p.con.PutWait?) && q.s.tasks[CONSOLE] == Task(Idle, None)
  {
    xs := [];
    Then(p, xs, Request(Clear(CONSOLE)));
    xs := xs + [Request(Clear(CONSOLE))];
    Then(p, xs, Request(Send(CONSOLE, true)));
    xs := xs + [Request(Send(CONSOLE, true))];
    if !waits {
      Then(p, xs, Request(GiveUp(CONSOLE)));
      xs := xs + [Request(GiveUp(CONSOLE))];
    }
  }

  /** An upload that times out is with the logger still, and holds the next command that would write the
      buffer back at the barrier. */
  lemma TimedOutPutHoldsBack(n: nat, op: Op) returns (xs: seq<Step>)
    requires n > CONSOLE && HeldBack(op)
    ensures Run(Boot(n), xs)
    ensures var q := After(Boot(n), xs);
            && q.con == Barrier(op) && q.pending && !CanStep(q, Write) && !NoPut(q.s)
            && q.s.backlog == [Entry(Some(CONSOLE), 1, true)] && !q.s.inHand && q.s.gen == 2
            && |q.s.tasks| == n && q.s.tasks[CONSOLE] == Task(Drawn(2, false), None)
  {
    var p := Boot(n);
    xs := [];
    Then(p, xs, Dispatch(TracksPut));
    xs := xs + [Dispatch(TracksPut)];
    Then(p, xs, DoneWriting(true));
    xs := xs + [DoneWriting(true)];
    var put := Sent(After(p, xs), false);
    RunConcat(p, xs, put);
    xs := xs + put;
    Then(p, xs, Dispatch(op));
    xs := xs + [Dispatch(op)];
    assert Entry(Some(CONSOLE), 1, true) in After(p, xs).s.backlog;
  }

  /** Once the logger has worked that off and answered the barrier, the command goes on and may write. */
  lemma AnsweredBarrierLetsThrough(n: nat, op: Op) returns (xs: seq<Step>)
    requires n > CONSOLE && HeldBack(op)
    ensures Run(Boot(n), xs)
    ensures var q := After(Boot(n), xs); q.con == Writing(op) && !q.pending && CanStep(q, Write) && NoPut(q.s)
  {
    var p := Boot(n);
    xs := TimedOutPutHoldsBack(n, op);
    var ask := Sent(After(p, xs), true);
    RunConcat(p, xs, ask);
    xs := xs + ask;
    PackedCodeSurvives(2, 0);
    xs := Worked(p, xs, Take);
    xs := Worked(p, xs, Finish(0));
    assert After(p, xs).s.backlog == [Entry(Some(CONSOLE), 2, false)];
    xs := Worked(p, xs, Receive(CONSOLE));
    xs := Worked(p, xs, Take);
    xs := Worked(p, xs, Finish(0));
    xs := Worked(p, xs, Receive(CONSOLE));
  }

  lemma Worked(p: State, xs: seq<Step>, m: Move) returns (ys: seq<Step>)
    requires Run(p, xs) && CanStep(After(p, xs), Request(m))
    ensures ys == xs + [Request(m)] && Run(p, ys) && After(p, ys) == Stepped(After(p, xs), Request(m))
  {
    ys := xs + [Request(m)];
    Then(p, xs, Request(m));
  }
}
