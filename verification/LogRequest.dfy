/** components/app/sys/lt_ipc.c and the reply half of components/app/logger/logger.c: bounded
    request/reply over the logger's queue. Every task has one notification slot that a newer reply
    overwrites; an 8-bit generation tag tells a reply from a stale one. */
module LogRequest {
  import opened Prelude

  const LOG_REQ_Q_DEPTH: nat := 4
  const TAGS: int := 256

  // ---- the notification word ----

  const LOW24: int := 0x100_0000
  const HALF24: int := 0x80_0000

  /** notify_requester: the tag in the top byte, the low 24 bits of the code below it. */
  function Pack(tag: Byte, rc: int): (v: nat)
    ensures v < TWO_32
  {
    tag * LOW24 + rc % LOW24
  }

  function TagOf(v: nat): nat { v / LOW24 }

  function ToInt32(v: nat): int { if v < 0x8000_0000 then v else v - TWO_32 }

  /** (int32_t)(val << 8) >> 8, the right shift being arithmetic. */
  function CodeOf(v: nat): int { ToInt32(v * 256 % TWO_32) / 256 }

  lemma ShiftDropsTheTag(tag: Byte, low: nat)
    requires low < LOW24
    ensures (tag * LOW24 + low) * 256 % TWO_32 == low * 256
  {
    assert (tag * LOW24 + low) * 256 == tag * TWO_32 + low * 256;
  }

  /** The tag always survives; the code survives exactly when it fits in 24 signed bits. */
  lemma PackedCodeSurvives(tag: Byte, rc: int)
    ensures TagOf(Pack(tag, rc)) == tag
    ensures CodeOf(Pack(tag, rc)) == rc <==> -HALF24 <= rc < HALF24
  {
    var low := rc % LOW24;
    ShiftDropsTheTag(tag, low);
    assert CodeOf(Pack(tag, rc)) == if low < HALF24 then low else low - LOW24;
    if 0 <= rc < HALF24 {
      assert low == rc;
    } else if -HALF24 <= rc < 0 {
      assert low == rc + LOW24;
    }
  }

  // ---- the wait loop ----

  /** A notification taken by the wait that is not for this call. */
  predicate Stale(tag: Byte, w: Option<nat>) { w.Some? && TagOf(w.value) != tag }

  /** The wait loop of logger_request_sync. `waits` lists what each bounded wait in turn brings: a
      notification word, or nothing before the time is up. Stale words are discarded, at most
      LOG_REQ_Q_DEPTH of them. */
  method AwaitReply(tag: Byte, waits: seq<Option<nat>>) returns (rc: int, taken: Option<nat>)
    requires |waits| == LOG_REQ_Q_DEPTH
    ensures taken.Some? ==> taken in waits && TagOf(taken.value) == tag && rc == CodeOf(taken.value)
    ensures taken.None? ==> rc == -2
    ensures (forall j :: 0 <= j < |waits| ==> Stale(tag, waits[j])) ==> taken == None
    ensures forall i ::
      (0 <= i < |waits| && !Stale(tag, waits[i]) && forall j :: 0 <= j < i ==> Stale(tag, waits[j])) ==> taken == waits[i]
  {
    for i := 0 to LOG_REQ_Q_DEPTH
      invariant forall j :: 0 <= j < i ==> Stale(tag, waits[j])
    {
      if waits[i].None? {
        return -2, None;
      }
      var val := waits[i].value;
      if TagOf(val) == tag {
        return CodeOf(val), waits[i];
      }
    }
    return -2, None;
  }

  // ---- all tasks together ----

  /** A request on the queue: who waits for the answer (none for a fire-and-forget request), which
      generation it drew, and whether it is a track upload, which reads the sender's buffer. */
  datatype Entry = Entry(owner: Option<nat>, id: nat, put: bool)

  datatype Reply = Reply(id: nat, raw: int, word: nat)

  datatype Pc = Idle | Drawn(id: nat, put: bool) | Cleared(id: nat, put: bool) | Waiting(id: nat, discards: nat)

  datatype Task = Task(pc: Pc, slot: Option<Reply>)

  /** A finished call: the generation it waited for, the request whose reply it took, the code the
      logger produced for that request and the code the call returned. */
  datatype Answer = Answer(task: nat, id: nat, origin: nat, raw: int, rc: int)

  /** `gen` counts every generation drawn since boot; the tag is its low byte. The head of `backlog`
      is the request being handled when `inHand` is set. */
  datatype Sys = Sys(gen: nat, tasks: seq<Task>, backlog: seq<Entry>, inHand: bool,
                     handled: seq<(nat, int)>, answers: seq<Answer>)

  /** Only task 0, the console, sends uploads. */
  const CONSOLE: nat := 0

  datatype Move =
    | Draw(t: nat, put: bool)
    | Clear(t: nat)
    | Send(t: nat, ok: bool)
    | Receive(t: nat)
    | GiveUp(t: nat)
    | Forget(e: Entry)
    | Take
    | Finish(rc: int)

  /** What stands on the queue: the request in hand has left it. */
  function Queued(s: Sys): int { |s.backlog| - if s.inHand then 1 else 0 }

  predicate Enabled(s: Sys, m: Move) {
    match m
    case Draw(t, put) => t < |s.tasks| && s.tasks[t].pc.Idle? && (put ==> t == CONSOLE)
    case Clear(t) => t < |s.tasks| && s.tasks[t].pc.Drawn?
    case Send(t, ok) => t < |s.tasks| && s.tasks[t].pc.Cleared? && (ok <==> Queued(s) < LOG_REQ_Q_DEPTH)
    case Receive(t) => t < |s.tasks| && s.tasks[t].pc.Waiting? && s.tasks[t].slot.Some?
    case GiveUp(t) => t < |s.tasks| && s.tasks[t].pc.Waiting?
    case Forget(e) => e.owner.None? && !e.put && Queued(s) < LOG_REQ_Q_DEPTH
    case Take => !s.inHand && s.backlog != []
    case Finish(_) => s.inHand && s.backlog != []
  }

  function At(s: Sys, t: nat, task: Task): Sys
    requires t < |s.tasks|
  {
    s.(tasks := s.tasks[t := task])
  }

  function Received(s: Sys, t: nat): Sys
    requires Enabled(s, Receive(t))
  {
    var r := s.tasks[t].slot.value;
    var id, k := s.tasks[t].pc.id, s.tasks[t].pc.discards;
    if TagOf(r.word) == id % TAGS then
      At(s, t, Task(Idle, None)).(answers := s.answers + [Answer(t, id, r.id, r.raw, CodeOf(r.word))])
    else if k + 1 < LOG_REQ_Q_DEPTH then At(s, t, Task(Waiting(id, k + 1), None))
    else At(s, t, Task(Idle, None))
  }

  /** The logger ends with the request in hand, handled or dropped at the drain bound (code -1), and
      notifies whoever waits for it. */
  function Finished(s: Sys, rc: int): Sys
    requires s.backlog != []
  {
    var e := s.backlog[0];
    var u := s.(backlog := s.backlog[1..], inHand := false, handled := s.handled + [(e.id, rc)]);
    if e.owner.Some? && e.owner.value < |s.tasks| then
      var t := e.owner.value;
      At(u, t, Task(s.tasks[t].pc, Some(Reply(e.id, rc, Pack(e.id % TAGS, rc)))))
    else u
  }

  function Next(s: Sys, m: Move): Sys
    requires Enabled(s, m)
  {
    match m
    case Draw(t, put) => At(s, t, s.tasks[t].(pc := Drawn(s.gen + 1, put))).(gen := s.gen + 1)
    case Clear(t) => At(s, t, Task(Cleared(s.tasks[t].pc.id, s.tasks[t].pc.put), None))
    case Send(t, ok) =>
      var pc := s.tasks[t].pc;
      if ok then At(s, t, s.tasks[t].(pc := Waiting(pc.id, 0))).(backlog := s.backlog + [Entry(Some(t), pc.id, pc.put)])
      else At(s, t, s.tasks[t].(pc := Idle))
    case Receive(t) => Received(s, t)
    case GiveUp(t) => At(s, t, s.tasks[t].(pc := Idle))
    case Forget(e) => s.(backlog := s.backlog + [e])
    case Take => s.(inHand := true)
    case Finish(rc) => Finished(s, rc)
  }

  function Boot(n: nat): Sys { Sys(0, seq(n, _ => Task(Idle, None)), [], false, [], []) }

  predicate Run(s: Sys, moves: seq<Move>)
    decreases |moves|
  {
    moves == [] || (Enabled(s, moves[0]) && Run(Next(s, moves[0]), moves[1..]))
  }

  function After(s: Sys, moves: seq<Move>): Sys
    requires Run(s, moves)
    decreases |moves|
  {
    if moves == [] then s else After(Next(s, moves[0]), moves[1..])
  }

  // ---- the invariant ----

  /** Every request task `t` has out, and every reply waiting for it, is older than this. */
  function Limit(pc: Pc, gen: nat): nat {
    match pc
    case Idle => gen + 1
    case Drawn(id, _) => id
    case Cleared(id, _) => id
    case Waiting(id, _) => id + 1
  }

  predicate Owned(e: Entry, t: nat) { e.owner == Some(t) }

  /** Each task's requests stand in the queue in the order it drew them. */
  predicate InOrder(backlog: seq<Entry>) {
    && (forall i, j :: 0 <= i < j < |backlog| && backlog[i].owner.Some? && backlog[i].owner == backlog[j].owner
          ==> backlog[i].id < backlog[j].id)
    && (forall i :: 0 <= i < |backlog| && backlog[i].put ==> backlog[i].owner == Some(CONSOLE))
  }

  predicate Below(backlog: seq<Entry>, t: nat, limit: nat) {
    forall i :: 0 <= i < |backlog| && Owned(backlog[i], t) ==> backlog[i].id < limit
  }

  predicate Above(backlog: seq<Entry>, t: nat, id: nat) {
    forall i :: 0 <= i < |backlog| && Owned(backlog[i], t) ==> id < backlog[i].id
  }

  /** A reply in a slot carries its request's own tag and code, and that request was handled before
      everything its task still has queued. */
  predicate TaskOk(k: Task, t: nat, gen: nat, backlog: seq<Entry>, handled: seq<(nat, int)>) {
    && (!k.pc.Idle? ==> k.pc.id <= gen)
    && ((k.pc.Drawn? || k.pc.Cleared?) && k.pc.put ==> t == CONSOLE)
    && Below(backlog, t, Limit(k.pc, gen))
    && (k.slot.Some? ==>
          var r := k.slot.value;
          && r.id < Limit(k.pc, gen)
          && r.word == Pack(r.id % TAGS, r.raw)
          && (r.id, r.raw) in handled
          && Above(backlog, t, r.id))
  }

  /** A taken reply is for the request waited for, or for one drawn a whole number of tag rounds
      before; and it brings that request's code. */
  predicate AnswerOk(a: Answer, handled: seq<(nat, int)>) {
    && a.origin <= a.id
    && (a.id - a.origin) % TAGS == 0
    && (a.origin, a.raw) in handled
    && (-HALF24 <= a.raw < HALF24 ==> a.rc == a.raw)
  }

  predicate Inv(s: Sys) {
    && InOrder(s.backlog)
    && (forall t :: 0 <= t < |s.tasks| ==> TaskOk(s.tasks[t], t, s.gen, s.backlog, s.handled))
    && (forall a <- s.answers :: AnswerOk(a, s.handled) && a.id <= s.gen)
  }

  lemma SameTag(a: nat, b: nat)
    requires a <= b && a % TAGS == b % TAGS
    ensures (b - a) % TAGS == 0
  {
  }

  lemma DrawOk(s: Sys, t: nat, put: bool)
    requires Inv(s) && Enabled(s, Draw(t, put))
    ensures Inv(Next(s, Draw(t, put)))
  {
    var u := Next(s, Draw(t, put));
    forall v | 0 <= v < |u.tasks| ensures TaskOk(u.tasks[v], v, u.gen, u.backlog, u.handled) {
      assert TaskOk(s.tasks[v], v, s.gen, s.backlog, s.handled);
    }
  }

  lemma SendOk(s: Sys, t: nat, ok: bool)
    requires Inv(s) && Enabled(s, Send(t, ok))
    ensures Inv(Next(s, Send(t, ok)))
  {
    var u := Next(s, Send(t, ok));
    assert TaskOk(s.tasks[t], t, s.gen, s.backlog, s.handled);
    forall v | 0 <= v < |u.tasks| ensures TaskOk(u.tasks[v], v, u.gen, u.backlog, u.handled) {
      assert TaskOk(s.tasks[v], v, s.gen, s.backlog, s.handled);
    }
  }

  lemma ReceiveOk(s: Sys, t: nat)
    requires Inv(s) && Enabled(s, Receive(t))
    ensures Inv(Received(s, t))
  {
    var u := Received(s, t);
    var r, id := s.tasks[t].slot.value, s.tasks[t].pc.id;
    assert TaskOk(s.tasks[t], t, s.gen, s.backlog, s.handled);
    PackedCodeSurvives(r.id % TAGS, r.raw);
    if TagOf(r.word) == id % TAGS {
      SameTag(r.id, id);
    }
    forall v | 0 <= v < |u.tasks| ensures TaskOk(u.tasks[v], v, u.gen, u.backlog, u.handled) {
      assert TaskOk(s.tasks[v], v, s.gen, s.backlog, s.handled);
    }
  }

  lemma ForgetOk(s: Sys, e: Entry)
    requires Inv(s) && Enabled(s, Forget(e))
    ensures Inv(Next(s, Forget(e)))
  {
    var u := Next(s, Forget(e));
    forall v | 0 <= v < |u.tasks| ensures TaskOk(u.tasks[v], v, u.gen, u.backlog, u.handled) {
      assert TaskOk(s.tasks[v], v, s.gen, s.backlog, s.handled);
    }
  }

  lemma FinishOk(s: Sys, rc: int)
    requires Inv(s) && Enabled(s, Finish(rc))
    ensures Inv(Finished(s, rc))
  {
    var u, e := Finished(s, rc), s.backlog[0];
    assert (e.id, rc) in u.handled;
    assert forall h <- s.handled :: h in u.handled;
    assert forall i :: 0 <= i < |u.backlog| ==> u.backlog[i] == s.backlog[i + 1];
    forall v | 0 <= v < |u.tasks| ensures TaskOk(u.tasks[v], v, u.gen, u.backlog, u.handled) {
      assert TaskOk(s.tasks[v], v, s.gen, s.backlog, s.handled);
    }
  }

  lemma PlainOk(s: Sys, m: Move)
    requires Inv(s) && Enabled(s, m) && (m.Clear? || m.GiveUp? || m.Take?)
    ensures Inv(Next(s, m))
  {
    var u := Next(s, m);
    forall v | 0 <= v < |u.tasks| ensures TaskOk(u.tasks[v], v, u.gen, u.backlog, u.handled) {
      assert TaskOk(s.tasks[v], v, s.gen, s.backlog, s.handled);
    }
  }

  lemma NextOk(s: Sys, m: Move)
    requires Inv(s) && Enabled(s, m)
    ensures Inv(Next(s, m))
  {
    match m {
      case Draw(t, put) => DrawOk(s, t, put);
      case Send(t, ok) => SendOk(s, t, ok);
      case Receive(t) => ReceiveOk(s, t);
      case Forget(e) => ForgetOk(s, e);
      case Finish(rc) => FinishOk(s, rc);
      case _ => PlainOk(s, m);
    }
  }

  lemma {:induction false} RunOk(s: Sys, moves: seq<Move>)
    requires Inv(s) && Run(s, moves)
    ensures Inv(After(s, moves))
    decreases |moves|
  {
    if moves != [] {
      NextOk(s, moves[0]);
      RunOk(Next(s, moves[0]), moves[1..]);
    }
  }

  lemma BootOk(n: nat)
    ensures Inv(Boot(n))
  {
  }

  // ---- the theorems ----

  /** Over every interleaving: a code taken from a reply was produced for a request whose tag is the
      caller's, so it is the code of that very request unless at least 256 generations were drawn
      between the two; and it is the code the logger produced, if that fits in 24 bits. */
  lemma TakenCodesBelongToTheRequest(n: nat, moves: seq<Move>)
    requires Run(Boot(n), moves)
    ensures var s := After(Boot(n), moves);
            forall a <- s.answers ::
              && (a.origin == a.id || a.id - a.origin >= TAGS)
              && (a.origin, a.raw) in s.handled
              && (-HALF24 <= a.raw < HALF24 ==> a.rc == a.raw)
  {
    BootOk(n);
    RunOk(Boot(n), moves);
    var s := After(Boot(n), moves);
    forall a <- s.answers ensures a.origin == a.id || a.id - a.origin >= TAGS {
      assert AnswerOk(a, s.handled);
    }
  }

  /** When a task takes the reply to its own latest request, the logger has finished with everything
      that task ever sent: nothing of its stands in the queue or in the logger's hand. */
  lemma OwnReplyMeansNothingOutstanding(s: Sys, t: nat)
    requires Inv(s) && Enabled(s, Receive(t)) && s.tasks[t].slot.value.id == s.tasks[t].pc.id
    ensures forall e <- s.backlog :: !Owned(e, t)
  {
    assert TaskOk(s.tasks[t], t, s.gen, s.backlog, s.handled);
    forall e <- s.backlog ensures !Owned(e, t) {
      var i :| 0 <= i < |s.backlog| && s.backlog[i] == e;
    }
  }

  // ---- when a call is safe from old replies ----

  /** No request of task `t` still with the logger carries the tag that `t` draws next. */
  predicate TagFree(s: Sys, t: nat) {
    forall i :: 0 <= i < |s.backlog| && Owned(s.backlog[i], t) ==> s.backlog[i].id % TAGS != (s.gen + 1) % TAGS
  }

  /** So it is while everything `t` has with the logger is younger than 256 generations. */
  lemma YoungIsFree(s: Sys, t: nat)
    requires Inv(s) && t < |s.tasks| && s.tasks[t].pc.Idle?
    requires forall e <- s.backlog :: Owned(e, t) ==> s.gen + 1 - e.id < TAGS
    ensures TagFree(s, t)
  {
    assert TaskOk(s.tasks[t], t, s.gen, s.backlog, s.handled);
    forall i | 0 <= i < |s.backlog| && Owned(s.backlog[i], t) ensures s.backlog[i].id % TAGS != (s.gen + 1) % TAGS {
      assert s.backlog[i] in s.backlog;
      assert 0 < s.gen + 1 - s.backlog[i].id < TAGS;
    }
  }

  predicate Distinct(id: nat, other: nat) { other == id || other % TAGS != id % TAGS }

  /** Nothing that can still answer task `t`'s call carries its tag but the call's own request. */
  predicate Apart(s: Sys, t: nat)
    requires t < |s.tasks|
  {
    var k := s.tasks[t];
    !k.pc.Idle? ==>
      && (forall i :: 0 <= i < |s.backlog| && Owned(s.backlog[i], t) ==> Distinct(k.pc.id, s.backlog[i].id))
      && (!k.pc.Drawn? && k.slot.Some? ==> Distinct(k.pc.id, k.slot.value.id))
  }

  lemma ApartKept(s: Sys, m: Move, t: nat)
    requires Inv(s) && Enabled(s, m) && t < |s.tasks| && Apart(s, t)
    requires m.Draw? && m.t == t ==> TagFree(s, t)
    ensures |Next(s, m).tasks| == |s.tasks| && Apart(Next(s, m), t)
    ensures forall a <- Next(s, m).answers :: a in s.answers || a.task != t || a.origin == a.id
  {
    assert TaskOk(s.tasks[t], t, s.gen, s.backlog, s.handled);
    if m.Receive? && m.t == t {
      PackedCodeSurvives(s.tasks[t].slot.value.id % TAGS, s.tasks[t].slot.value.raw);
    } else if m.Finish? {
      assert forall i :: 0 <= i < |s.backlog| - 1 ==> s.backlog[1..][i] == s.backlog[i + 1];
    }
  }

  /** The call that drew `id` has taken no other request's reply, and while it lasts it cannot. */
  predicate CallSafe(s: Sys, t: nat, id: nat) {
    && t < |s.tasks| && id <= s.gen
    && (forall v :: 0 <= v < |s.tasks| && !s.tasks[v].pc.Idle? && s.tasks[v].pc.id == id ==> v == t && Apart(s, t))
    && (forall a <- s.answers :: a.id == id ==> a.origin == id)
  }

  lemma CallStaysSafe(s: Sys, m: Move, t: nat, id: nat)
    requires Inv(s) && Enabled(s, m) && CallSafe(s, t, id)
    ensures CallSafe(Next(s, m), t, id)
  {
    var u := Next(s, m);
    if !s.tasks[t].pc.Idle? && s.tasks[t].pc.id == id {
      ApartKept(s, m, t);
    }
  }

  lemma {:induction false} CallSafeForever(s: Sys, after: seq<Move>, t: nat, id: nat)
    requires Inv(s) && Run(s, after) && CallSafe(s, t, id)
    ensures CallSafe(After(s, after), t, id)
    decreases |after|
  {
    if after != [] {
      NextOk(s, after[0]);
      CallStaysSafe(s, after[0], t, id);
      CallSafeForever(Next(s, after[0]), after[1..], t, id);
    }
  }

  /** However the run goes on, the call that drew `id` takes no reply but its own. */
  predicate TakesOnlyItsOwn(s: Sys, after: seq<Move>, id: nat) {
    Run(s, after) ==> forall a <- After(s, after).answers :: a.id == id ==> a.origin == id
  }

  ghost predicate SafeHenceforth(s: Sys, id: nat) { forall after :: TakesOnlyItsOwn(s, after, id) }

  /** A call is safe from every old reply, however the run goes on, if and only if at its draw no request
      of its task still with the logger carries the tag drawn. */
  lemma CallIsSafeIff(n: nat, before: seq<Move>, t: nat, put: bool)
    requires Run(Boot(n), before) && Enabled(After(Boot(n), before), Draw(t, put))
    ensures var s := After(Boot(n), before);
            TagFree(s, t) <==> SafeHenceforth(Next(s, Draw(t, put)), s.gen + 1)
  {
    BootOk(n);
    RunOk(Boot(n), before);
    RoomAlways(Boot(n), before);
    var s := After(Boot(n), before);
    DrawOk(s, t, put);
    hide Run, After, Inv;
    if TagFree(s, t) {
      DrawIsSafe(s, t, put);
      SafeOnceDrawn(Next(s, Draw(t, put)), t, s.gen + 1);
    } else {
      CollisionFools(s, t, put);
    }
  }

  lemma SafeOnceDrawn(u: Sys, t: nat, id: nat)
    requires Inv(u) && CallSafe(u, t, id)
    ensures SafeHenceforth(u, id)
  {
    forall after ensures TakesOnlyItsOwn(u, after, id) {
      if Run(u, after) {
        CallSafeForever(u, after, t, id);
      }
    }
  }

  lemma CollisionFools(s: Sys, t: nat, put: bool)
    requires Inv(s) && Room(s) && Enabled(s, Draw(t, put)) && !TagFree(s, t)
    ensures !SafeHenceforth(Next(s, Draw(t, put)), s.gen + 1)
  {
    assert TaskOk(s.tasks[t], t, s.gen, s.backlog, s.handled);
    var j :| 0 <= j < |s.backlog| && Owned(s.backlog[j], t) && s.backlog[j].id % TAGS == (s.gen + 1) % TAGS;
    var u := Next(s, Draw(t, put));
    hide Run, After, Inv;
    var after := OldReplyIsTaken(u, t, j);
    assert Answer(t, u.gen, s.backlog[j].id, 0, 0) in After(u, after).answers;
    assert !TakesOnlyItsOwn(u, after, u.gen);
  }

  lemma DrawIsSafe(s: Sys, t: nat, put: bool)
    requires Inv(s) && Enabled(s, Draw(t, put)) && TagFree(s, t)
    ensures CallSafe(Next(s, Draw(t, put)), t, s.gen + 1)
  {
    ApartKept(s, Draw(t, put), t);
    forall v | 0 <= v < |s.tasks| && v != t && !s.tasks[v].pc.Idle? ensures s.tasks[v].pc.id <= s.gen {
      assert TaskOk(s.tasks[v], v, s.gen, s.backlog, s.handled);
    }
  }

  // ---- a call undisturbed ----

  lemma {:induction false} RunConcat(s: Sys, a: seq<Move>, b: seq<Move>)
    requires Run(s, a) && Run(After(s, a), b)
    ensures Run(s, a + b) && After(s, a + b) == After(After(s, a), b)
    decreases |a|
  {
    if a == [] {
      assert a + b == b;
    } else {
      assert (a + b)[1..] == a[1..] + b;
      RunConcat(Next(s, a[0]), a[1..], b);
    }
  }

  /** One move after a run. */
  lemma Then(s: Sys, moves: seq<Move>, m: Move)
    requires Run(s, moves) && Enabled(After(s, moves), m)
    ensures Run(s, moves + [m]) && After(s, moves + [m]) == Next(After(s, moves), m)
  {
    assert [m][1..] == [];
    assert Run(After(s, moves), [m]) && After(After(s, moves), [m]) == Next(After(s, moves), m);
    RunConcat(s, moves, [m]);
  }

  /** A call nobody comes between, whatever old reply its slot holds: its request is handled and answered, it
      takes just that answer, and everything else is as before. */
  lemma CallGetsItsReply(s: Sys, t: nat, put: bool, rc: int) returns (moves: seq<Move>)
    requires s.backlog == [] && !s.inHand && Enabled(s, Draw(t, put))
    ensures Run(s, moves)
    ensures var id := s.gen + 1;
            After(s, moves) == Sys(id, s.tasks[t := Task(Idle, None)], [], false, s.handled + [(id, rc)],
                                   s.answers + [Answer(t, id, id, rc, CodeOf(Pack(id % TAGS, rc)))])
  {
    var id := s.gen + 1;
    PackedCodeSurvives(id % TAGS, rc);
    moves := [];
    Then(s, moves, Draw(t, put));
    moves := moves + [Draw(t, put)];
    Then(s, moves, Clear(t));
    moves := moves + [Clear(t)];
    Then(s, moves, Send(t, true));
    moves := moves + [Send(t, true)];
    Then(s, moves, Take);
    moves := moves + [Take];
    Then(s, moves, Finish(rc));
    moves := moves + [Finish(rc)];
    Then(s, moves, Receive(t));
    moves := moves + [Receive(t)];
    assert After(s, moves).tasks == s.tasks[t := Task(Idle, None)];
  }

  // ---- a run that fools a call ----

  /** The queue never holds more than its four places. */
  predicate Room(s: Sys) { Queued(s) <= LOG_REQ_Q_DEPTH }

  lemma {:induction false} RoomAlways(s: Sys, moves: seq<Move>)
    requires Room(s) && Run(s, moves)
    ensures Room(After(s, moves))
    decreases |moves|
  {
    if moves != [] {
      RoomAlways(Next(s, moves[0]), moves[1..]);
    }
  }

  predicate SameCalls(s: Sys, u: Sys) {
    && u.gen == s.gen && |u.tasks| == |s.tasks|
    && forall v :: 0 <= v < |s.tasks| ==> u.tasks[v].pc == s.tasks[v].pc
  }

  /** The logger works off the first `j` requests and takes the next. */
  lemma {:induction false} WorkOff(s: Sys, j: nat) returns (moves: seq<Move>)
    requires j < |s.backlog|
    ensures Run(s, moves)
    ensures var u := After(s, moves); u.backlog == s.backlog[j..] && u.inHand && SameCalls(s, u)
  {
    if j == 0 {
      moves := [];
    } else {
      moves := WorkOff(s, j - 1);
      var u := After(s, moves);
      Then(s, moves, Finish(0));
      moves := moves + [Finish(0)];
      assert u.backlog[1..] == s.backlog[j..];
    }
    if !After(s, moves).inHand {
      Then(s, moves, Take);
      moves := moves + [Take];
    }
  }

  /** A call that has just drawn a tag one of its task's old requests carries: the old request is
      answered behind the call's clear, and the call takes that answer for its own. */
  lemma OldReplyIsTaken(s: Sys, t: nat, j: nat) returns (moves: seq<Move>)
    requires Room(s) && t < |s.tasks| && s.tasks[t].pc.Drawn? && s.tasks[t].pc.id == s.gen
    requires j < |s.backlog| && s.backlog[j].owner == Some(t) && s.backlog[j].id % TAGS == s.gen % TAGS
    ensures Run(s, moves)
    ensures After(s, moves).answers != []
    ensures var got := After(s, moves).answers; got[|got| - 1] == Answer(t, s.gen, s.backlog[j].id, 0, 0)
  {
    var first := s.backlog[j].id;
    moves := WorkOff(s, j);
    Then(s, moves, Clear(t));
    moves := moves + [Clear(t)];
    Then(s, moves, Finish(0));
    moves := moves + [Finish(0)];
    var u := After(s, moves);
    assert u.backlog == s.backlog[j + 1..];
    assert u.tasks[t] == Task(Cleared(s.gen, s.tasks[t].pc.put), Some(Reply(first, 0, Pack(first % TAGS, 0))));
    if u.backlog != [] {
      Then(s, moves, Take);
      moves := moves + [Take];
    }
    Then(s, moves, Send(t, true));
    moves := moves + [Send(t, true)];
    PackedCodeSurvives(first % TAGS, 0);
    Then(s, moves, Receive(t));
    moves := moves + [Receive(t)];
  }

  // ---- exactly 256 generations apart ----

  /** `k` calls of another task that find the queue full: each draws a generation and sends nothing. */
  function Churn(t: nat, k: nat): seq<Move> {
    if k == 0 then [] else Churn(t, k - 1) + [Draw(t, false), Clear(t), Send(t, false)]
  }

  lemma {:induction false} ChurnDraws(s: Sys, t: nat, k: nat)
    requires t < |s.tasks| && s.tasks[t] == Task(Idle, None) && Queued(s) == LOG_REQ_Q_DEPTH
    ensures Run(s, Churn(t, k)) && After(s, Churn(t, k)) == s.(gen := s.gen + k)
    decreases k
  {
    if k > 0 {
      ChurnDraws(s, t, k - 1);
      var most := Churn(t, k - 1);
      Then(s, most, Draw(t, false));
      Then(s, most + [Draw(t, false)], Clear(t));
      Then(s, most + [Draw(t, false)] + [Clear(t)], Send(t, false));
      assert Churn(t, k) == most + [Draw(t, false)] + [Clear(t)] + [Send(t, false)];
      assert After(s, Churn(t, k)).tasks == s.tasks;
    }
  }

  const NOTE := Entry(None, 0, false)

  /** A call that times out, and three fire-and-forget requests behind it: the queue is full. */
  const FULL: seq<Move> := [Draw(0, false), Clear(0), Send(0, true), GiveUp(0), Forget(NOTE), Forget(NOTE), Forget(NOTE)]

  lemma FillsTheQueue()
    ensures Run(Boot(2), FULL)
    ensures var u := After(Boot(2), FULL);
            u.gen == 1 && u.tasks == Boot(2).tasks && u.backlog == [Entry(Some(0), 1, false), NOTE, NOTE, NOTE] && !u.inHand
  {
    var s, a := Boot(2), FULL;
    Then(s, [], a[0]);
    Then(s, [] + [a[0]], a[1]);
    Then(s, [] + [a[0]] + [a[1]], a[2]);
    Then(s, [] + [a[0]] + [a[1]] + [a[2]], a[3]);
    Then(s, [] + [a[0]] + [a[1]] + [a[2]] + [a[3]], a[4]);
    Then(s, [] + [a[0]] + [a[1]] + [a[2]] + [a[3]] + [a[4]], a[5]);
    Then(s, [] + [a[0]] + [a[1]] + [a[2]] + [a[3]] + [a[4]] + [a[5]], a[6]);
    assert FULL == [] + [a[0]] + [a[1]] + [a[2]] + [a[3]] + [a[4]] + [a[5]] + [a[6]];
  }

  /** 255 generations later the next draw carries the tag of the call that timed out. */
  lemma OneRoundLater() returns (moves: seq<Move>)
    ensures Run(Boot(2), moves)
    ensures var u := After(Boot(2), moves);
            u.gen == 256 && u.tasks == Boot(2).tasks && u.backlog == [Entry(Some(0), 1, false), NOTE, NOTE, NOTE] && !u.inHand
  {
    FillsTheQueue();
    hide Run, After, Churn;
    ChurnDraws(After(Boot(2), FULL), 1, 255);
    RunConcat(Boot(2), FULL, Churn(1, 255));
    moves := FULL + Churn(1, 255);
  }

  /** The bound of 256 cannot be improved: a call that timed out behind a full queue, 255 generations
      drawn by calls that found no room, and a second call then takes the first one's late reply. */
  lemma TheTagIsFooledAt256() returns (moves: seq<Move>)
    ensures Run(Boot(2), moves)
    ensures exists a <- After(Boot(2), moves).answers :: a.id - a.origin == TAGS
  {
    hide Run, After;
    moves := OneRoundLater();
    Then(Boot(2), moves, Draw(0, false));
    moves := moves + [Draw(0, false)];
    var late := OldReplyIsTaken(After(Boot(2), moves), 0, 0);
    RunConcat(Boot(2), moves, late);
    moves := moves + late;
    var got := After(Boot(2), moves).answers;
    assert got[|got| - 1] == Answer(0, 257, 1, 0, 0);
  }
}
