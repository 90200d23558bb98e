/** What every run of the session protocol keeps, and what follows. */
module SessionSafety {
  import opened Prelude
  import opened SessionPolicy
  import opened SessionMirror
  import opened SessionRun

  // ---- the invariant ----

  /** OPENs taken off the queue and already finished with. */
  function Settled(s: Sys): int {
    s.g.seen - if s.g.busy.Some? && s.g.busy.value.OpenReq? then 1 else 0
  }

  predicate Counts(s: Sys) {
    && s.g.opener == s.g.atOpen <= Settled(s)
    && Settled(s) >= 0
    && Numbered(Backlog(s), Settled(s))
    && s.m.sent == Settled(s) + Opens(Backlog(s))
  }

  /** The pipeline's latest word to the logger was an OPEN that got in, and the logger's latest
      completed open is that one. */
  predicate Current(s: Sys) { s.m.open && s.m.sendOk && s.g.atOpen == s.m.sent }

  predicate Watch(s: Sys) {
    && (s.m.open && s.m.sendOk ==> TrailFree(Backlog(s)))
    && (s.m.confirmed ==> Current(s))
    && (Current(s) && s.g.open.None? ==> s.g.foreignClosed)
    && (s.m.pend.kind != PendNone ==> s.m.open)
    && (s.g.open.Some? ==> !s.g.foreignClosed)
  }

  predicate AtPc(s: Sys) {
    match s.pc
    case Idle => true
    case PostOpen(_, _) => !s.m.open
    case Loaded(lopen) => s.m.open && (!lopen && s.m.confirmed ==> s.g.open.None?)
    case Judged(v) =>
      && s.m.open
      && s.m.pend.kind == PendNone
      && (v == LiveConfirm ==> Current(s))
      && (v == LiveDrop ==> s.m.confirmed && s.g.open.None?)
  }

  predicate Venues(s: Sys) {
    !s.lost ==> Fits(s.g.open, Backlog(s), s.m) && forall x <- s.swallowed :: x.0 == x.1
  }

  predicate Inv(s: Sys) { Counts(s) && Watch(s) && AtPc(s) && Venues(s) }

  // ---- no OPEN pending when the counts agree ----

  lemma {:induction false} NothingPending(p: seq<Req>)
    requires TrailFree(p) && Opens(p) == 0
    ensures CloseReq(true) !in p
    decreases |p|
  {
    if p != [] {
      NothingPending(p[1..]);
    }
  }

  // ---- the pipeline's steps ----

  lemma PendingPost(s: Sys, r: Req)
    ensures Backlog(s.(q := s.q + [r])) == Backlog(s) + [r]
  {
  }

  /** A local change of the mirror that sends nothing and opens nothing. */
  lemma LocalKeeps(s: Sys, m: Mirror, pc: Pc)
    requires Inv(s) && AtPc(s.(m := m, pc := pc))
    requires m.sent == s.m.sent && m.sendOk == s.m.sendOk && (m.pend.kind != PendNone ==> m.open)
    requires m.open == s.m.open && m.named.venue == s.m.named.venue
    requires m.confirmed ==> s.m.confirmed || Current(s)
    ensures Inv(s.(m := m, pc := pc))
  {
    var t := s.(m := m, pc := pc);
    assert Backlog(t) == Backlog(s);
    if !s.lost {
      FitsSame(s.g.open, Backlog(s), s.m, m);
    }
  }

  lemma DropKeeps(s: Sys)
    requires Inv(s) && s.m.confirmed && s.g.open.None?
    ensures Inv(s.(m := DropM(s.m), pc := Idle))
  {
    assert Backlog(s.(m := DropM(s.m), pc := Idle)) == Backlog(s);
    FitsClosed(Backlog(s), DropM(s.m));
  }

  lemma AskingKeeps(s: Sys, to: Label, relabel: bool, now: int, ok: bool)
    requires Inv(s)
    requires s.m.open ==> s.m.named.venue == to.venue && s.m.pend.kind == PendNone
    ensures Inv(Asking(s, to, relabel, now, ok))
  {
    var t := Asking(s, to, relabel, now, ok);
    var p, r := Backlog(s), OpenRequest(s.m, to);
    if ok {
      PendingPost(s, r);
      OpensSnoc(p, r);
      NumberedSnoc(p, Settled(s), r);
      TrailSnoc(p, r);
      assert Backlog(t) == p + [r];
      if !s.lost {
        FitsSnoc(s.g.open, p, s.m, r, t.m);
      }
    } else {
      assert Backlog(t) == p;
      if !s.lost {
        FitsSame(s.g.open, p, s.m, t.m);
      }
    }
  }

  lemma ShuttingKeeps(s: Sys, act: Action, to: Label, relabel: bool, now: int, ok: bool)
    requires Inv(s) && s.m.open && (act == ActClose || act == ActReopen)
    requires relabel ==> act == ActReopen
    ensures Inv(Shutting(s, act, to, relabel, now, ok))
  {
    var t := Shutting(s, act, to, relabel, now, ok);
    var p, r := Backlog(s), CloseReq(true);
    if ok {
      PendingPost(s, r);
      OpensSnoc(p, r);
      NumberedSnoc(p, Settled(s), r);
      assert Backlog(t) == p + [r];
      if !s.lost {
        FitsSnoc(s.g.open, p, s.m, r, t.m);
      }
    } else {
      assert Backlog(t) == p;
      if !s.lost {
        FitsSame(s.g.open, p, s.m, t.m);
      }
    }
  }

  lemma DeliverKeeps(s: Sys, h: Happening, now: int, ok: bool)
    requires Inv(s) && s.pc.Idle?
    ensures Inv(Delivered(s, h, now, ok))
  {
    var relabel := h.Resumed?;
    match IntentOf(s.m, h) {
      case Stay(m) => LocalKeeps(s, if relabel then RelabelM(m, h.to) else m, Idle);
      case Ask(to) => AskingKeeps(s, to, relabel, now, ok);
      case Shut(act, to) => ShuttingKeeps(s, act, to, relabel, now, ok);
    }
  }

  lemma DecideKeeps(s: Sys, now: int, ok: bool)
    requires Inv(s) && s.pc.Loaded?
    ensures Inv(Decided(s, now, ok))
  {
    if s.m.pend.kind == PendNone {
      LocalKeeps(s, s.m, Judged(VerdictM(s.m, now, s.pc.lopen, s.g.atOpen)));
    } else if !s.pc.lopen && s.m.confirmed {
      DropKeeps(s);
    } else if PendDue(s.m.pend.kind, now, s.m.lastTry, RETRY_US) {
      ShuttingKeeps(s, PendAct(s.m.pend.kind), s.m.pend.target, false, now, ok);
    } else {
      LocalKeeps(s, s.m, Idle);
    }
  }

  lemma ActOnKeeps(s: Sys, now: int, ok: bool)
    requires Inv(s) && s.pc.Judged?
    ensures Inv(Pursue(s, ActOnVerdictM(s.m, s.pc.v), false, now, ok))
  {
    match s.pc.v {
      case LiveDrop => DropKeeps(s);
      case LiveConfirm => LocalKeeps(s, s.m.(confirmed := true), Idle);
      case LiveRetry => AskingKeeps(s, s.m.named, false, now, ok);
      case LiveNone => LocalKeeps(s, s.m, Idle);
    }
  }

  // ---- everyone else's ----

  lemma OtherKeeps(s: Sys, r: Req)
    requires Inv(s) && !r.OpenReq? && r != CloseReq(true)
    ensures Inv(s.(q := s.q + [r]))
  {
    var p := Backlog(s);
    PendingPost(s, r);
    OpensSnoc(p, r);
    NumberedSnoc(p, Settled(s), r);
    if TrailFree(p) {
      TrailSnoc(p, r);
    }
    if !s.lost {
      FitsSnoc(s.g.open, p, s.m, r, s.m);
    }
  }

  /** Losing its first request, unless that is a CLOSE of the pipeline's, leaves a queue fitting. */
  lemma FitsWithoutHead(lv: Option<U16>, p: seq<Req>, m: Mirror)
    requires Fits(lv, p, m) && p != [] && p[0] != CloseReq(true)
    ensures Fits(lv, p[1..], m)
  {
  }

  /** Dropped at the bound: the head of the queue is gone, counted if it was an OPEN. */
  lemma DroppedKeeps(s: Sys)
    requires Inv(s) && s.g.busy.None? && s.q != [] && s.g.drained >= DRAIN_MAX
    ensures Inv(Taken(s))
  {
    var t := Taken(s);
    assert Backlog(s) == s.q;
    assert Backlog(t) == s.q[1..];
    if !s.lost && s.q[0] != CloseReq(true) {
      FitsWithoutHead(s.g.open, s.q, s.m);
    }
    hide Fits;
  }

  lemma TakeKeeps(s: Sys)
    requires Inv(s) && s.g.busy.None? && s.q != [] && s.g.drained < DRAIN_MAX
    ensures Inv(Taken(s))
  {
    var t, r := Taken(s), s.q[0];
    assert Backlog(s) == s.q;
    assert [r] + s.q[1..] == s.q;
    assert Backlog(t) == s.q;
  }

  lemma FinishCounts(s: Sys, opens: bool)
    requires Inv(s) && s.g.busy.Some?
    ensures Counts(Finished(s, opens))
  {
    hide Watch, AtPc, Venues;
    var t, p := Finished(s, opens), Backlog(s);
    assert p[0] == s.g.busy.value && p[1..] == s.q;
    assert Backlog(t) == s.q;
  }

  lemma FinishVenues(s: Sys, opens: bool)
    requires Inv(s) && s.g.busy.Some?
    ensures Venues(Finished(s, opens))
  {
    hide Counts, Watch, AtPc;
    var t, p := Finished(s, opens), Backlog(s);
    assert p[0] == s.g.busy.value && p[1..] == s.q;
    assert Backlog(t) == s.q;
  }

  lemma FinishWatch(s: Sys, opens: bool)
    requires Inv(s) && s.g.busy.Some?
    ensures Watch(Finished(s, opens)) && AtPc(Finished(s, opens))
  {
    var t, p := Finished(s, opens), Backlog(s);
    assert p[0] == s.g.busy.value && p[1..] == s.q;
    assert Backlog(t) == s.q;
    if Current(s) {
      NothingPending(p);
    }
  }

  lemma NextKeeps(s: Sys, a: Move)
    requires Inv(s) && Enabled(s, a)
    ensures Inv(Next(s, a))
  {
    match a {
      case Deliver(h, now, ok) => DeliverKeeps(s, h, now, ok);
      case SendOpen(now, ok) => AskingKeeps(s, s.pc.to, s.pc.relabel, now, ok);
      case LoadOpen => LocalKeeps(s, s.m, Loaded(s.g.open.Some?));
      case Decide(now, ok) => DecideKeeps(s, now, ok);
      case ActOn(now, ok) => ActOnKeeps(s, now, ok);
      case Other(r) => OtherKeeps(s, r);
      case Take =>
        if s.g.drained < DRAIN_MAX {
          TakeKeeps(s);
        } else {
          DroppedKeeps(s);
        }
      case Finish(opens) =>
        FinishCounts(s, opens);
        FinishVenues(s, opens);
        FinishWatch(s, opens);
      case DrainEnds =>
        assert Backlog(s.(g := s.g.(drained := 0))) == Backlog(s);
    }
  }

  lemma {:induction false} RunKeeps(s: Sys, acts: seq<Move>)
    requires Inv(s) && Run(s, acts)
    ensures Inv(After(s, acts))
    decreases |acts|
  {
    if acts != [] {
      NextKeeps(s, acts[0]);
      RunKeeps(Next(s, acts[0]), acts[1..]);
    }
  }

  // ---- the theorems ----

  /** Whatever sends fail, rotations pend or sessions are closed by others: unless the drain bound has
      dropped a CLOSE of the pipeline's with something behind it that does not fit the open session, every
      OPEN the logger ignored named the session then open. */
  lemma SwallowedOpensNameTheOpenSession(acts: seq<Move>)
    requires Run(BOOT, acts)
    ensures var s := After(BOOT, acts);
            !s.lost ==> forall x <- s.swallowed :: x.0 == x.1
  {
    RunKeeps(BOOT, acts);
  }

  /** Once the queue has been worked off, the logger is closed or holds the mirror's own venue; a
      mirror that says closed is then right. */
  lemma QuietLoggerMatchesTheMirror(acts: seq<Move>)
    requires Run(BOOT, acts)
    requires var s := After(BOOT, acts); !s.lost && s.q == [] && s.g.busy.None?
    ensures var s := After(BOOT, acts);
            && (s.g.open.Some? ==> s.m.open && s.g.open.value == s.m.named.venue)
            && s.m.sent == s.g.seen
  {
    RunKeeps(BOOT, acts);
    assert Backlog(After(BOOT, acts)) == [];
  }

  /** In any run a confirmed mirror was confirmed of the right session: the latest open the logger
      completed is the latest OPEN the pipeline enqueued, nothing is queued behind it, and it is still
      open exactly if no other task's CLOSE was handled after it. */
  lemma ConfirmedMeansTheLatestOpen(acts: seq<Move>)
    requires Run(BOOT, acts)
    ensures var s := After(BOOT, acts);
            s.m.confirmed ==>
              && s.g.opener == s.m.sent
              && Opens(Backlog(s)) == 0
              && (s.g.open.Some? <==> !s.g.foreignClosed)
  {
    RunKeeps(BOOT, acts);
  }

  /** The mirror goes from open to closed with nothing sent. */
  predicate Drops(s: Sys, a: Move)
    requires Enabled(s, a)
  {
    s.m.open && !Next(s, a).m.open && Next(s, a).q == s.q
  }

  lemma DeliveredNeverDrops(s: Sys, h: Happening, now: int, ok: bool)
    requires s.m.open && Delivered(s, h, now, ok).q == s.q
    ensures Delivered(s, h, now, ok).m.open
  {
    match IntentOf(s.m, h) {
      case Stay(_) =>
      case Ask(_) =>
      case Shut(act, to) => assert ok ==> |s.q + [CloseReq(true)]| > |s.q|;
    }
  }

  lemma DecidedDrops(s: Sys, now: int, ok: bool)
    requires Inv(s) && s.pc.Loaded? && !Decided(s, now, ok).m.open && Decided(s, now, ok).q == s.q
    ensures s.m.confirmed && s.g.open.None?
  {
    if s.m.pend.kind != PendNone {
      assert ok ==> |s.q + [CloseReq(true)]| > |s.q|;
    }
  }

  /** In any run, the mirror is dropped only when another task's CLOSE has ended the very session that
      had been confirmed. */
  lemma DropsOnlyAfterAForeignClose(acts: seq<Move>, a: Move)
    requires Run(BOOT, acts) && Enabled(After(BOOT, acts), a) && Drops(After(BOOT, acts), a)
    ensures var s := After(BOOT, acts);
            s.m.confirmed && s.g.open.None? && s.g.foreignClosed && s.g.opener == s.m.sent
  {
    RunKeeps(BOOT, acts);
    DropStep(After(BOOT, acts), a);
  }

  lemma DropStep(s: Sys, a: Move)
    requires Inv(s) && Enabled(s, a) && Drops(s, a)
    ensures s.m.confirmed && s.g.open.None? && s.g.foreignClosed && s.g.opener == s.m.sent
  {
    match a {
      case Deliver(h, now, ok) => DeliveredNeverDrops(s, h, now, ok);
      case Decide(now, ok) => DecidedDrops(s, now, ok);
      case _ =>
    }
  }

  // ---- a lost venue ----

  /** A CLOSE of the pipeline's stands `k` places down the backlog with no OPEN behind it. */
  predicate CloseWaits(s: Sys, k: nat) {
    var p := Backlog(s);
    k < |p| && p[k] == CloseReq(true) && forall j :: k < j < |p| ==> !p[j].OpenReq?
  }

  predicate ClosedForGood(s: Sys) { s.g.open.None? && forall r <- Backlog(s) :: !r.OpenReq? }

  /** No CLOSE of the pipeline's is taken off the queue past the drain bound. */
  predicate NoCloseDropped(s: Sys, acts: seq<Move>)
    requires Run(s, acts)
    decreases |acts|
  {
    acts == [] ||
    ((acts[0].Take? && s.q[0] == CloseReq(true) ==> s.g.drained < DRAIN_MAX) && NoCloseDropped(Next(s, acts[0]), acts[1..]))
  }

  predicate OpensCounted(s: Sys, t: Sys) {
    && t.m.sent >= s.m.sent
    && (t.m.sent == s.m.sent ==> forall j :: |Backlog(s)| <= j < |Backlog(t)| ==> !Backlog(t)[j].OpenReq?)
  }

  lemma PursueCounts(s: Sys, i: Intent, relabel: bool, now: int, ok: bool)
    requires i.Shut? ==> i.act == ActClose || i.act == ActReopen
    requires i.Stay? ==> i.m.sent == s.m.sent
    ensures OpensCounted(s, Pursue(s, i, relabel, now, ok))
  {
    hide CloseOutcome;
  }

  /** Each OPEN a step adds to the queue is counted. */
  lemma AppendedOpensCount(s: Sys, a: Move)
    requires Enabled(s, a) && !a.Take? && !a.Finish? && !a.DrainEnds?
    ensures OpensCounted(s, Next(s, a))
  {
    hide Pursue, VerdictM, Fits;
    match a {
      case Deliver(h, now, ok) =>
        PursueCounts(s, IntentOf(s.m, h), h.Resumed?, now, ok);
      case Decide(now, ok) =>
        if s.m.pend.kind != PendNone {
          PursueCounts(s, PendingPeriodicM(s.m, now, s.pc.lopen), false, now, ok);
        }
      case ActOn(now, ok) => PursueCounts(s, ActOnVerdictM(s.m, s.pc.v), false, now, ok);
      case _ =>
    }
  }

  lemma LoggerKeepsSent(s: Sys, a: Move)
    requires Enabled(s, a) && (a.Take? || a.Finish? || a.DrainEnds?)
    ensures Next(s, a).m.sent == s.m.sent
  {
  }

  lemma CloseTake(s: Sys, k: nat)
    requires CloseWaits(s, k) && Enabled(s, Take)
    requires s.q[0] == CloseReq(true) ==> s.g.drained < DRAIN_MAX
    ensures CloseWaits(Taken(s), k) || (k > 0 && CloseWaits(Taken(s), k - 1))
  {
    hide Fits;
    assert [s.q[0]] + s.q[1..] == s.q && Backlog(s) == s.q;
    if s.g.drained >= DRAIN_MAX {
      assert Backlog(Taken(s)) == s.q[1..];
    } else {
      assert Backlog(Taken(s)) == s.q;
    }
  }

  lemma CloseFinish(s: Sys, opens: bool, k: nat)
    requires CloseWaits(s, k) && Enabled(s, Finish(opens))
    ensures var t := Finished(s, opens); if k > 0 then CloseWaits(t, k - 1) else ClosedForGood(t)
  {
    var p := Backlog(s);
    assert p[0] == s.g.busy.value && p[1..] == s.q && Backlog(Finished(s, opens)) == s.q;
  }

  lemma CloseAppend(s: Sys, t: Sys, k: nat)
    requires CloseWaits(s, k) && Backlog(s) <= Backlog(t)
    requires forall j :: |Backlog(s)| <= j < |Backlog(t)| ==> !Backlog(t)[j].OpenReq?
    ensures CloseWaits(t, k)
  {
    hide Backlog;
    assert forall j :: 0 <= j < |Backlog(s)| ==> Backlog(t)[j] == Backlog(s)[j];
  }

  lemma CloseStep(s: Sys, a: Move, k: nat)
    requires CloseWaits(s, k) && Enabled(s, a) && Next(s, a).m.sent == s.m.sent
    requires a.Take? && s.q[0] == CloseReq(true) ==> s.g.drained < DRAIN_MAX
    ensures var t := Next(s, a); CloseWaits(t, k) || (k > 0 && CloseWaits(t, k - 1)) || ClosedForGood(t)
  {
    if a.Take? {
      CloseTake(s, k);
    } else if a.Finish? {
      CloseFinish(s, a.opens, k);
    } else if !a.DrainEnds? {
      OthersOnlyAppend(s, a);
      AppendedOpensCount(s, a);
      CloseAppend(s, Next(s, a), k);
    }
  }

  lemma ClosedStep(s: Sys, a: Move)
    requires ClosedForGood(s) && Enabled(s, a) && Next(s, a).m.sent == s.m.sent
    ensures ClosedForGood(Next(s, a))
  {
    var t, p := Next(s, a), Backlog(s);
    if a.Take? {
      assert [s.q[0]] + s.q[1..] == s.q;
      assert forall r <- Backlog(t) :: r in p;
    } else if a.Finish? {
      assert p[0] == s.g.busy.value && p[1..] == s.q && Backlog(t) == s.q;
      assert p[0] in p;
    } else if !a.DrainEnds? {
      OthersOnlyAppend(s, a);
      AppendedOpensCount(s, a);
      hide Next, Backlog, Enabled;
      forall r <- Backlog(t) ensures !r.OpenReq? {
        var j :| 0 <= j < |Backlog(t)| && Backlog(t)[j] == r;
        if j < |p| {
          assert p[j] in p;
        }
      }
    }
  }

  lemma {:induction false} SentOnlyGrows(s: Sys, acts: seq<Move>)
    requires Run(s, acts)
    ensures After(s, acts).m.sent >= s.m.sent
    decreases |acts|
  {
    if acts != [] {
      if acts[0].Take? || acts[0].Finish? || acts[0].DrainEnds? {
        LoggerKeepsSent(s, acts[0]);
      } else {
        AppendedOpensCount(s, acts[0]);
      }
      SentOnlyGrows(Next(s, acts[0]), acts[1..]);
    }
  }

  lemma {:induction false} CloseAlong(s: Sys, acts: seq<Move>, k: nat)
    requires (CloseWaits(s, k) || ClosedForGood(s)) && Run(s, acts) && NoCloseDropped(s, acts)
    requires After(s, acts).m.sent == s.m.sent
    ensures var t := After(s, acts); (exists j: nat :: CloseWaits(t, j)) || ClosedForGood(t)
    decreases |acts|
  {
    if acts != [] {
      var a, t := acts[0], Next(s, acts[0]);
      SentOnlyGrows(s, [a]);
      SentOnlyGrows(t, acts[1..]);
      assert [a][1..] == [] && After(s, [a]) == t;
      hide Next, Enabled, CloseWaits, ClosedForGood;
      if ClosedForGood(s) {
        ClosedStep(s, a);
        CloseAlong(t, acts[1..], k);
      } else {
        CloseStep(s, a, k);
        CloseAlong(t, acts[1..], if CloseWaits(t, k) || k == 0 then k else k - 1);
      }
    }
  }

  /** A lost venue ends the session at the logger: once its CLOSE got in, then in every run in which that
      is not dropped at the drain bound and no later OPEN gets in, the CLOSE is still queued or the logger
      is closed; with the queue worked off it is closed. */
  lemma LostVenueClosesTheLogger(s: Sys, now: int, acts: seq<Move>)
    requires Enabled(s, Deliver(VenueGone, now, true)) && s.m.open
    requires var t := Next(s, Deliver(VenueGone, now, true)); Run(t, acts) && NoCloseDropped(t, acts)
    ensures var t := Next(s, Deliver(VenueGone, now, true));
            var u := After(t, acts);
            && t.q == s.q + [CloseReq(true)] && !t.m.open && t.m.pend.kind == PendNone
            && (u.m.sent == s.m.sent ==>
                  && ((exists j: nat :: CloseWaits(u, j)) || ClosedForGood(u))
                  && (u.q == [] && u.g.busy.None? ==> u.g.open.None?))
  {
    var t := Next(s, Deliver(VenueGone, now, true));
    PendingPost(s, CloseReq(true));
    assert CloseWaits(t, |Backlog(s)|);
    if After(t, acts).m.sent == s.m.sent {
      CloseAlong(t, acts, |Backlog(s)|);
    }
  }

  // ---- the drain bound ----

  /** The OPEN numbered `n` for venue `w` has `k` requests before it, none of them a CLOSE, while the
      session of venue `v` is open; and the drain reaches it before its bound. */
  predicate Doomed(s: Sys, k: nat, w: U16, n: nat, v: U16) {
    var p := Backlog(s);
    && k < |p| && p[k].OpenReq? && p[k].venue == w && p[k].n == n
    && (forall j :: 0 <= j < k ==> !p[j].CloseReq?)
    && s.g.open == Some(v)
    && s.g.drained + k < DRAIN_MAX + (if s.g.busy.Some? then 1 else 0)
  }

  predicate SwallowedIs(s: Sys, w: U16, v: U16) { (w, v) in s.swallowed }

  /** Nobody but the logger touches its words or takes a request off the queue. */
  lemma PursueAppends(s: Sys, i: Intent, relabel: bool, now: int, ok: bool)
    requires i.Shut? ==> i.act == ActClose || i.act == ActReopen
    ensures Pursue(s, i, relabel, now, ok).g == s.g && s.q <= Pursue(s, i, relabel, now, ok).q
  {
    hide RelabelM, OpenM, CloseActM, CloseOutcome;
  }

  lemma OthersOnlyAppend(s: Sys, a: Move)
    requires Enabled(s, a) && !a.Take? && !a.Finish? && !a.DrainEnds?
    ensures Next(s, a).g == s.g && Backlog(s) <= Backlog(Next(s, a))
  {
    hide RelabelM, OpenM, CloseActM, CloseOutcome, VerdictM, Pursue;
    match a {
      case Deliver(h, now, ok) => PursueAppends(s, IntentOf(s.m, h), h.Resumed?, now, ok);
      case Decide(now, ok) =>
        if s.m.pend.kind != PendNone {
          PursueAppends(s, PendingPeriodicM(s.m, now, s.pc.lopen), false, now, ok);
        }
      case ActOn(now, ok) => PursueAppends(s, ActOnVerdictM(s.m, s.pc.v), false, now, ok);
      case _ =>
    }
  }

  lemma DoomAppend(s: Sys, t: Sys, k: nat, w: U16, n: nat, v: U16)
    requires Doomed(s, k, w, n, v) && t.g == s.g && Backlog(s) <= Backlog(t)
    ensures Doomed(t, k, w, n, v)
  {
    hide Backlog;
    assert forall j :: 0 <= j <= k ==> Backlog(t)[j] == Backlog(s)[j];
  }

  lemma DoomTake(s: Sys, k: nat, w: U16, n: nat, v: U16)
    requires Doomed(s, k, w, n, v) && Enabled(s, Take)
    ensures Doomed(Taken(s), k, w, n, v)
  {
    assert [s.q[0]] + s.q[1..] == s.q;
    assert Backlog(s) == s.q && Backlog(Taken(s)) == s.q;
  }

  lemma DoomFinish(s: Sys, opens: bool, k: nat, w: U16, n: nat, v: U16)
    requires Doomed(s, k, w, n, v) && Enabled(s, Finish(opens))
    ensures var t := Finished(s, opens); if k > 0 then Doomed(t, k - 1, w, n, v) else SwallowedIs(t, w, v)
  {
    var t := Finished(s, opens);
    var p := Backlog(s);
    assert p[0] == s.g.busy.value && p[1..] == s.q && Backlog(t) == s.q;
    assert k > 0 ==> !p[0].CloseReq?;
    if k == 0 {
      assert (w, v) == t.swallowed[|s.swallowed|];
    }
  }

  /** What anyone does leaves such an OPEN where it is, moves it one place ahead, or ignores it. */
  lemma DoomStep(s: Sys, a: Move, k: nat, w: U16, n: nat, v: U16)
    requires Doomed(s, k, w, n, v) && Enabled(s, a)
    ensures var t := Next(s, a); Doomed(t, k, w, n, v) || (k > 0 && Doomed(t, k - 1, w, n, v)) || SwallowedIs(t, w, v)
  {
    if a.Take? {
      DoomTake(s, k, w, n, v);
    } else if a.Finish? {
      DoomFinish(s, a.opens, k, w, n, v);
    } else if !a.DrainEnds? {
      OthersOnlyAppend(s, a);
      DoomAppend(s, Next(s, a), k, w, n, v);
    }
  }

  lemma SwallowedStays(s: Sys, a: Move, w: U16, v: U16)
    requires SwallowedIs(s, w, v) && Enabled(s, a)
    ensures SwallowedIs(Next(s, a), w, v)
  {
  }

  lemma {:induction false} DoomAlong(s: Sys, acts: seq<Move>, k: nat, w: U16, n: nat, v: U16)
    requires (Doomed(s, k, w, n, v) || SwallowedIs(s, w, v)) && Run(s, acts)
    ensures var t := After(s, acts); (exists j: nat :: Doomed(t, j, w, n, v)) || SwallowedIs(t, w, v)
    decreases |acts|
  {
    if acts != [] {
      var t := Next(s, acts[0]);
      if SwallowedIs(s, w, v) {
        SwallowedStays(s, acts[0], w, v);
        DoomAlong(t, acts[1..], k, w, n, v);
      } else {
        DoomStep(s, acts[0], k, w, n, v);
        DoomAlong(t, acts[1..], if Doomed(t, k, w, n, v) || k == 0 then k else k - 1, w, n, v);
      }
    }
  }

  /** Once the bound has dropped a CLOSE under the session of venue `v`, an OPEN for `w` queued behind it
      with no other CLOSE between can only wait or be ignored under that session, whatever anyone does:
      wrongly exactly if `w` is another venue. (The queue's four places are fewer than the bound.) */
  lemma DroppedCloseSwallows(s: Sys, acts: seq<Move>, i: nat)
    requires Enabled(s, Take) && s.g.drained >= DRAIN_MAX && s.q[0].CloseReq? && s.g.open.Some?
    requires 0 < i < |s.q| <= LOG_REQ_Q_DEPTH && s.q[i].OpenReq? && forall j :: 0 < j < i ==> !s.q[j].CloseReq?
    requires Run(Next(s, Take), acts)
    ensures var t, r, v := After(Next(s, Take), acts), s.q[i], s.g.open.value;
            (exists j: nat :: Doomed(t, j, r.venue, r.n, v)) || SwallowedIs(t, r.venue, v)
  {
    var u := Next(s, Take);
    assert Backlog(u) == s.q[1..];
    assert Doomed(u, i - 1, s.q[i].venue, s.q[i].n, s.g.open.value);
    DoomAlong(u, acts, i - 1, s.q[i].venue, s.q[i].n, s.g.open.value);
  }

  /** The bound can cost the pipeline its CLOSE. Seven requests of other tasks follow an OPEN into
      one drain; a rotation's CLOSE is then the ninth and is dropped, and its OPEN for another venue
      is swallowed by the session that should have been closed. */
  function Crowd(k: nat): seq<Move> {
    if k == 0 then [] else [Other(OtherReq), Take, Finish(true)] + Crowd(k - 1)
  }

  lemma {:induction false} RunConcat(s: Sys, a: seq<Move>, b: seq<Move>)
    requires Run(s, a) && Run(After(s, a), b)
    ensures Run(s, a + b) && After(s, a + b) == After(After(s, a), b)
    decreases |a|
  {
    if a == [] {
      assert a + b == b;
    } else {
      assert (a + b)[1..] == a[1..] + b;
      RunConcat(Next(s, a[0]), a[1..], b);
    }
  }

  lemma Triple(s: Sys, a: Move, b: Move, c: Move)
    requires Enabled(s, a) && Enabled(Next(s, a), b) && Enabled(Next(Next(s, a), b), c)
    ensures Run(s, [a, b, c]) && After(s, [a, b, c]) == Next(Next(Next(s, a), b), c)
  {
    var s1 := Next(s, a);
    var s2 := Next(s1, b);
    assert [a, b, c][1..] == [b, c] && [b, c][1..] == [c] && [c][1..] == [];
    assert Run(s2, [c]) && After(s2, [c]) == Next(s2, c);
    assert Run(s1, [b, c]) && After(s1, [b, c]) == After(s2, [c]);
  }

  lemma {:induction false} CrowdFills(s: Sys, k: nat)
    requires s.q == [] && s.g.busy.None? && s.g.drained + k <= DRAIN_MAX
    ensures Run(s, Crowd(k)) && After(s, Crowd(k)) == s.(g := s.g.(drained := s.g.drained + k))
    decreases k
  {
    if k > 0 {
      var one := [Other(OtherReq), Take, Finish(true)];
      Triple(s, Other(OtherReq), Take, Finish(true));
      var t := s.(g := s.g.(drained := s.g.drained + 1));
      assert After(s, one) == t;
      CrowdFills(t, k - 1);
      RunConcat(s, one, Crowd(k - 1));
    }
  }

  const ROTATE := [Deliver(Found(Label(2, 0)), 0, true), SendOpen(0, true), Take]
  const LAST := [Take, Finish(true), DrainEnds]
  const FIRST := [Deliver(Found(Label(1, 0)), 0, true), Take, Finish(true)]

  lemma FirstOpens()
    ensures Run(BOOT, FIRST)
    ensures var s := After(BOOT, FIRST);
            s.q == [] && s.g == Logger(Some(1), 1, 1, None, 1, 1, false) && !s.lost && s.swallowed == []
            && s.pc == Idle && s.m == OpenM(Closed, Label(1, 0), 0, true)
  {
    Triple(BOOT, FIRST[0], FIRST[1], FIRST[2]);
  }

  const CONFIRM := [LoadOpen, Decide(0, true), ActOn(0, true)]

  /** The protocol at work: a venue found is opened by the logger, and the next periodic check confirms it. */
  lemma FoundVenueIsOpenedAndConfirmed()
    ensures Run(BOOT, FIRST + CONFIRM)
    ensures var s := After(BOOT, FIRST + CONFIRM);
            s.m.confirmed && s.m.named == Label(1, 0) && s.g.open == Some(1) && s.g.atOpen == s.m.sent == 1 && s.q == []
  {
    FirstOpens();
    Triple(After(BOOT, FIRST), CONFIRM[0], CONFIRM[1], CONFIRM[2]);
    RunConcat(BOOT, FIRST, CONFIRM);
  }

  lemma RotateLosesItsClose(s: Sys)
    requires s.q == [] && s.g == Logger(Some(1), 1, 1, None, DRAIN_MAX, 1, false) && s.pc == Idle
    requires s.m == OpenM(Closed, Label(1, 0), 0, true)
    ensures Run(s, ROTATE)
    ensures var t := After(s, ROTATE);
            t.lost && t.q == [OpenReq(2, 0, 2)] && t.g == s.g.(drained := 0) && t.pc == Idle
            && t.m.open && t.m.named == Label(2, 0) && t.swallowed == s.swallowed
  {
    var s1 := Next(s, ROTATE[0]);
    assert s1.q == [CloseReq(true)] && s1.pc == PostOpen(Label(2, 0), false);
    var s2 := Next(s1, ROTATE[1]);
    assert s2.q == [CloseReq(true), OpenReq(2, 0, 2)];
    Triple(s, ROTATE[0], ROTATE[1], ROTATE[2]);
  }

  lemma LastIsSwallowed(s: Sys)
    requires s.q == [OpenReq(2, 0, 2)] && s.g == Logger(Some(1), 1, 1, None, 0, 1, false)
    ensures Run(s, LAST)
    ensures var t := After(s, LAST);
            t.lost == s.lost && t.swallowed == s.swallowed + [(2, 1)] && t.g.open == Some(1) && t.m == s.m
  {
    Triple(s, LAST[0], LAST[1], LAST[2]);
  }

  lemma TheDrainBoundCanSwallowARotation() returns (acts: seq<Move>)
    ensures Run(BOOT, acts)
    ensures var s := After(BOOT, acts);
            s.lost && s.swallowed == [(2, 1)] && s.g.open == Some(1) && s.m.open && s.m.named.venue == 2
  {
    FirstOpens();
    var s1 := After(BOOT, FIRST);
    CrowdFills(s1, 7);
    var s2 := After(s1, Crowd(7));
    RotateLosesItsClose(s2);
    LastIsSwallowed(After(s2, ROTATE));
    RunConcat(s2, ROTATE, LAST);
    RunConcat(s1, Crowd(7), ROTATE + LAST);
    RunConcat(BOOT, FIRST, Crowd(7) + (ROTATE + LAST));
    acts := FIRST + (Crowd(7) + (ROTATE + LAST));
  }
}
