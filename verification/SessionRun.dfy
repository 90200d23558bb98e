/** The session protocol as it runs: the pipeline task, the logger task and the other tasks that may
    post to the logger interleave one atomic action at a time over the bounded request queue
    (components/app/pipeline/pipeline.c, components/app/logger/logger.c). */
module SessionRun {
  import opened Prelude
  import opened SessionPolicy
  import opened SessionMirror

  const LOG_REQ_Q_DEPTH: nat := 4
  const DRAIN_MAX: nat := 2 * LOG_REQ_Q_DEPTH

  // ---- state ----

  /** The logger's words. `opener` and `foreignClosed` are history: which OPEN made the latest completed
      open, and whether a CLOSE the pipeline did not send has ended that session. */
  datatype Logger = Logger(open: Option<U16>, seen: nat, atOpen: nat, busy: Option<Req>, drained: nat,
                           opener: nat, foreignClosed: bool)

  /** Where the pipeline stands inside a call: before the OPEN of a rotation, between the two loads
      of the periodic check, or about to act on its verdict. `relabel` carries the rest of a resume. */
  datatype Pc =
    | Idle
    | PostOpen(to: Label, relabel: bool)
    | Loaded(lopen: bool)
    | Judged(v: Liveness)

  /** `swallowed` lists, for each OPEN ignored because a session was open, the venue asked for and the
      venue open; `lost` says that a CLOSE from the pipeline was dropped at the drain bound although what
      is queued behind it does not fit the session then open. */
  datatype Sys = Sys(m: Mirror, pc: Pc, q: seq<Req>, g: Logger, swallowed: seq<(U16, U16)>, lost: bool)

  const BOOT := Sys(Closed, Idle, [], Logger(None, 0, 0, None, 0, 0, false), [], false)

  datatype Happening =
    | Found(to: Label) | Resumed(to: Label) | VenueGone | ModeChanged | LayoutLocked(layout: U16) | OpenIfClosed(to: Label)

  /** One atomic action. `ok` is whether a send got in; a send may fail at any time (its wait is
      bounded) and can succeed only with room on the queue. */
  datatype Move =
    | Deliver(h: Happening, now: int, ok: bool)
    | SendOpen(now: int, ok: bool)
    | LoadOpen
    | Decide(now: int, ok: bool)
    | ActOn(now: int, ok: bool)
    | Other(r: Req)
    | Take
    | Finish(opens: bool)
    | DrainEnds

  // ---- the pipeline's actions ----

  function IntentOf(m: Mirror, h: Happening): Intent {
    match h
    case Found(to) => OnVenueM(m, to)
    case Resumed(to) => OnVenueM(m, to)
    case VenueGone => OnLostM(m)
    case ModeChanged => OnModeM(m)
    case LayoutLocked(l) => OnLayoutM(m, l)
    case OpenIfClosed(to) => OnOpenIfClosedM(m, to)
  }

  function Post(s: Sys, ok: bool, r: Req): Sys { if ok then s.(q := s.q + [r]) else s }

  function Relabelled(m: Mirror, relabel: bool, to: Label): Mirror { if relabel then RelabelM(m, to) else m }

  function Asking(s: Sys, to: Label, relabel: bool, now: int, ok: bool): Sys {
    Post(s, ok, OpenRequest(s.m, to)).(m := Relabelled(OpenM(s.m, to, now, ok), relabel, to), pc := Idle)
  }

  function Shutting(s: Sys, act: Action, to: Label, relabel: bool, now: int, ok: bool): Sys
    requires act == ActClose || act == ActReopen
  {
    var m := CloseActM(s.m, act, to, now, ok);
    if CloseOutcome(act, ok).1 then Post(s, ok, CloseReq(true)).(m := m, pc := PostOpen(to, relabel))
    else Post(s, ok, CloseReq(true)).(m := Relabelled(m, relabel, to), pc := Idle)
  }

  function Pursue(s: Sys, i: Intent, relabel: bool, now: int, ok: bool): Sys
    requires i.Shut? ==> i.act == ActClose || i.act == ActReopen
  {
    match i
    case Stay(m) => s.(m := m, pc := Idle)
    case Ask(to) => Asking(s, to, relabel, now, ok)
    case Shut(act, to) => Shutting(s, act, to, relabel, now, ok)
  }

  function Delivered(s: Sys, h: Happening, now: int, ok: bool): Sys {
    var i := IntentOf(s.m, h);
    var relabel := h.Resumed?;
    if i.Stay? && relabel then s.(m := RelabelM(i.m, h.to), pc := Idle) else Pursue(s, i, relabel, now, ok)
  }

  /** The second half of the periodic check: the pending branch, or the load of the count. */
  function Decided(s: Sys, now: int, ok: bool): Sys
    requires s.pc.Loaded?
  {
    if s.m.pend.kind != PendNone then Pursue(s, PendingPeriodicM(s.m, now, s.pc.lopen), false, now, ok)
    else s.(pc := Judged(VerdictM(s.m, now, s.pc.lopen, s.g.atOpen)))
  }

  // ---- the logger's actions ----

  function Taken(s: Sys): Sys
    requires s.q != []
  {
    var r := s.q[0];
    var g := if r.OpenReq? then s.g.(seen := s.g.seen + 1) else s.g;
    if s.g.drained >= DRAIN_MAX
    then s.(q := s.q[1..], g := g.(drained := 0), lost := s.lost || (r == CloseReq(true) && !Fits(g.open, s.q[1..], s.m)))
    else s.(q := s.q[1..], g := g.(drained := g.drained + 1, busy := Some(r)))
  }

  /** Handling the request in hand. `opens` is whether an OPEN met no refusal (reserve floor, numbers
      used up, file not created). */
  function Finished(s: Sys, opens: bool): Sys
    requires s.g.busy.Some?
  {
    var g := s.g.(busy := None);
    match s.g.busy.value
    case OtherReq => s.(g := g)
    case CloseReq(own) =>
      s.(g := g.(open := None, foreignClosed := g.foreignClosed || (g.open.Some? && !own)))
    case OpenReq(v, _, n) =>
      if g.open.Some? then s.(g := g, swallowed := s.swallowed + [(v, g.open.value)])
      else if opens then s.(g := g.(open := Some(v), atOpen := g.seen, opener := n, foreignClosed := false))
      else s.(g := g)
  }

  // ---- runs ----

  predicate Enabled(s: Sys, a: Move) {
    match a
    case Deliver(_, _, ok) => s.pc.Idle? && (ok ==> |s.q| < LOG_REQ_Q_DEPTH)
    case SendOpen(_, ok) => s.pc.PostOpen? && (ok ==> |s.q| < LOG_REQ_Q_DEPTH)
    case LoadOpen => s.pc.Idle? && s.m.open
    case Decide(_, ok) => s.pc.Loaded? && (ok ==> |s.q| < LOG_REQ_Q_DEPTH)
    case ActOn(_, ok) => s.pc.Judged? && (ok ==> |s.q| < LOG_REQ_Q_DEPTH)
    case Other(r) => !r.OpenReq? && r != CloseReq(true) && |s.q| < LOG_REQ_Q_DEPTH
    case Take => s.g.busy.None? && s.q != []
    case Finish(_) => s.g.busy.Some?
    case DrainEnds => s.g.busy.None? && s.q == []
  }

  function Next(s: Sys, a: Move): Sys
    requires Enabled(s, a)
  {
    match a
    case Deliver(h, now, ok) => Delivered(s, h, now, ok)
    case SendOpen(now, ok) => Asking(s, s.pc.to, s.pc.relabel, now, ok)
    case LoadOpen => s.(pc := Loaded(s.g.open.Some?))
    case Decide(now, ok) => Decided(s, now, ok)
    case ActOn(now, ok) => Pursue(s, ActOnVerdictM(s.m, s.pc.v), false, now, ok)
    case Other(r) => s.(q := s.q + [r])
    case Take => Taken(s)
    case Finish(opens) => Finished(s, opens)
    case DrainEnds => s.(g := s.g.(drained := 0))
  }

  predicate Run(s: Sys, acts: seq<Move>)
    decreases |acts|
  {
    acts == [] || (Enabled(s, acts[0]) && Run(Next(s, acts[0]), acts[1..]))
  }

  function After(s: Sys, acts: seq<Move>): Sys
    requires Run(s, acts)
    decreases |acts|
  {
    if acts == [] then s else After(Next(s, acts[0]), acts[1..])
  }

  /** A lifecycle event carried through with nobody else acting is the routine the pipeline's class is
      proved against: same mirror, same requests in the same order. */
  lemma EventAlone(s: Sys, h: Happening, now: int, closeOk: bool, openOk: bool)
    requires s.pc.Idle?
    ensures var i := IntentOf(s.m, h);
            var s1 := Delivered(s, h, now, if i.Ask? then openOk else closeOk);
            var s2 := if s1.pc.PostOpen? then Asking(s1, s1.pc.to, s1.pc.relabel, now, openOk) else s1;
            var (m, sent) := Carry(s.m, i, now, closeOk, openOk);
            s2.q == s.q + sent && s2.pc.Idle? && s2.m == if h.Resumed? then RelabelM(m, h.to) else m
  {
    var i := IntentOf(s.m, h);
    var s1 := Delivered(s, h, now, if i.Ask? then openOk else closeOk);
    match i {
      case Stay(_) => assert s.q + [] == s.q;
      case Ask(to) => assert s.q + [] == s.q;
      case Shut(act, to) =>
        var r := OpenRequest(s1.m, to);
        assert s.q + [] == s.q && [CloseReq(true)] + [] == [CloseReq(true)];
        assert (s.q + [CloseReq(true)]) + [r] == s.q + ([CloseReq(true)] + [r]);
    }
  }

  /** Carrying out an intent, in at most two steps. */
  lemma PursueAlone(s: Sys, i: Intent, now: int, closeOk: bool, openOk: bool)
    requires i.Shut? ==> i.act == ActClose || i.act == ActReopen
    ensures var s1 := Pursue(s, i, false, now, if i.Ask? then openOk else closeOk);
            var s2 := if s1.pc.PostOpen? then Asking(s1, s1.pc.to, s1.pc.relabel, now, openOk) else s1;
            var (m, sent) := Carry(s.m, i, now, closeOk, openOk);
            s2.q == s.q + sent && s2.pc.Idle? && s2.m == m && s2.g == s.g && (i.Ask? ==> !s1.pc.PostOpen?)
  {
    assert s.q + [] == s.q;
    if i.Shut? {
      var s1 := Shutting(s, i.act, i.to, false, now, closeOk);
      var r := OpenRequest(s1.m, i.to);
      assert [CloseReq(true)] + [] == [CloseReq(true)];
      assert (s.q + [CloseReq(true)]) + [r] == s.q + ([CloseReq(true)] + [r]);
    }
  }

  /** So is a periodic check: its two loads, its verdict and its sends. */
  lemma PeriodicAlone(s: Sys, now: int, closeOk: bool, openOk: bool)
    requires s.pc.Idle? && s.m.open
    ensures var lopen := s.g.open.Some?;
            var i := PeriodicIntent(s.m, now, lopen, s.g.atOpen);
            var s1 := Decided(s.(pc := Loaded(lopen)), now, closeOk);
            var s2 := if s1.pc.Judged? then Pursue(s1, ActOnVerdictM(s1.m, s1.pc.v), false, now, openOk) else s1;
            var s3 := if s2.pc.PostOpen? then Asking(s2, s2.pc.to, s2.pc.relabel, now, openOk) else s2;
            var (m, sent) := Carry(s.m, i, now, closeOk, openOk);
            s3.q == s.q + sent && s3.pc.Idle? && s3.m == m && s3.g == s.g
  {
    var lopen := s.g.open.Some?;
    if s.m.pend.kind != PendNone {
      PursueAlone(s.(pc := Loaded(lopen)), PendingPeriodicM(s.m, now, lopen), now, closeOk, openOk);
    } else {
      var v := VerdictM(s.m, now, lopen, s.g.atOpen);
      PursueAlone(s.(pc := Judged(v)), ActOnVerdictM(s.m, v), now, openOk, openOk);
    }
    hide Pursue, Asking, Carry;
  }

  // ---- what the queue will do ----

  function Backlog(s: Sys): seq<Req> {
    (if s.g.busy.Some? then [s.g.busy.value] else []) + s.q
  }

  /** Handling `p` from a logger holding `lv`, whatever it refuses and whichever other task's CLOSE is
      dropped, ends closed or with the mirror's venue, and ignores no OPEN for another venue. */
  predicate Fits(lv: Option<U16>, p: seq<Req>, m: Mirror)
    decreases |p|
  {
    if p == [] then lv.None? || (m.open && lv.value == m.named.venue)
    else match p[0]
      case OtherReq => Fits(lv, p[1..], m)
      case CloseReq(own) => Fits(None, p[1..], m) && (own || Fits(lv, p[1..], m))
      case OpenReq(v, _, _) =>
        if lv.Some? then lv.value == v && Fits(lv, p[1..], m)
        else Fits(None, p[1..], m) && Fits(Some(v), p[1..], m)
  }

  function Opens(p: seq<Req>): nat
    decreases |p|
  {
    if p == [] then 0 else (if p[0].OpenReq? then 1 else 0) + Opens(p[1..])
  }

  /** The OPENs of `p` are numbered from `n + 1` on. */
  predicate Numbered(p: seq<Req>, n: nat)
    decreases |p|
  {
    p == [] || (if p[0].OpenReq? then p[0].n == n + 1 && Numbered(p[1..], n + 1) else Numbered(p[1..], n))
  }

  /** No CLOSE of the pipeline's own stands behind the last OPEN. */
  predicate TrailFree(p: seq<Req>)
    decreases |p|
  {
    p == [] || (TrailFree(p[1..]) && (p[0] == CloseReq(true) ==> Opens(p[1..]) > 0))
  }

  lemma {:induction false} OpensSnoc(p: seq<Req>, r: Req)
    ensures Opens(p + [r]) == Opens(p) + if r.OpenReq? then 1 else 0
    decreases |p|
  {
    if p == [] {
      assert p + [r] == [r];
    } else {
      assert (p + [r])[1..] == p[1..] + [r];
      OpensSnoc(p[1..], r);
    }
  }

  lemma {:induction false} NumberedSnoc(p: seq<Req>, n: nat, r: Req)
    requires Numbered(p, n) && (r.OpenReq? ==> r.n == n + Opens(p) + 1)
    ensures Numbered(p + [r], n)
    decreases |p|
  {
    if p == [] {
      assert p + [r] == [r];
    } else {
      assert (p + [r])[1..] == p[1..] + [r];
      NumberedSnoc(p[1..], if p[0].OpenReq? then n + 1 else n, r);
    }
  }

  lemma {:induction false} TrailSnoc(p: seq<Req>, r: Req)
    requires r.OpenReq? || (TrailFree(p) && r != CloseReq(true))
    ensures TrailFree(p + [r])
    decreases |p|
  {
    if p == [] {
      assert p + [r] == [r];
    } else {
      assert (p + [r])[1..] == p[1..] + [r];
      TrailSnoc(p[1..], r);
      OpensSnoc(p[1..], r);
    }
  }

  /** Appending a request the pipeline or another task sends, with the mirror moving from `m` to `n`. */
  lemma {:induction false} FitsSnoc(lv: Option<U16>, p: seq<Req>, m: Mirror, r: Req, n: Mirror)
    requires Fits(lv, p, m)
    requires match r
             case OtherReq => n.open == m.open && n.named.venue == m.named.venue
             case CloseReq(own) => own || (n.open == m.open && n.named.venue == m.named.venue)
             case OpenReq(v, _, _) => n.open && n.named.venue == v && (m.open ==> m.named.venue == v)
    ensures Fits(lv, p + [r], n)
    decreases |p|
  {
    if p == [] {
      assert p + [r] == [r] && [r][1..] == [];
    } else {
      assert (p + [r])[1..] == p[1..] + [r];
      var rest := p[1..];
      match p[0] {
        case OtherReq => FitsSnoc(lv, rest, m, r, n);
        case CloseReq(own) =>
          FitsSnoc(None, rest, m, r, n);
          if !own {
            FitsSnoc(lv, rest, m, r, n);
          }
        case OpenReq(v, _, _) =>
          if lv.Some? {
            FitsSnoc(lv, rest, m, r, n);
          } else {
            FitsSnoc(None, rest, m, r, n);
            FitsSnoc(Some(v), rest, m, r, n);
          }
      }
    }
  }

  /** Only the mirror's open flag and venue matter, and a mirror that closes while the walk can only
      end closed still fits. */
  lemma {:induction false} FitsSame(lv: Option<U16>, p: seq<Req>, m: Mirror, n: Mirror)
    requires Fits(lv, p, m)
    requires m.open ==> n.open && n.named.venue == m.named.venue
    ensures Fits(lv, p, n)
    decreases |p|
  {
    if p != [] {
      var rest := p[1..];
      match p[0] {
        case OtherReq => FitsSame(lv, rest, m, n);
        case CloseReq(own) =>
          FitsSame(None, rest, m, n);
          if !own {
            FitsSame(lv, rest, m, n);
          }
        case OpenReq(v, _, _) =>
          if lv.Some? {
            FitsSame(lv, rest, m, n);
          } else {
            FitsSame(None, rest, m, n);
            FitsSame(Some(v), rest, m, n);
          }
      }
    }
  }

  lemma {:induction false} FitsClosed(p: seq<Req>, m: Mirror)
    requires Opens(p) == 0
    ensures Fits(None, p, m)
    decreases |p|
  {
    if p != [] {
      FitsClosed(p[1..], m);
    }
  }
}
