/** components/app/pipeline/pipeline.c, the session half: the pipeline's mirror of what it has asked
    the logger for. Specification functions on the mirror, and the source's routines proved against
    them. Each function covers one send or one local decision, so that the interleaved model can use
    the same functions one atomic action at a time. */
module SessionMirror {
  import opened Prelude
  import opened SessionPolicy

  const RETRY_US: int := 60 * 1000000

  /** A request on the logger's queue. An OPEN carries its position among all OPENs enqueued; a
      CLOSE says whether the pipeline sent it. */
  datatype Req = OpenReq(venue: U16, layout: U16, n: nat) | CloseReq(own: bool) | OtherReq

  datatype Label = Label(venue: U16, layout: U16)
  datatype Pending = Pending(kind: PendKind, target: Label)

  datatype Mirror = Mirror(
    open: bool, confirmed: bool, sendOk: bool, sent: nat,
    pend: Pending, named: Label, lastTry: int)

  const Closed := Mirror(false, false, true, 0, Pending(PendNone, Label(0, 0)), Label(0, 0), 0)

  // ---- one send each ----

  function OpenM(m: Mirror, to: Label, now: int, ok: bool): Mirror {
    m.(open := true, confirmed := false, sendOk := ok, sent := if ok then m.sent + 1 else m.sent,
       named := to, lastTry := now)
  }

  function OpenRequest(m: Mirror, to: Label): Req { OpenReq(to.venue, to.layout, m.sent + 1) }

  /** session_close_act up to, and without, the OPEN that may follow. */
  function CloseActM(m: Mirror, act: Action, to: Label, now: int, ok: bool): Mirror
    requires act == ActClose || act == ActReopen
  {
    var closed := if ok then m.(open := false, confirmed := false) else m.(lastTry := now);
    closed.(pend := Pending(CloseOutcome(act, ok).0, to))
  }

  function DropM(m: Mirror): Mirror {
    m.(open := false, confirmed := false, named := Label(0, 0), pend := m.pend.(kind := PendNone))
  }

  // ---- what a lifecycle event asks for ----

  datatype Intent = Stay(m: Mirror) | Ask(to: Label) | Shut(act: Action, to: Label)

  function OnVenueM(m: Mirror, to: Label): Intent
  {
    var changed := m.open && to.venue != m.named.venue;
    match Policy(m.open, if changed then VenueChanged else VenueFound)
    case ActReopen => Shut(ActReopen, to)
    case ActOpen => Ask(to)
    case _ =>
      if PendCancelsOnFound(m.pend.kind, to.venue, m.pend.target.venue)
      then Stay(m.(pend := m.pend.(kind := PendNone))) else Stay(m)
  }

  function OnLostM(m: Mirror): Intent {
    if Policy(m.open, VenueLost) == ActClose then Shut(ActClose, m.named) else Stay(m)
  }

  function OnModeM(m: Mirror): Intent {
    if Policy(m.open, ModeChange) != ActReopen || m.pend.kind == PendClose then Stay(m)
    else Shut(ActReopen, if m.pend.kind == PendRotate then m.pend.target else m.named)
  }

  /** `dbg logtest` and the boot venue: a session only when the mirror says none is open. */
  function OnOpenIfClosedM(m: Mirror, to: Label): Intent {
    if m.open then Stay(m) else Ask(to)
  }

  function OnLayoutM(m: Mirror, layout: U16): Intent {
    if m.pend.kind == PendRotate then Stay(m.(pend := m.pend.(target := m.pend.target.(layout := layout))))
    else Stay(m.(named := m.named.(layout := layout)))
  }

  /** What the periodic check does while a close or rotation is pending. */
  function PendingPeriodicM(m: Mirror, now: int, lopen: bool): Intent
    requires m.pend.kind != PendNone
  {
    if !lopen && m.confirmed then Stay(DropM(m))
    else if PendDue(m.pend.kind, now, m.lastTry, RETRY_US) then Shut(PendAct(m.pend.kind), m.pend.target)
    else Stay(m)
  }

  function VerdictM(m: Mirror, now: int, lopen: bool, atOpen: nat): Liveness {
    SessionLiveness(lopen, atOpen, m.sent, m.sendOk, m.confirmed, now, m.lastTry, RETRY_US)
  }

  function ActOnVerdictM(m: Mirror, v: Liveness): Intent
  {
    match v
    case LiveDrop => Stay(DropM(m))
    case LiveConfirm => Stay(m.(confirmed := true))
    case LiveRetry => Ask(m.named)
    case LiveNone => Stay(m)
  }

  /** resume_open_session's labelling after its session_on_venue. */
  function RelabelM(m: Mirror, to: Label): Mirror {
    if m.pend.kind == PendRotate then m else m.(named := to)
  }

  // ---- a whole call, with nobody between its sends ----

  /** The mirror and the requests enqueued when an intent is carried out. */
  function Carry(m: Mirror, i: Intent, now: int, closeOk: bool, openOk: bool): (Mirror, seq<Req>)
    requires i.Shut? ==> i.act == ActClose || i.act == ActReopen
  {
    match i
    case Stay(m') => (m', [])
    case Ask(to) => (OpenM(m, to, now, openOk), if openOk then [OpenRequest(m, to)] else [])
    case Shut(act, to) =>
      var m1 := CloseActM(m, act, to, now, closeOk);
      var q := if closeOk then [CloseReq(true)] else [];
      if CloseOutcome(act, closeOk).1
      then (OpenM(m1, to, now, openOk), q + if openOk then [OpenRequest(m1, to)] else [])
      else (m1, q)
  }

  /** However its sends go, a call keeps the venue of a session it could not close, never posts the
      OPEN of a rotation without its CLOSE before it, and a pending record means the mirror is open. */
  lemma CarryKeepsOrder(m: Mirror, i: Intent, now: int, closeOk: bool, openOk: bool)
    requires i.Shut? ==> (i.act == ActClose || i.act == ActReopen) && m.open
    requires m.pend.kind != PendNone ==> m.open
    requires i.Stay? ==> (i.m.pend.kind != PendNone ==> i.m.open) && i.m.sent == m.sent
    ensures var (m', q) := Carry(m, i, now, closeOk, openOk);
            && (m'.pend.kind != PendNone ==> m'.open)
            && (i.Shut? && !closeOk ==> q == [] && m'.open && m'.named == m.named && m'.confirmed == m.confirmed)
            && (i.Shut? && (exists r :: r in q && r.OpenReq?) ==> |q| == 2 && q[0] == CloseReq(true))
            && m'.sent == m.sent + (if q != [] && q[|q| - 1].OpenReq? then 1 else 0)
  {
  }

  // ---- what each routine does, in terms of the mirror before and after and the requests enqueued ----

  /** An OPEN for `to`: the mirror says open whether or not it got in, and counts it only if it did. */
  predicate OpenDoes(m: Mirror, m': Mirror, q: seq<Req>, to: Label, now: int, ok: bool) {
    && q == (if ok then [OpenReq(to.venue, to.layout, m.sent + 1)] else [])
    && m' == Mirror(true, false, ok, m.sent + |q|, m.pend, to, now)
  }

  /** A CLOSE, and behind it, if `reopen`, an OPEN for `to`. A CLOSE that did not get in leaves the session
      as it is and is remembered, with its OPEN. */
  predicate CloseDoes(m: Mirror, m': Mirror, q: seq<Req>, reopen: bool, to: Label, now: int, closeOk: bool, openOk: bool) {
    if !closeOk then
      && q == []
      && m' == m.(pend := Pending(if reopen then PendRotate else PendClose, to), lastTry := now)
    else
      var closed := m.(open := false, confirmed := false, pend := Pending(PendNone, to));
      && q != [] && q[0] == CloseReq(true)
      && if reopen then OpenDoes(closed, m', q[1..], to, now, openOk) else m' == closed && q == [CloseReq(true)]
  }

  predicate Same(m: Mirror, m': Mirror, q: seq<Req>) { m' == m && q == [] }

  /** Someone else closed the session: forgotten, and any pending record with it. */
  predicate DropDoes(m: Mirror, m': Mirror, q: seq<Req>) {
    q == [] && m' == Mirror(false, false, m.sendOk, m.sent, Pending(PendNone, m.pend.target), Label(0, 0), m.lastTry)
  }

  /** A lost venue ends the session open, if any. */
  predicate LostDoes(m: Mirror, m': Mirror, q: seq<Req>, now: int, closeOk: bool) {
    if m.open then CloseDoes(m, m', q, false, m.named, now, closeOk, true) else Same(m, m', q)
  }

  /** A venue found opens a session, or rotates to it from another venue's; the open session's own venue
      only calls off a pending close, or a pending rotation elsewhere. */
  predicate FoundDoes(m: Mirror, m': Mirror, q: seq<Req>, to: Label, now: int, closeOk: bool, openOk: bool) {
    if !m.open then OpenDoes(m, m', q, to, now, openOk)
    else if to.venue != m.named.venue then CloseDoes(m, m', q, true, to, now, closeOk, openOk)
    else if m.pend.kind == PendClose || (m.pend.kind == PendRotate && m.pend.target.venue != to.venue)
    then q == [] && m' == m.(pend := Pending(PendNone, m.pend.target))
    else Same(m, m', q)
  }

  /** A mode change closes and reopens: under the label in use, or that of a rotation still pending. A
      pending close outranks it. */
  predicate ModeDoes(m: Mirror, m': Mirror, q: seq<Req>, now: int, closeOk: bool, openOk: bool) {
    if !m.open || m.pend.kind == PendClose then Same(m, m', q)
    else CloseDoes(m, m', q, true, if m.pend.kind == PendRotate then m.pend.target else m.named, now, closeOk, openOk)
  }

  /** The periodic check. A session the logger has confirmed and no longer has open is dropped. What is
      pending is tried again a minute after the last attempt, and so is an OPEN never confirmed; an open
      session is confirmed once the logger's open count is that of the latest OPEN. */
  predicate PeriodicDoes(m: Mirror, m': Mirror, q: seq<Req>, now: int, lopen: bool, atOpen: nat,
                         closeOk: bool, openOk: bool) {
    var late := now - m.lastTry >= 60000000;
    if !m.open then Same(m, m', q)
    else if !lopen && m.confirmed then DropDoes(m, m', q)
    else if m.pend.kind != PendNone then
      if late then CloseDoes(m, m', q, m.pend.kind == PendRotate, m.pend.target, now, closeOk, openOk) else Same(m, m', q)
    else if lopen then q == [] && m' == m.(confirmed := m.confirmed || (m.sendOk && atOpen == m.sent))
    else if late then OpenDoes(m, m', q, m.named, now, openOk)
    else Same(m, m', q)
  }

  /** The functions of the interleaved model do just that. */
  lemma EventsDo(m: Mirror, to: Label, now: int, closeOk: bool, openOk: bool)
    ensures var (m', q) := Carry(m, OnLostM(m), now, closeOk, openOk); LostDoes(m, m', q, now, closeOk)
    ensures var (m', q) := Carry(m, OnVenueM(m, to), now, closeOk, openOk); FoundDoes(m, m', q, to, now, closeOk, openOk)
    ensures var (m', q) := Carry(m, OnModeM(m), now, closeOk, openOk); ModeDoes(m, m', q, now, closeOk, openOk)
    ensures var (m', q) := Carry(m, OnOpenIfClosedM(m, to), now, closeOk, openOk);
            if m.open then Same(m, m', q) else OpenDoes(m, m', q, to, now, openOk)
    ensures var (m', q) := Carry(m, OnLayoutM(m, to.layout), now, closeOk, openOk);
            && q == [] && m'.sent == m.sent && m'.open == m.open && m'.confirmed == m.confirmed
            && (if m.pend.kind == PendRotate then
                  m'.named == m.named && m'.pend == Pending(PendRotate, Label(m.pend.target.venue, to.layout))
                else m'.pend == m.pend && m'.named == Label(m.named.venue, to.layout))
  {
  }

  /** The intent of a periodic check that loaded `lopen` and `atOpen`. */
  function PeriodicIntent(m: Mirror, now: int, lopen: bool, atOpen: nat): Intent {
    if !m.open then Stay(m)
    else if m.pend.kind != PendNone then PendingPeriodicM(m, now, lopen)
    else ActOnVerdictM(m, VerdictM(m, now, lopen, atOpen))
  }

  lemma PeriodicDoesIt(m: Mirror, now: int, lopen: bool, atOpen: nat, closeOk: bool, openOk: bool)
    ensures var (m', q) := Carry(m, PeriodicIntent(m, now, lopen, atOpen), now, closeOk, openOk);
            PeriodicDoes(m, m', q, now, lopen, atOpen, closeOk, openOk)
  {
  }

  // ---- the routines, in the source's own form ----

  class Pipeline {
    var open: bool
    var confirmed: bool
    var sendOk: bool
    var sent: nat
    var pend: Pending
    var named: Label
    var lastTry: int
    var queued: seq<Req>        // requests this task has enqueued

    ghost function View(): Mirror
      reads this
    {
      Mirror(open, confirmed, sendOk, sent, pend, named, lastTry)
    }

    /** The requests enqueued since the queue was `before`. */
    ghost function Since(before: seq<Req>): seq<Req>
      reads this
      requires before <= queued
    {
      queued[|before|..]
    }

    constructor ()
      ensures View() == Closed && queued == []
    {
      open, confirmed, sendOk, sent := false, false, true, 0;
      pend, named, lastTry, queued := Pending(PendNone, Label(0, 0)), Label(0, 0), 0, [];
    }

    /** session_send: `room` says whether the queue took the request within its bounded wait. */
    method Send(r: Req, room: bool) returns (ok: bool)
      modifies this`queued
      ensures ok == room && queued == old(queued) + if room then [r] else []
    {
      if room {
        queued := queued + [r];
      }
      return room;
    }

    method SessionOpen(to: Label, now: int, room: bool)
      modifies this
      ensures View() == OpenM(old(View()), to, now, room)
      ensures queued == old(queued) + if room then [OpenRequest(old(View()), to)] else []
      ensures old(queued) <= queued && OpenDoes(old(View()), View(), Since(old(queued)), to, now, room)
    {
      named := to;
      sendOk := Send(OpenReq(to.venue, to.layout, sent + 1), room);
      if sendOk {
        sent := sent + 1;
      }
      open := true;
      confirmed := false;
      lastTry := now;
    }

    method MirrorDrop()
      modifies this
      ensures View() == DropM(old(View())) && queued == old(queued)
    {
      open := false;
      confirmed := false;
      named := Label(0, 0);
      pend := pend.(kind := PendNone);
    }

    method SessionClose(room: bool) returns (ok: bool)
      modifies this
      ensures ok == room && queued == old(queued) + if room then [CloseReq(true)] else []
      ensures View() == if room then old(View()).(open := false, confirmed := false) else old(View())
    {
      ok := Send(CloseReq(true), room);
      if ok {
        open := false;
        confirmed := false;
      }
    }

    method CloseAct(act: Action, to: Label, now: int, closeRoom: bool, openRoom: bool)
      requires act == ActClose || act == ActReopen
      modifies this
      ensures View() == Carry(old(View()), Shut(act, to), now, closeRoom, openRoom).0
      ensures queued == old(queued) + Carry(old(View()), Shut(act, to), now, closeRoom, openRoom).1
      ensures old(queued) <= queued &&
              CloseDoes(old(View()), View(), Since(old(queued)), act == ActReopen, to, now, closeRoom, openRoom)
    {
      var ok := SessionClose(closeRoom);
      var (kind, postOpen) := CloseOutcome(act, ok);
      pend := Pending(kind, to);
      if !ok {
        lastTry := now;
      }
      if postOpen {
        SessionOpen(to, now, openRoom);
      }
    }

    method OnVenue(to: Label, now: int, closeRoom: bool, openRoom: bool)
      modifies this
      ensures View() == Carry(old(View()), OnVenueM(old(View()), to), now, closeRoom, openRoom).0
      ensures queued == old(queued) + Carry(old(View()), OnVenueM(old(View()), to), now, closeRoom, openRoom).1
      ensures old(queued) <= queued && FoundDoes(old(View()), View(), Since(old(queued)), to, now, closeRoom, openRoom)
    {
      var changed := open && to.venue != named.venue;
      var act := Policy(open, if changed then VenueChanged else VenueFound);
      if act == ActReopen {
        CloseAct(act, to, now, closeRoom, openRoom);
      } else if act == ActOpen {
        SessionOpen(to, now, openRoom);
      } else if PendCancelsOnFound(pend.kind, to.venue, pend.target.venue) {
        pend := pend.(kind := PendNone);
      }
    }

    method Rotate(now: int, closeRoom: bool, openRoom: bool)
      modifies this
      ensures View() == Carry(old(View()), OnModeM(old(View())), now, closeRoom, openRoom).0
      ensures queued == old(queued) + Carry(old(View()), OnModeM(old(View())), now, closeRoom, openRoom).1
      ensures old(queued) <= queued && ModeDoes(old(View()), View(), Since(old(queued)), now, closeRoom, openRoom)
    {
      if Policy(open, ModeChange) != ActReopen || pend.kind == PendClose {
        return;
      }
      var to := if pend.kind == PendRotate then pend.target else named;
      CloseAct(ActReopen, to, now, closeRoom, openRoom);
    }

    method VenueLostEvent(now: int, closeRoom: bool)
      modifies this
      ensures View() == Carry(old(View()), OnLostM(old(View())), now, closeRoom, true).0
      ensures queued == old(queued) + Carry(old(View()), OnLostM(old(View())), now, closeRoom, true).1
      ensures old(queued) <= queued && LostDoes(old(View()), View(), Since(old(queued)), now, closeRoom)
    {
      if Policy(open, VenueLost) == ActClose {
        CloseAct(ActClose, named, now, closeRoom, true);
      }
    }

    method ResumeOpen(to: Label, now: int, closeRoom: bool, openRoom: bool)
      modifies this
      ensures View() == RelabelM(Carry(old(View()), OnVenueM(old(View()), to), now, closeRoom, openRoom).0, to)
      ensures queued == old(queued) + Carry(old(View()), OnVenueM(old(View()), to), now, closeRoom, openRoom).1
      ensures old(queued) <= queued && exists mid ::
                FoundDoes(old(View()), mid, Since(old(queued)), to, now, closeRoom, openRoom)
                && View() == if mid.pend.kind == PendRotate then mid else mid.(named := to)
    {
      OnVenue(to, now, closeRoom, openRoom);
      ghost var mid := View();
      assert FoundDoes(old(View()), mid, Since(old(queued)), to, now, closeRoom, openRoom);
      if pend.kind == PendRotate {
        return;
      }
      named := to;
    }

    /** session_periodic: `lopen` and `atOpen` are its two loads of the logger's words. */
    method Periodic(now: int, lopen: bool, atOpen: nat, closeRoom: bool, openRoom: bool)
      modifies this
      ensures var m := old(View());
              var i := PeriodicIntent(m, now, lopen, atOpen);
              View() == Carry(m, i, now, closeRoom, openRoom).0
              && queued == old(queued) + Carry(m, i, now, closeRoom, openRoom).1
      ensures old(queued) <= queued &&
              PeriodicDoes(old(View()), View(), Since(old(queued)), now, lopen, atOpen, closeRoom, openRoom)
    {
      if !open {
        return;
      }
      if pend.kind != PendNone {
        if !lopen && confirmed {
          MirrorDrop();
        } else if PendDue(pend.kind, now, lastTry, RETRY_US) {
          CloseAct(PendAct(pend.kind), pend.target, now, closeRoom, openRoom);
        }
        return;
      }
      match SessionLiveness(lopen, atOpen, sent, sendOk, confirmed, now, lastTry, RETRY_US) {
        case LiveDrop => MirrorDrop();
        case LiveRetry => SessionOpen(named, now, openRoom);
        case LiveConfirm => confirmed := true;
        case LiveNone =>
      }
    }
  }
}
