/** components/app/pipeline/session_policy.c: the session protocol's decisions. */
module SessionPolicy {
  import opened Prelude

  datatype Action = ActNone | ActOpen | ActClose | ActReopen
  datatype Input = VenueFound | VenueAnnounce | VenueLost | ModeChange | VenueChanged
  datatype Liveness = LiveNone | LiveConfirm | LiveDrop | LiveRetry
  datatype PendKind = PendNone | PendClose | PendRotate

  function Policy(openNow: bool, i: Input): Action
  {
    match i
    case VenueFound => if openNow then ActNone else ActOpen
    case VenueLost => if openNow then ActClose else ActNone
    case ModeChange => if openNow then ActReopen else ActNone
    case VenueChanged => if openNow then ActReopen else ActOpen
    case VenueAnnounce => ActNone
  }

  function SessionLiveness(loggerOpen: bool, atOpen: nat, sent: nat, sendOk: bool, confirmed: bool,
                           now: int, lastTry: int, interval: int): Liveness
  {
    if loggerOpen then
      if sendOk && !confirmed && atOpen == sent then LiveConfirm else LiveNone
    else if confirmed then LiveDrop
    else if now - lastTry >= interval then LiveRetry else LiveNone
  }

  /** The pending record a close attempt leaves, and whether its OPEN may follow. */
  function CloseOutcome(act: Action, closeSent: bool): (r: (PendKind, bool))
    requires act == ActClose || act == ActReopen
  {
    var rotate := act == ActReopen;
    if closeSent then (PendNone, rotate)
    else (if rotate then PendRotate else PendClose, false)
  }

  function PendAct(p: PendKind): Action
  {
    match p
    case PendRotate => ActReopen
    case PendClose => ActClose
    case PendNone => ActNone
  }

  predicate PendDue(p: PendKind, now: int, lastTry: int, interval: int) {
    p != PendNone && now - lastTry >= interval
  }

  predicate PendCancelsOnFound(p: PendKind, venue: U16, pendVenue: U16) {
    p == PendClose || (p == PendRotate && pendVenue != venue)
  }

  /** A close that could not be sent is remembered as the very action to take again, and its OPEN
      never runs ahead of it. */
  lemma PendingReplaysTheAction(act: Action, closeSent: bool)
    requires act == ActClose || act == ActReopen
    ensures var (p, post) := CloseOutcome(act, closeSent);
            if closeSent then p == PendNone && post == (act == ActReopen)
            else PendAct(p) == act && !post
  {
  }
}
