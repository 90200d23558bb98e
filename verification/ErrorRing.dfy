/** components/app/sys/lt_nvs.c: the error ring, its count/at/snapshot walks and its flash copy. */
module ErrorRing {
  import opened Prelude

  const ERR_RING_LEN: nat := 32
  const ERRLOG_MIN_PERSIST_US: int := 5000000
  const LT_RING_VER: nat := 1

  /** A zero code marks an empty slot. */
  datatype Entry = Entry(code: nat, uptime: nat, boot: nat, arg: nat)

  const EMPTY := Entry(0, 0, 0, 0)

  /** `head` is the next slot to write. */
  datatype Ring = Ring(slots: seq<Entry>, head: nat)

  predicate RingOk(r: Ring) { |r.slots| == ERR_RING_LEN && r.head < ERR_RING_LEN }

  function Blank(): Ring { Ring(seq(ERR_RING_LEN, _ => EMPTY), 0) }

  // ---- what a ring holds ----

  /** The slots from the oldest to the newest. */
  function Rotated(r: Ring): (s: seq<Entry>)
    requires RingOk(r)
    ensures |s| == ERR_RING_LEN
  {
    r.slots[r.head..] + r.slots[..r.head]
  }

  function Used(s: seq<Entry>): seq<Entry>
    decreases |s|
  {
    if s == [] then [] else (if s[0].code != 0 then [s[0]] else []) + Used(s[1..])
  }

  /** The entries recorded, oldest first, whatever the slots and the head are. */
  function Contents(r: Ring): seq<Entry>
    requires RingOk(r)
  {
    Used(Rotated(r))
  }

  lemma {:induction false} UsedConcat(a: seq<Entry>, b: seq<Entry>)
    ensures Used(a + b) == Used(a) + Used(b)
    decreases |a|
  {
    if a == [] {
      assert a + b == b;
    } else {
      assert (a + b)[1..] == a[1..] + b;
      UsedConcat(a[1..], b);
    }
  }

  lemma UsedSnoc(a: seq<Entry>, e: Entry)
    ensures Used(a + [e]) == Used(a) + if e.code != 0 then [e] else []
  {
    UsedConcat(a, [e]);
    assert [e][1..] == [];
    assert Used([e][1..]) == [];
  }

  lemma NoneUsed()
    ensures Used([]) == []
  {
  }

  /** Where slot `i` stands among the used ones. */
  lemma UsedAt(s: seq<Entry>, i: nat)
    requires i < |s|
    ensures Used(s[..i + 1]) == Used(s[..i]) + if s[i].code != 0 then [s[i]] else []
    ensures s[i].code != 0 ==> |Used(s[..i])| < |Used(s)| && Used(s)[|Used(s[..i])|] == s[i]
  {
    assert s[..i + 1] == s[..i] + [s[i]];
    UsedSnoc(s[..i], s[i]);
    assert s == s[..i + 1] + s[i + 1..];
    UsedConcat(s[..i + 1], s[i + 1..]);
  }

  lemma {:induction false} UsedAtMost(s: seq<Entry>)
    ensures |Used(s)| <= |s|
    ensures |Used(s)| == |s| <==> forall e <- s :: e.code != 0
    decreases |s|
  {
    if s != [] {
      UsedAtMost(s[1..]);
      assert forall e <- s[1..] :: e in s;
      assert s[0] in s;
      assert s == [s[0]] + s[1..];
    }
  }

  // ---- recording ----

  /** errlog_add of a code that is not a repeat. */
  function Appended(r: Ring, e: Entry): Ring
    requires RingOk(r)
  {
    Ring(r.slots[r.head := e], (r.head + 1) % ERR_RING_LEN)
  }

  function Newest(r: Ring): nat
    requires RingOk(r)
  {
    (r.head + ERR_RING_LEN - 1) % ERR_RING_LEN
  }

  /** errlog_add of a repeat. */
  function Refreshed(r: Ring, uptime: nat, arg: nat): Ring
    requires RingOk(r)
  {
    r.(slots := r.slots[Newest(r) := r.slots[Newest(r)].(uptime := uptime, arg := arg)])
  }

  lemma AppendRotates(r: Ring, e: Entry)
    requires RingOk(r)
    ensures RingOk(Appended(r, e)) && Rotated(Appended(r, e)) == Rotated(r)[1..] + [e]
  {
    var n := Appended(r, e);
    if r.head + 1 < ERR_RING_LEN {
      assert n.slots[n.head..] == r.slots[r.head + 1..];
      assert n.slots[..n.head] == r.slots[..r.head] + [e];
    } else {
      assert n.slots[n.head..] == r.slots[..r.head] + [e];
    }
  }

  lemma NewestIsLast(r: Ring)
    requires RingOk(r)
    ensures Rotated(r)[ERR_RING_LEN - 1] == r.slots[Newest(r)]
  {
  }

  lemma RefreshRotates(r: Ring, uptime: nat, arg: nat)
    requires RingOk(r)
    ensures RingOk(Refreshed(r, uptime, arg))
    ensures var last := ERR_RING_LEN - 1;
            Rotated(Refreshed(r, uptime, arg)) ==
              Rotated(r)[..last] + [Rotated(r)[last].(uptime := uptime, arg := arg)]
  {
    NewestIsLast(r);
  }

  /** Recording a new code appends it, and drops the oldest entry exactly when the slot at the head is
      in use. */
  lemma AppendMeans(r: Ring, e: Entry)
    requires RingOk(r) && e.code != 0
    ensures RingOk(Appended(r, e))
    ensures r.slots[r.head].code == 0 ==> Contents(Appended(r, e)) == Contents(r) + [e]
    ensures r.slots[r.head].code != 0 ==> Contents(r) != [] && Contents(Appended(r, e)) == Contents(r)[1..] + [e]
  {
    AppendRotates(r, e);
    var s := Rotated(r);
    UsedSnoc(s[1..], e);
    assert s[0] == r.slots[r.head];
  }

  /** A repeat changes the newest entry's argument and time and nothing else. */
  lemma RefreshMeans(r: Ring, uptime: nat, arg: nat)
    requires RingOk(r) && r.slots[Newest(r)].code != 0
    ensures RingOk(Refreshed(r, uptime, arg)) && Contents(r) != []
    ensures var c := Contents(r);
            var last := |c| - 1;
            Contents(Refreshed(r, uptime, arg)) == c[..last] + [c[last].(uptime := uptime, arg := arg)]
            && c[last] == r.slots[Newest(r)]
  {
    RefreshRotates(r, uptime, arg);
    NewestIsLast(r);
    var s, last := Rotated(r), ERR_RING_LEN - 1;
    assert s == s[..last] + [s[last]];
    UsedSnoc(s[..last], s[last]);
    UsedSnoc(s[..last], s[last].(uptime := uptime, arg := arg));
  }

  // ---- rings without holes ----

  /** From the oldest slot on: empty ones first, used ones after. Every ring this code builds from an
      empty one is so (RingIsABoundedList); a ring read back from flash need not be. */
  predicate Packed(r: Ring)
    requires RingOk(r)
  {
    forall i, j :: 0 <= i < j < ERR_RING_LEN && Rotated(r)[i].code != 0 ==> Rotated(r)[j].code != 0
  }

  lemma BlankIsPacked()
    ensures RingOk(Blank()) && Packed(Blank()) && Contents(Blank()) == []
  {
    var s := Rotated(Blank());
    assert forall i :: 0 <= i < |s| ==> s[i] == EMPTY;
    AllEmpty(s);
  }

  lemma {:induction false} AllEmpty(s: seq<Entry>)
    requires forall e <- s :: e.code == 0
    ensures Used(s) == []
    decreases |s|
  {
    if s != [] {
      assert forall e <- s[1..] :: e in s;
      assert s[0] in s;
      AllEmpty(s[1..]);
    }
  }

  lemma RecordingKeepsPacked(r: Ring, e: Entry)
    requires RingOk(r) && Packed(r) && e.code != 0
    ensures RingOk(Appended(r, e)) && Packed(Appended(r, e))
    ensures RingOk(Refreshed(r, e.uptime, e.arg)) && Packed(Refreshed(r, e.uptime, e.arg))
  {
    AppendRotates(r, e);
    RefreshRotates(r, e.uptime, e.arg);
    var s, t := Rotated(r), Rotated(Appended(r, e));
    forall i, j | 0 <= i < j < ERR_RING_LEN && t[i].code != 0 ensures t[j].code != 0 {
      if j < ERR_RING_LEN - 1 {
        assert t[i] == s[i + 1] && t[j] == s[j + 1];
      }
    }
  }

  /** On a packed ring, recording is exactly appending to a list that keeps its newest 32. */
  function Bounded(l: seq<Entry>, e: Entry): seq<Entry> {
    if |l| >= ERR_RING_LEN then l[1..] + [e] else l + [e]
  }

  lemma PackedRingIsABoundedList(r: Ring, e: Entry)
    requires RingOk(r) && Packed(r) && e.code != 0
    ensures RingOk(Appended(r, e)) && Contents(Appended(r, e)) == Bounded(Contents(r), e)
  {
    AppendMeans(r, e);
    var s := Rotated(r);
    assert s[0] == r.slots[r.head];
    UsedAtMost(s);
    if s[0].code != 0 {
      assert forall i :: 0 <= i < |s| ==> s[i].code != 0;
    } else {
      assert s[0] in s;
    }
  }

  /** In general recording is bounded append if and only if the head slot is in use exactly when every
      slot is; a ring with a hole behind its head loses an entry early. */
  lemma BoundedListIff(r: Ring, e: Entry)
    requires RingOk(r) && e.code != 0
    ensures RingOk(Appended(r, e))
    ensures Contents(Appended(r, e)) == Bounded(Contents(r), e) <==>
              (r.slots[r.head].code != 0 ==> forall x <- Rotated(r) :: x.code != 0)
  {
    AppendMeans(r, e);
    UsedAtMost(Rotated(r));
    assert Rotated(r)[0] == r.slots[r.head];
    if forall x <- Rotated(r) :: x.code != 0 {
      assert Rotated(r)[0] in Rotated(r);
    }
    assert |Contents(r)[..] + [e]| == |Contents(r)| + 1;
  }

  // ---- the flash copy ----

  /** The stored blob: its size may be wrong, its checksum or version may not match. */
  datatype Image = Image(sizeOk: bool, ver: nat, ring: Ring, crc: nat)

  type Crc = (nat, Ring) -> nat

  function Sealed(f: Crc, r: Ring): Image { Image(true, LT_RING_VER, r, f(LT_RING_VER, r)) }

  /** ring_load, and the head clamp of lt_nvs_init: the ring and the load's result code. */
  function Loaded(f: Crc, flash: Option<Image>): (r: (Ring, int))
    ensures RingOk(r.0)
  {
    match flash
    case None => (Blank(), -4)
    case Some(i) =>
      if !i.sizeOk || |i.ring.slots| != ERR_RING_LEN then (Blank(), -1)
      else if f(i.ver, i.ring) != i.crc then (Blank(), -2)
      else if i.ver != LT_RING_VER then (Blank(), -3)
      else (if i.ring.head >= ERR_RING_LEN then i.ring.(head := 0) else i.ring, 0)
  }

  /** A blob of the right size, with the checksum of what it holds and of this version. */
  predicate ChecksOut(f: Crc, i: Image) {
    i.sizeOk && |i.ring.slots| == ERR_RING_LEN && f(i.ver, i.ring) == i.crc && i.ver == LT_RING_VER
  }

  /** Just such a blob is loaded, its head taken as 0 if it is out of range; any other, or none, reads as
      the empty ring, with the reason as the result. */
  lemma LoadedIff(f: Crc, flash: Option<Image>)
    ensures var (r, rc) := Loaded(f, flash);
            && (rc == 0 <==> flash.Some? && ChecksOut(f, flash.value))
            && (rc == 0 ==> r.slots == flash.value.ring.slots
                            && r.head == if flash.value.ring.head < ERR_RING_LEN then flash.value.ring.head else 0)
            && (rc != 0 ==> r == Blank())
            && (rc == -4 <==> flash.None?)
            && (rc == -3 ==> flash.value.ver != LT_RING_VER)
            && (rc == -2 ==> f(flash.value.ver, flash.value.ring) != flash.value.crc)
  {
  }

  /** A saved ring reads back as it was, whatever its contents and head; a blob that does not check
      out reads back empty. */
  lemma SaveThenLoad(f: Crc, r: Ring)
    requires RingOk(r)
    ensures Loaded(f, Some(Sealed(f, r))) == (r, 0)
    ensures forall i: Image :: !ChecksOut(f, i) ==> Loaded(f, Some(i)).1 != 0 && Loaded(f, Some(i)).0 == Blank()
    ensures forall i: Image :: RingOk(Loaded(f, Some(i)).0)
  {
  }

  /** The same ring but for the newest slot's argument and time. */
  predicate SameButNewest(a: Ring, b: Ring) {
    && RingOk(a) && RingOk(b) && a.head == b.head
    && a.slots[Newest(a)].(uptime := 0, arg := 0) == b.slots[Newest(b)].(uptime := 0, arg := 0)
    && a.slots[Newest(a) := EMPTY] == b.slots[Newest(b) := EMPTY]
  }

  // ---- the log as a value ----

  /** RAM ring, the last code reported since boot or clear, when flash was last written, the flash
      copy, and whether the latest write to flash failed. */
  datatype Log = Log(ring: Ring, last: Option<nat>, persistUs: int, flash: Option<Image>, failed: bool)

  function Persisted(f: Crc, l: Log, now: int, ok: bool): Log {
    Log(l.ring, l.last, now, if ok then Some(Sealed(f, l.ring)) else l.flash, !ok)
  }

  /** The RAM half of errlog_add: a repeat of the last code refreshes the newest slot. */
  function Recorded(l: Log, e: Entry): Log
    requires RingOk(l.ring)
  {
    if l.last == Some(e.code) then l.(ring := Refreshed(l.ring, e.uptime, e.arg))
    else l.(ring := Appended(l.ring, e), last := Some(e.code))
  }

  /** A new code is written to flash at once, a repeat at most every five seconds. */
  predicate Due(l: Log, e: Entry, now: int) {
    l.last != Some(e.code) || now - l.persistUs >= ERRLOG_MIN_PERSIST_US
  }

  /** errlog_add. `ok` is whether the flash write, if one is due, succeeds. */
  function AddedLog(f: Crc, l: Log, e: Entry, now: int, ok: bool): Log
    requires RingOk(l.ring)
  {
    if e.code == 0 then l
    else if Due(l, e, now) then Persisted(f, Recorded(l, e), now, ok)
    else Recorded(l, e)
  }

  function ClearedLog(f: Crc, l: Log, now: int, ok: bool): Log {
    Persisted(f, Log(Blank(), None, l.persistUs, l.flash, l.failed), now, ok)
  }

  /** The dedup state names the newest entry; and, if the latest flash write succeeded, a boot from
      flash now would find the same ring but for the newest entry's argument and time. */
  predicate LogOk(f: Crc, l: Log) {
    && RingOk(l.ring)
    && (l.last.Some? ==> l.last.value != 0 && l.ring.slots[Newest(l.ring)].code == l.last.value)
    && (!l.failed ==> SameButNewest(Loaded(f, l.flash).0, l.ring))
  }

  lemma AddKeepsLogOk(f: Crc, l: Log, e: Entry, now: int, ok: bool)
    requires LogOk(f, l)
    ensures LogOk(f, AddedLog(f, l, e, now, ok))
  {
    if e.code != 0 {
      var n := AddedLog(f, l, e, now, ok);
      SaveThenLoad(f, n.ring);
    }
  }

  lemma ClearKeepsLogOk(f: Crc, l: Log, now: int, ok: bool)
    requires LogOk(f, l)
    ensures LogOk(f, ClearedLog(f, l, now, ok))
  {
    SaveThenLoad(f, Blank());
  }

  /** What a report does to the list of entries: a repeat of the last code refreshes the newest, any
      other code is appended; code zero is refused. */
  lemma AddMeans(f: Crc, l: Log, e: Entry, now: int, ok: bool)
    requires LogOk(f, l)
    ensures var c, n := Contents(l.ring), AddedLog(f, l, e, now, ok);
            RingOk(n.ring) &&
            if e.code == 0 then n == l
            else if l.last == Some(e.code) then
              c != [] && Contents(n.ring) == c[..|c| - 1] + [c[|c| - 1].(uptime := e.uptime, arg := e.arg)]
              && c[|c| - 1].code == e.code
            else if l.ring.slots[l.ring.head].code == 0 then Contents(n.ring) == c + [e]
            else c != [] && Contents(n.ring) == c[1..] + [e]
  {
    if e.code != 0 {
      if l.last == Some(e.code) {
        RefreshMeans(l.ring, e.uptime, e.arg);
      } else {
        AppendMeans(l.ring, e);
      }
    }
  }

  /** A power cut right now loses at most the newest entry's argument and time: the next boot lists
      the same entries otherwise. */
  lemma PowerCutLosesAtMostTheNewestDetail(f: Crc, l: Log)
    requires LogOk(f, l) && !l.failed
    ensures var a, b := Contents(Loaded(f, l.flash).0), Contents(l.ring);
            |a| == |b| && forall i :: 0 <= i < |a| ==>
              if i < |a| - 1 then a[i] == b[i] else a[i].(uptime := 0, arg := 0) == b[i].(uptime := 0, arg := 0)
  {
    var p, q, last := Loaded(f, l.flash).0, l.ring, ERR_RING_LEN - 1;
    var s, t := Rotated(p), Rotated(q);
    NewestIsLast(p);
    NewestIsLast(q);
    forall i | 0 <= i < last ensures s[i] == t[i] {
      var k := if p.head + i < ERR_RING_LEN then p.head + i else p.head + i - ERR_RING_LEN;
      assert s[i] == p.slots[k] && t[i] == q.slots[k] && k != Newest(p);
      assert p.slots[Newest(p) := EMPTY][k] == q.slots[Newest(q) := EMPTY][k];
    }
    assert s[..last] == t[..last];
    assert s == s[..last] + [s[last]] && t == t[..last] + [t[last]];
    UsedSnoc(s[..last], s[last]);
    UsedSnoc(t[..last], t[last]);
  }

  // ---- runs of reports, clears and boots ----

  /** `ok` is whether the flash write, if one is made, succeeds. A boot may come at any time. */
  datatype Event = Report(e: Entry, now: int, ok: bool) | Clear(now: int, ok: bool) | Boot

  /** lt_nvs_init: the RAM ring is what flash holds, and no code has been reported yet. */
  function Booted(f: Crc, flash: Option<Image>): Log { Log(Loaded(f, flash).0, None, 0, flash, false) }

  function After(f: Crc, flash: Option<Image>, es: seq<Event>): (l: Log)
    ensures RingOk(l.ring)
    decreases |es|
  {
    if es == [] then Booted(f, flash)
    else
      var l := After(f, flash, es[..|es| - 1]);
      match es[|es| - 1]
      case Report(e, now, ok) => AddedLog(f, l, e, now, ok)
      case Clear(now, ok) => ClearedLog(f, l, now, ok)
      case Boot => Booted(f, l.flash)
  }

  /** The same log without a ring: the entries, oldest first, what a boot would find of them, the latest
      code and the time of the latest write. */
  datatype History = History(list: seq<Entry>, stored: seq<Entry>, last: Option<nat>, persistUs: int)

  function RefreshLast(l: seq<Entry>, e: Entry): seq<Entry> {
    if l == [] then l else l[..|l| - 1] + [l[|l| - 1].(uptime := e.uptime, arg := e.arg)]
  }

  function Told(h: History, v: Event): History {
    match v
    case Boot => History(h.stored, h.stored, None, 0)
    case Clear(now, ok) => History([], if ok then [] else h.stored, None, now)
    case Report(e, now, ok) =>
      if e.code == 0 then h
      else
        var repeat := h.last == Some(e.code);
        var list := if repeat then RefreshLast(h.list, e) else Bounded(h.list, e);
        if repeat && now - h.persistUs < ERRLOG_MIN_PERSIST_US then h.(list := list)
        else History(list, if ok then list else h.stored, Some(e.code), now)
  }

  function HistoryAfter(start: seq<Entry>, es: seq<Event>): History
    decreases |es|
  {
    if es == [] then History(start, start, None, 0)
    else Told(HistoryAfter(start, es[..|es| - 1]), es[|es| - 1])
  }

  predicate HoldsList(r: Ring, list: seq<Entry>) { RingOk(r) && Packed(r) && Contents(r) == list }

  predicate Agrees(f: Crc, l: Log, h: History) {
    && LogOk(f, l) && HoldsList(l.ring, h.list) && HoldsList(Loaded(f, l.flash).0, h.stored)
    && l.last == h.last && l.persistUs == h.persistUs
  }

  lemma RecordedHolds(f: Crc, l: Log, e: Entry, list: seq<Entry>)
    requires LogOk(f, l) && HoldsList(l.ring, list) && e.code != 0
    ensures HoldsList(Recorded(l, e).ring, if l.last == Some(e.code) then RefreshLast(list, e) else Bounded(list, e))
  {
    RecordingKeepsPacked(l.ring, e);
    if l.last == Some(e.code) {
      RefreshMeans(l.ring, e.uptime, e.arg);
    } else {
      PackedRingIsABoundedList(l.ring, e);
    }
  }

  lemma ReportAgrees(f: Crc, l: Log, h: History, e: Entry, now: int, ok: bool)
    requires Agrees(f, l, h)
    ensures Agrees(f, AddedLog(f, l, e, now, ok), Told(h, Report(e, now, ok)))
  {
    AddKeepsLogOk(f, l, e, now, ok);
    if e.code != 0 {
      RecordedHolds(f, l, e, h.list);
      SaveThenLoad(f, Recorded(l, e).ring);
      hide HoldsList, LogOk, Loaded, Sealed, Bounded, RefreshLast, Refreshed, Appended;
    }
  }

  /** Through any run of reports, clears and boots over a flash copy without holes, whatever writes fail,
      the ring has no holes and lists exactly what a list that keeps its newest 32 entries would hold;
      so does the ring a boot would find. */
  lemma {:induction false} RingIsABoundedList(f: Crc, flash: Option<Image>, es: seq<Event>)
    requires Packed(Loaded(f, flash).0)
    ensures var l, h := After(f, flash, es), HistoryAfter(Contents(Loaded(f, flash).0), es);
            && LogOk(f, l) && Packed(l.ring) && Contents(l.ring) == h.list && l.last == h.last
            && Packed(Loaded(f, l.flash).0) && Contents(Loaded(f, l.flash).0) == h.stored
    decreases |es|
  {
    AgreesAlong(f, flash, es);
  }

  lemma {:induction false} AgreesAlong(f: Crc, flash: Option<Image>, es: seq<Event>)
    requires Packed(Loaded(f, flash).0)
    ensures Agrees(f, After(f, flash, es), HistoryAfter(Contents(Loaded(f, flash).0), es))
    decreases |es|
  {
    if es != [] {
      var most, v := es[..|es| - 1], es[|es| - 1];
      AgreesAlong(f, flash, most);
      var l := After(f, flash, most);
      if v.Report? {
        ReportAgrees(f, l, HistoryAfter(Contents(Loaded(f, flash).0), most), v.e, v.now, v.ok);
      } else if v.Clear? {
        ClearKeepsLogOk(f, l, v.now, v.ok);
        BlankIsPacked();
        SaveThenLoad(f, Blank());
      }
    }
  }

  /** A device whose flash holds no ring, or a blob of the wrong size, checksum or version, starts from the
      empty list. */
  lemma EmptyFlashStartsEmpty(f: Crc, flash: Option<Image>, es: seq<Event>)
    requires flash.Some? ==> !ChecksOut(f, flash.value)
    ensures var l := After(f, flash, es);
            Packed(l.ring) && Contents(l.ring) == HistoryAfter([], es).list && |Contents(l.ring)| <= ERR_RING_LEN
  {
    BlankIsPacked();
    LoadedIff(f, flash);
    hide Packed, After, HistoryAfter, LogOk, Blank, Used;
    RingIsABoundedList(f, flash, es);
    UsedAtMost(Rotated(After(f, flash, es).ring));
  }

  // ---- the walks and the writer, in place ----

  class ErrorLog {
    const entry: array<Entry>
    const crcOf: Crc
    var head: nat
    var last: Option<nat>
    var persistUs: int
    var flash: Option<Image>
    ghost var failed: bool

    ghost function RingNow(): Ring
      reads this, entry
    {
      Ring(entry[..], head)
    }

    ghost function View(): Log
      reads this, entry
    {
      Log(RingNow(), last, persistUs, flash, failed)
    }

    ghost predicate Valid()
      reads this, entry
    {
      LogOk(crcOf, View())
    }

    /** lt_nvs_init's part: the RAM ring is what flash holds, and no code has been reported yet. */
    constructor (f: Crc, stored: Option<Image>)
      ensures crcOf == f && fresh(entry) && Valid()
      ensures View() == Booted(f, stored)
    {
      var r := Loaded(f, stored).0;
      crcOf, head, last, persistUs, flash, failed := f, r.head, None, 0, stored, false;
      entry := new Entry[ERR_RING_LEN](i requires 0 <= i < ERR_RING_LEN => r.slots[i]);
      new;
      assert entry[..] == r.slots;
    }

    method Persist(now: int, ok: bool)
      modifies this`flash, this`persistUs, this`failed
      ensures View() == Persisted(crcOf, old(View()), now, ok)
    {
      if ok {
        flash := Some(Sealed(crcOf, Ring(entry[..], head)));
      }
      failed := !ok;
      persistUs := now;
    }

    method Add(e: Entry, now: int, ok: bool) returns (rc: int)
      requires Valid()
      modifies this`head, this`last, this`flash, this`persistUs, this`failed, entry
      ensures Valid()
      ensures View() == AddedLog(crcOf, old(View()), e, now, ok) && rc == (if e.code == 0 then -1 else 0)
    {
      if e.code == 0 {
        return -1;
      }
      AddKeepsLogOk(crcOf, View(), e, now, ok);
      var same := last == Some(e.code);
      var due := !same || now - persistUs >= ERRLOG_MIN_PERSIST_US;
      Record(e);
      if due {
        Persist(now, ok);
      }
      return 0;
    }

    method Record(e: Entry)
      requires Valid() && e.code != 0
      modifies this`head, this`last, entry
      ensures View() == Recorded(old(View()), e)
    {
      if last == Some(e.code) {
        var newest := (head + ERR_RING_LEN - 1) % ERR_RING_LEN;
        entry[newest] := entry[newest].(uptime := e.uptime, arg := e.arg);
      } else {
        entry[head] := e;
        head := (head + 1) % ERR_RING_LEN;
      }
      last := Some(e.code);
    }

    method Clear(now: int, ok: bool)
      requires Valid()
      modifies this, entry
      ensures Valid() && View() == ClearedLog(crcOf, old(View()), now, ok)
    {
      ClearKeepsLogOk(crcOf, View(), now, ok);
      for i := 0 to ERR_RING_LEN
        invariant forall j :: 0 <= j < i ==> entry[j] == EMPTY
        invariant unchanged(this)
      {
        entry[i] := EMPTY;
      }
      head := 0;
      last := None;
      assert entry[..] == Blank().slots;
      Persist(now, ok);
    }

    method Count() returns (n: nat)
      requires Valid()
      ensures n == |Contents(RingNow())|
    {
      ghost var s := Rotated(RingNow());
      n := 0;
      hide Used;
      NoneUsed();
      for i := 0 to ERR_RING_LEN
        invariant n == |Used(s[..i])|
      {
        assert entry[(head + i) % ERR_RING_LEN] == s[i];
        UsedAt(s, i);
        if entry[(head + i) % ERR_RING_LEN].code != 0 {
          n := n + 1;
        }
      }
      assert s[..ERR_RING_LEN] == s;
    }

    method At(index: int) returns (rc: int, out: Entry)
      requires Valid()
      ensures rc == if 0 <= index < |Contents(RingNow())| then 0 else -1
      ensures rc == 0 ==> out == Contents(RingNow())[index]
    {
      rc, out := -1, EMPTY;
      if index < 0 {
        return;
      }
      ghost var s := Rotated(RingNow());
      var n := 0;
      hide Used;
      NoneUsed();
      for i := 0 to ERR_RING_LEN
        invariant n == |Used(s[..i])| && n <= index
      {
        var e := entry[(head + i) % ERR_RING_LEN];
        assert e == s[i];
        UsedAt(s, i);
        if e.code != 0 {
          if n == index {
            return 0, e;
          }
          n := n + 1;
        }
      }
      assert s[..ERR_RING_LEN] == s;
    }

    /** As many of the oldest entries as `out` has room for. */
    method Snapshot(out: array<Entry>) returns (n: nat)
      requires Valid() && out != entry
      modifies out
      ensures var c := old(Contents(RingNow()));
              n == (if |c| < out.Length then |c| else out.Length) && out[..n] == c[..n]
    {
      ghost var s := Rotated(RingNow());
      n := 0;
      var i := 0;
      hide Used, LogOk;
      NoneUsed();
      while i < ERR_RING_LEN && n < out.Length
        invariant 0 <= i <= ERR_RING_LEN && n <= out.Length
        invariant out[..n] == Used(s[..i])
      {
        assert entry[(head + i) % ERR_RING_LEN] == s[i];
        UsedAt(s, i);
        if entry[(head + i) % ERR_RING_LEN].code != 0 {
          Put(out, n, entry[(head + i) % ERR_RING_LEN]);
          n := n + 1;
        }
        i := i + 1;
      }
      UsedPrefix(s, i);
    }
  }

  method Put(out: array<Entry>, n: nat, e: Entry)
    requires n < out.Length
    modifies out
    ensures out[..n + 1] == old(out[..n]) + [e]
  {
    out[n] := e;
  }

  lemma UsedPrefix(s: seq<Entry>, i: nat)
    requires i <= |s|
    ensures |Used(s[..i])| <= |Used(s)| && Used(s[..i]) == Used(s)[..|Used(s[..i])|]
    ensures i == |s| ==> Used(s[..i]) == Used(s)
  {
    assert s == s[..i] + s[i..];
    UsedConcat(s[..i], s[i..]);
  }
}
