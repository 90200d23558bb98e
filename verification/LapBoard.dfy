/** The lap board of components/app/pipeline/pipeline.c: a ring of the newest laps and a record of
    bests behind a sequence lock. One writer, the pipeline task, stores word by word inside
    seq_enter/seq_leave; a reader copies word by word and keeps only a copy whose sequence number was
    even and did not move. */
module LapBoard {
  import opened Prelude

  const PIPE_LAPS_KEEP: nat := 24

  type Lap = seq<int>

  // ---- memory, one word at a time ----

  datatype Addr = TotalAt | LapAt(slot: nat, word: nat) | RestAt(i: nat)
  datatype Mem = Mem(total: nat, laps: seq<Lap>, rest: seq<int>)

  predicate Shape(m: Mem, w: nat) {
    m.total < TWO_32 && |m.laps| == PIPE_LAPS_KEEP && forall l <- m.laps :: |l| == w
  }

  predicate Has(m: Mem, a: Addr) {
    match a
    case TotalAt => true
    case LapAt(j, i) => j < |m.laps| && i < |m.laps[j]|
    case RestAt(i) => i < |m.rest|
  }

  function Get(m: Mem, a: Addr): int
    requires Has(m, a)
  {
    match a
    case TotalAt => m.total
    case LapAt(j, i) => m.laps[j][i]
    case RestAt(i) => m.rest[i]
  }

  datatype Store = StoreTotal(total: nat) | StoreLap(slot: nat, word: nat, value: int) | StoreRest(i: nat, v: int)

  predicate CanStore(m: Mem, x: Store) {
    match x
    case StoreTotal(_) => true
    case StoreLap(j, i, _) => j < |m.laps| && i < |m.laps[j]|
    case StoreRest(i, _) => i < |m.rest|
  }

  function Stored(m: Mem, x: Store): Mem {
    if !CanStore(m, x) then m
    else match x
      case StoreTotal(t) => m.(total := t)
      case StoreLap(j, i, v) => m.(laps := m.laps[j := m.laps[j][i := v]])
      case StoreRest(i, v) => m.(rest := m.rest[i := v])
  }

  function AllStored(m: Mem, xs: seq<Store>): Mem
    decreases |xs|
  {
    if xs == [] then m else AllStored(Stored(m, xs[0]), xs[1..])
  }

  // ---- write sections ----

  /** What one write section does: complete a lap (and refresh the bests), or touch only the bests or
      the drag snapshot. */
  datatype Section = LapDone(lap: Lap, rest: seq<Store>) | RestOnly(rest: seq<Store>)

  predicate SectionOk(c: Section, w: nat) {
    (c.LapDone? ==> |c.lap| == w) && forall x <- c.rest :: x.StoreRest?
  }

  function LapStores(slot: nat, lap: Lap, i: nat): seq<Store>
    requires i <= |lap|
    decreases |lap| - i
  {
    if i == |lap| then [] else [StoreLap(slot, i, lap[i])] + LapStores(slot, lap, i + 1)
  }

  /** The stores of a section in program order: the slot at total % KEEP, then the total, then the
      rest. */
  function Stores(m: Mem, c: Section): seq<Store> {
    match c
    case LapDone(lap, rest) =>
      LapStores(SlotOf(m.total), lap, 0) + ([StoreTotal((m.total + 1) % TWO_32)] + rest)
    case RestOnly(rest) => rest
  }

  lemma {:induction false} AllStoredConcat(m: Mem, a: seq<Store>, b: seq<Store>)
    ensures AllStored(m, a + b) == AllStored(AllStored(m, a), b)
    decreases |a|
  {
    if a == [] {
      assert a + b == b;
    } else {
      assert (a + b)[1..] == a[1..] + b;
      AllStoredConcat(Stored(m, a[0]), a[1..], b);
    }
  }

  lemma {:induction false} RestStoresKeepLaps(m: Mem, xs: seq<Store>)
    requires forall x <- xs :: x.StoreRest?
    ensures AllStored(m, xs).total == m.total && AllStored(m, xs).laps == m.laps
    decreases |xs|
  {
    if xs != [] {
      assert xs[0] in xs && forall x <- xs[1..] :: x in xs;
      RestStoresKeepLaps(Stored(m, xs[0]), xs[1..]);
    }
  }

  lemma {:induction false} LapStoresFillTheSlot(m: Mem, slot: nat, lap: Lap, i: nat)
    requires slot < |m.laps| && |m.laps[slot]| == |lap| && i <= |lap| && m.laps[slot][..i] == lap[..i]
    ensures AllStored(m, LapStores(slot, lap, i)) == m.(laps := m.laps[slot := lap])
    decreases |lap| - i
  {
    if i == |lap| {
      assert m.laps[slot] == lap;
      assert m.laps[slot := lap] == m.laps;
    } else {
      var x := StoreLap(slot, i, lap[i]);
      var n := Stored(m, x);
      assert LapStores(slot, lap, i)[1..] == LapStores(slot, lap, i + 1);
      assert n.laps[slot][..i + 1] == lap[..i + 1] by {
        assert n.laps[slot][..i] == m.laps[slot][..i];
      }
      LapStoresFillTheSlot(n, slot, lap, i + 1);
      assert n.laps[slot := lap] == m.laps[slot := lap];
    }
  }

  // ---- the ring against the list of all laps ----

  /** How many laps the board shows for a total as stored. */
  function Shown(total: nat): nat { if total < PIPE_LAPS_KEEP then total else PIPE_LAPS_KEEP }

  function SlotOf(n: nat): nat { n % PIPE_LAPS_KEEP }

  predicate NewestInSlots(m: Mem, h: seq<Lap>)
    requires |m.laps| == PIPE_LAPS_KEEP
  {
    && m.total <= |h|
    && forall k :: |h| - Shown(m.total) <= k < |h| ==> m.laps[SlotOf(m.total - (|h| - k))] == h[k]
  }

  /** The board after the laps `h`: the 32-bit total, and the newest shown laps in their slots. */
  predicate RingOf(m: Mem, h: seq<Lap>, w: nat) {
    && Shape(m, w)
    && m.total == |h| % TWO_32
    && NewestInSlots(m, h)
  }

  function LapsAfter(h: seq<Lap>, c: Section): seq<Lap> { if c.LapDone? then h + [c.lap] else h }

  lemma SlotsApart(total: nat, d: nat)
    requires 1 <= d <= total && d < PIPE_LAPS_KEEP
    ensures SlotOf(total - d) != SlotOf(total)
  {
  }

  lemma LapEffect(m: Mem, lap: Lap, rest: seq<Store>)
    requires |m.laps| == PIPE_LAPS_KEEP && |m.laps[SlotOf(m.total)]| == |lap|
    requires forall x <- rest :: x.StoreRest?
    ensures var n := AllStored(m, Stores(m, LapDone(lap, rest)));
            n.total == (m.total + 1) % TWO_32 && n.laps == m.laps[SlotOf(m.total) := lap]
  {
    var slot, total := SlotOf(m.total), StoreTotal((m.total + 1) % TWO_32);
    AllStoredConcat(m, LapStores(slot, lap, 0), [total] + rest);
    LapStoresFillTheSlot(m, slot, lap, 0);
    var n := m.(laps := m.laps[slot := lap]);
    assert ([total] + rest)[1..] == rest;
    RestStoresKeepLaps(Stored(n, total), rest);
  }

  lemma SectionEffect(m: Mem, c: Section, w: nat)
    requires Shape(m, w) && SectionOk(c, w)
    ensures var n := AllStored(m, Stores(m, c));
            Shape(n, w)
            && n.total == (if c.LapDone? then (m.total + 1) % TWO_32 else m.total)
            && n.laps == (if c.LapDone? then m.laps[SlotOf(m.total) := c.lap] else m.laps)
  {
    if c.LapDone? {
      assert m.laps[SlotOf(m.total)] in m.laps;
      LapEffect(m, c.lap, c.rest);
    } else {
      RestStoresKeepLaps(m, c.rest);
    }
  }

  lemma SectionKeepsRing(m: Mem, c: Section, h: seq<Lap>, w: nat)
    requires RingOf(m, h, w) && SectionOk(c, w)
    ensures RingOf(AllStored(m, Stores(m, c)), LapsAfter(h, c), w)
  {
    var n := AllStored(m, Stores(m, c));
    SectionEffect(m, c, w);
    if c.LapDone? {
      LapKeepsRing(m, n, c.lap, h, w);
    }
  }

  lemma LapKeepsRing(m: Mem, n: Mem, lap: Lap, h: seq<Lap>, w: nat)
    requires RingOf(m, h, w) && Shape(n, w)
    requires n.total == (m.total + 1) % TWO_32 && n.laps == m.laps[SlotOf(m.total) := lap]
    ensures RingOf(n, h + [lap], w)
  {
    if m.total + 1 < TWO_32 {
      LapKeepsNewest(m, n, lap, h);
    }
  }

  /** The new lap's slot is none of those still shown. */
  lemma LapKeepsNewest(m: Mem, n: Mem, lap: Lap, h: seq<Lap>)
    requires |m.laps| == PIPE_LAPS_KEEP && NewestInSlots(m, h)
    requires n.total == m.total + 1 && n.laps == m.laps[SlotOf(m.total) := lap]
    ensures NewestInSlots(n, h + [lap])
  {
    var h' := h + [lap];
    forall k | |h'| - Shown(n.total) <= k < |h'| ensures n.laps[SlotOf(n.total - (|h'| - k))] == h'[k] {
      if k < |h| {
        var d := |h| - k;
        SlotsApart(m.total, d);
        assert n.total - (|h'| - k) == m.total - d;
        assert m.laps[SlotOf(m.total - d)] == h[k];
      }
    }
  }

  // ---- the interleaved system ----

  /** An attempt of the reader: the number it loaded first, the true count of enters and leaves then,
      and the words copied so far; then, after the second load, whether it was accepted. */
  datatype Reader =
    | Outside
    | Copying(seq0: nat, start: nat, log: seq<(Addr, int)>)
    | Accepted(start: nat, lapse: int, log: seq<(Addr, int)>)

  /** `gen` counts every enter and leave since boot; the 32-bit sequence number is its low part.
      `pubs` are the boards as they stood after each section, `hist` the laps completed by then. */
  datatype Sys = Sys(w: nat, gen: nat, mem: Mem, now: Section, todo: seq<Store>,
                     pubs: seq<Mem>, hist: seq<seq<Lap>>, rd: Reader)

  datatype Move = Enter(c: Section) | DoStore | Leave | Load0 | Copy(a: Addr) | Load1

  function SeqNo(s: Sys): nat { s.gen % TWO_32 }

  predicate Enabled(s: Sys, m: Move) {
    match m
    case Enter(c) => s.gen % 2 == 0 && SectionOk(c, s.w)
    case DoStore => s.gen % 2 == 1 && s.todo != []
    case Leave => s.gen % 2 == 1 && s.todo == [] && s.hist != []
    case Load0 => true
    case Copy(a) => s.rd.Copying? && Has(s.mem, a)
    case Load1 => s.rd.Copying?
  }

  function Next(s: Sys, m: Move): Sys
    requires Enabled(s, m)
  {
    match m
    case Enter(c) => s.(gen := s.gen + 1, now := c, todo := Stores(s.mem, c))
    case DoStore => s.(mem := Stored(s.mem, s.todo[0]), todo := s.todo[1..])
    case Leave =>
      s.(gen := s.gen + 1, pubs := s.pubs + [s.mem], hist := s.hist + [LapsAfter(s.hist[|s.hist| - 1], s.now)])
    case Load0 => s.(rd := if SeqNo(s) % 2 == 1 then Outside else Copying(SeqNo(s), s.gen, []))
    case Copy(a) => s.(rd := Copying(s.rd.seq0, s.rd.start, s.rd.log + [(a, Get(s.mem, a))]))
    case Load1 =>
      s.(rd := if SeqNo(s) == s.rd.seq0 then Accepted(s.rd.start, s.gen - s.rd.start, s.rd.log) else Outside)
  }

  predicate Run(s: Sys, ms: seq<Move>)
    decreases |ms|
  {
    ms == [] || (Enabled(s, ms[0]) && Run(Next(s, ms[0]), ms[1..]))
  }

  function After(s: Sys, ms: seq<Move>): Sys
    requires Run(s, ms)
    decreases |ms|
  {
    if ms == [] then s else After(Next(s, ms[0]), ms[1..])
  }

  function Boot(w: nat, rest: seq<int>): Sys {
    var m := Mem(0, seq(PIPE_LAPS_KEEP, _ => seq(w, _ => 0)), rest);
    Sys(w, 0, m, RestOnly([]), [], [m], [[]], Outside)
  }

  // ---- the invariant ----

  predicate FromRecord(log: seq<(Addr, int)>, m: Mem) {
    forall x <- log :: Has(m, x.0) && x.1 == Get(m, x.0)
  }

  predicate Records(s: Sys) {
    && |s.pubs| == |s.hist| == s.gen / 2 + 1
    && (forall k :: 0 <= k < |s.pubs| ==> RingOf(s.pubs[k], s.hist[k], s.w))
    && (s.gen % 2 == 0 ==> s.mem == s.pubs[s.gen / 2])
    && (s.gen % 2 == 1 ==>
          && SectionOk(s.now, s.w)
          && AllStored(s.mem, s.todo) == AllStored(s.pubs[s.gen / 2], Stores(s.pubs[s.gen / 2], s.now)))
  }

  predicate Reading(s: Sys) {
    match s.rd
    case Outside => true
    case Copying(seq0, start, log) =>
      && start <= s.gen && start % 2 == 0 && seq0 == start % TWO_32
      && (s.gen == start ==> FromRecord(log, s.mem))
    case Accepted(start, lapse, log) =>
      && start % 2 == 0 && 0 <= lapse && start + lapse <= s.gen && lapse % TWO_32 == 0
      && (lapse == 0 ==> start / 2 < |s.pubs| && FromRecord(log, s.pubs[start / 2]))
  }

  predicate Inv(s: Sys) { Records(s) && Reading(s) }

  lemma WriterKeeps(s: Sys, m: Move)
    requires Inv(s) && Enabled(s, m) && (m.Enter? || m.DoStore? || m.Leave?)
    ensures Records(Next(s, m))
  {
    var t := Next(s, m);
    if m.Leave? {
      var k := s.gen / 2;
      assert s.mem == AllStored(s.pubs[k], Stores(s.pubs[k], s.now));
      SectionKeepsRing(s.pubs[k], s.now, s.hist[k], s.w);
      assert t.gen / 2 == k + 1;
    }
  }

  lemma EqualNumbers(a: nat, b: nat)
    requires a <= b && a % TWO_32 == b % TWO_32
    ensures (b - a) % TWO_32 == 0
  {
  }

  lemma AcceptKeeps(s: Sys)
    requires Inv(s) && Enabled(s, Load1)
    ensures Reading(Next(s, Load1))
  {
    hide RingOf, Stores, AllStored, SectionOk;
    if SeqNo(s) == s.rd.seq0 {
      EqualNumbers(s.rd.start, s.gen);
    }
  }

  lemma CopyKeeps(s: Sys, a: Addr)
    requires Reading(s) && Enabled(s, Copy(a))
    ensures Reading(Next(s, Copy(a)))
  {
    var t := Next(s, Copy(a));
    hide Has, Get;
    if s.gen == s.rd.start {
      assert forall x <- t.rd.log :: x in s.rd.log || x == (a, Get(s.mem, a));
    }
  }

  lemma ReadingKeeps(s: Sys, m: Move)
    requires Inv(s) && Enabled(s, m)
    ensures Reading(Next(s, m))
  {
    hide RingOf, Stores, AllStored;
    match m {
      case Load1 => AcceptKeeps(s);
      case Copy(a) => CopyKeeps(s, a);
      case _ => hide FromRecord;
    }
  }

  lemma NextKeeps(s: Sys, m: Move)
    requires Inv(s) && Enabled(s, m)
    ensures Inv(Next(s, m))
  {
    ReadingKeeps(s, m);
    if m.Enter? || m.DoStore? || m.Leave? {
      WriterKeeps(s, m);
    }
  }

  lemma BootOk(w: nat, rest: seq<int>)
    ensures Inv(Boot(w, rest))
  {
    var m := Boot(w, rest).mem;
    assert forall l <- m.laps :: |l| == w;
  }

  lemma {:induction false} RunKeeps(s: Sys, ms: seq<Move>)
    requires Inv(s) && Run(s, ms)
    ensures Inv(After(s, ms))
    decreases |ms|
  {
    if ms != [] {
      NextKeeps(s, ms[0]);
      RunKeeps(Next(s, ms[0]), ms[1..]);
    }
  }

  // ---- what happens undisturbed ----

  lemma {:induction false} RunConcat(s: Sys, a: seq<Move>, b: seq<Move>)
    requires Run(s, a) && Run(After(s, a), b)
    ensures Run(s, a + b) && After(s, a + b) == After(After(s, a), b)
    decreases |a|
  {
    if a == [] {
      assert a + b == b;
    } else {
      assert (a + b)[1..] == a[1..] + b;
      RunConcat(Next(s, a[0]), a[1..], b);
    }
  }

  /** One move after a run. */
  lemma Then(s: Sys, ms: seq<Move>, m: Move)
    requires Run(s, ms) && Enabled(After(s, ms), m)
    ensures Run(s, ms + [m]) && After(s, ms + [m]) == Next(After(s, ms), m)
  {
    assert [m][1..] == [];
    assert Run(After(s, ms), [m]) && After(After(s, ms), [m]) == Next(After(s, ms), m);
    RunConcat(s, ms, [m]);
  }

  lemma {:induction false} AllStores(s: Sys, n: nat) returns (ms: seq<Move>)
    requires s.gen % 2 == 1 && n <= |s.todo|
    ensures Run(s, ms)
    ensures var u := After(s, ms);
            && u == s.(mem := u.mem, todo := s.todo[n..])
            && AllStored(u.mem, u.todo) == AllStored(s.mem, s.todo)
    decreases n
  {
    if n == 0 {
      ms := [];
    } else {
      ms := AllStores(s, n - 1);
      Then(s, ms, DoStore);
      ms := ms + [DoStore];
    }
  }

  lemma StoresDone(s: Sys) returns (ms: seq<Move>)
    requires s.gen % 2 == 1
    ensures Run(s, ms) && After(s, ms) == s.(mem := AllStored(s.mem, s.todo), todo := [])
  {
    ms := AllStores(s, |s.todo|);
    assert s.todo[|s.todo|..] == [];
  }

  lemma OneMore(s: Sys, m: Move, ms: seq<Move>)
    requires Enabled(s, m) && Run(Next(s, m), ms)
    ensures Run(s, [m] + ms) && After(s, [m] + ms) == After(Next(s, m), ms)
  {
    assert ([m] + ms)[1..] == ms;
  }

  lemma SectionStored(s: Sys, c: Section) returns (ms: seq<Move>)
    requires s.gen % 2 == 0 && SectionOk(c, s.w)
    ensures Run(s, ms) && |ms| > 0 && ms[0] == Enter(c)
    ensures After(s, ms) == s.(gen := s.gen + 1, now := c, mem := AllStored(s.mem, Stores(s.mem, c)), todo := [])
  {
    hide Stores, AllStored, SectionOk, Run, After;
    ms := StoresDone(Next(s, Enter(c)));
    OneMore(s, Enter(c), ms);
    ms := [Enter(c)] + ms;
  }

  lemma NewestBoard(s: Sys, c: Section)
    requires Inv(s) && s.gen % 2 == 0 && SectionOk(c, s.w) && s.hist != []
    ensures RingOf(AllStored(s.mem, Stores(s.mem, c)), LapsAfter(s.hist[|s.hist| - 1], c), s.w)
  {
    SectionKeepsRing(s.mem, c, s.hist[|s.hist| - 1], s.w);
  }

  /** While a section lasts the number is odd, so an attempt begun then is never accepted. */
  lemma SectionIsOdd(s: Sys, c: Section)
    requires s.gen % 2 == 0 && SectionOk(c, s.w)
    ensures Enabled(s, Enter(c)) && SeqNo(Next(s, Enter(c))) % 2 == 1
    ensures Next(Next(s, Enter(c)), Load0).rd == Outside
  {
  }

  lemma LeaveStep(s: Sys)
    requires s.gen % 2 == 1 && s.todo == [] && s.hist != []
    ensures Enabled(s, Leave)
    ensures Next(s, Leave) ==
            s.(gen := s.gen + 1, pubs := s.pubs + [s.mem], hist := s.hist + [LapsAfter(s.hist[|s.hist| - 1], s.now)])
  {
  }

  function Published(s: Sys, c: Section, m: Mem): Sys
    requires s.hist != []
  {
    s.(gen := s.gen + 2, now := c, mem := m, todo := [], pubs := s.pubs + [m],
       hist := s.hist + [LapsAfter(s.hist[|s.hist| - 1], c)])
  }

  /** A section carried through publishes the board of the laps with the new one, and the number is two
      higher after it. */
  lemma SectionCompletes(s: Sys, c: Section) returns (ms: seq<Move>, m: Mem)
    requires Inv(s) && s.gen % 2 == 0 && SectionOk(c, s.w) && s.hist != []
    ensures Run(s, ms) && ms != [] && ms[0] == Enter(c) && After(s, ms) == Published(s, c, m)
    ensures RingOf(m, LapsAfter(s.hist[|s.hist| - 1], c), s.w)
  {
    NewestBoard(s, c);
    hide Inv, RingOf, AllStored, Stores, SectionOk, Run, After;
    m := AllStored(s.mem, Stores(s.mem, c));
    ms := SectionStored(s, c);
    Finished(s, c, ms);
    ms := ms + [Leave];
  }

  lemma Finished(s: Sys, c: Section, ms: seq<Move>)
    requires s.gen % 2 == 0 && s.hist != [] && Run(s, ms)
    requires After(s, ms) == s.(gen := s.gen + 1, now := c, mem := AllStored(s.mem, Stores(s.mem, c)), todo := [])
    ensures Run(s, ms + [Leave]) && After(s, ms + [Leave]) == Published(s, c, AllStored(s.mem, Stores(s.mem, c)))
  {
    hide Stores, AllStored, Run, After, LapsAfter, Next, Enabled;
    LeaveStep(After(s, ms));
    Then(s, ms, Leave);
  }

  predicate HasAll(m: Mem, at: seq<Addr>) { forall k :: 0 <= k < |at| ==> Has(m, at[k]) }

  function Copies(m: Mem, at: seq<Addr>): seq<(Addr, int)>
    requires HasAll(m, at)
  {
    seq(|at|, k requires 0 <= k < |at| => (at[k], Get(m, at[k])))
  }

  lemma {:induction false} AllCopied(s: Sys, at: seq<Addr>) returns (ms: seq<Move>)
    requires s.rd.Copying? && HasAll(s.mem, at)
    ensures Run(s, ms) && After(s, ms) == s.(rd := Copying(s.rd.seq0, s.rd.start, s.rd.log + Copies(s.mem, at)))
    decreases |at|
  {
    if at == [] {
      ms := [];
      assert s.rd.log + Copies(s.mem, at) == s.rd.log;
    } else {
      var a := at[|at| - 1];
      ms := AllCopied(s, at[..|at| - 1]);
      Then(s, ms, Copy(a));
      ms := ms + [Copy(a)];
      assert s.rd.log + Copies(s.mem, at[..|at| - 1]) + [(a, Get(s.mem, a))] == s.rd.log + Copies(s.mem, at);
    }
  }

  /** A read between two sections, whatever words it copies, is accepted, and what it copied is the board. */
  lemma QuietReadIsAccepted(s: Sys, at: seq<Addr>) returns (ms: seq<Move>)
    requires s.gen % 2 == 0 && HasAll(s.mem, at)
    ensures Run(s, ms) && After(s, ms) == s.(rd := Accepted(s.gen, 0, Copies(s.mem, at)))
  {
    Then(s, [], Load0);
    var s1 := Next(s, Load0);
    var copies := AllCopied(s1, at);
    RunConcat(s, [] + [Load0], copies);
    ms := [] + [Load0] + copies;
    Then(s, ms, Load1);
    ms := ms + [Load1];
    assert [] + Copies(s.mem, at) == Copies(s.mem, at);
  }

  // ---- the theorems ----

  /** Over every interleaving: unless the writer went through a whole round of 2^31 sections during
      the one attempt, every word of an accepted copy comes from one and the same published board. */
  lemma AcceptedCopiesAreNotMixed(w: nat, rest: seq<int>, ms: seq<Move>)
    requires Run(Boot(w, rest), ms)
    requires var s := After(Boot(w, rest), ms); s.rd.Accepted? && s.rd.lapse < TWO_32
    ensures var s := After(Boot(w, rest), ms);
            var k := s.rd.start / 2;
            k < |s.pubs| == |s.hist| && FromRecord(s.rd.log, s.pubs[k]) && RingOf(s.pubs[k], s.hist[k], w)
  {
    BootOk(w, rest);
    RunKeeps(Boot(w, rest), ms);
    WidthStays(Boot(w, rest), ms);
  }

  lemma {:induction false} WidthStays(s: Sys, ms: seq<Move>)
    requires Run(s, ms)
    ensures After(s, ms).w == s.w
    decreases |ms|
  {
    if ms != [] {
      WidthStays(Next(s, ms[0]), ms[1..]);
    }
  }

  /** The words pipeline_lap_at copies: the total, then, if the index is shown, the words of one slot. */
  predicate LapAtLog(log: seq<(Addr, int)>, index: nat, w: nat, out: Option<Lap>) {
    && log != [] && log[0].0 == TotalAt && log[0].1 >= 0
    && var total := log[0].1;
       if index < Shown(total) then
         && |log| == 1 + w
         && out.Some? && |out.value| == w
         && forall i :: 0 <= i < w ==>
              log[1 + i] == (LapAt(SlotOf(total - Shown(total) + index), i), out.value[i])
       else out.None?
  }

  lemma LapAtOnRecord(m: Mem, h: seq<Lap>, w: nat, log: seq<(Addr, int)>, index: nat, out: Option<Lap>)
    requires RingOf(m, h, w) && FromRecord(log, m) && LapAtLog(log, index, w, out)
    ensures var n := Shown(|h| % TWO_32);
            out == if index < n then Some(h[|h| - n + index]) else None
  {
    assert log[0] in log;
    var n := Shown(m.total);
    if index < n {
      var k := |h| - n + index;
      var slot := SlotOf(m.total - (|h| - k));
      assert m.total - n + index == m.total - (|h| - k);
      assert m.laps[slot] == h[k] && m.laps[slot] in m.laps;
      SameLap(log, 1, m, slot, w, out.value);
    }
  }

  lemma SameLap(log: seq<(Addr, int)>, at: nat, m: Mem, slot: nat, w: nat, lap: Lap)
    requires FromRecord(log, m) && |log| >= at + w && |lap| == w && slot < |m.laps| && |m.laps[slot]| == w
    requires forall i :: 0 <= i < w ==> log[at + i] == (LapAt(slot, i), lap[i])
    ensures lap == m.laps[slot]
  {
    forall i | 0 <= i < w ensures lap[i] == m.laps[slot][i] {
      assert log[at + i] in log;
    }
  }

  /** An accepted lap_at(index) is lap number total - n + index of the laps completed when the read
      began, n being how many the board shows; past n it is nothing. */
  lemma LapAtIsTheLap(w: nat, rest: seq<int>, ms: seq<Move>, index: nat, out: Option<Lap>)
    requires Run(Boot(w, rest), ms)
    requires var s := After(Boot(w, rest), ms);
             s.rd.Accepted? && s.rd.lapse < TWO_32 && LapAtLog(s.rd.log, index, w, out)
    ensures var s := After(Boot(w, rest), ms);
            s.rd.start / 2 < |s.hist| &&
            var h := s.hist[s.rd.start / 2];
            var n := Shown(|h| % TWO_32);
            out == if index < n then Some(h[|h| - n + index]) else None
  {
    AcceptedCopiesAreNotMixed(w, rest, ms);
    var s := After(Boot(w, rest), ms);
    var k := s.rd.start / 2;
    LapAtOnRecord(s.pubs[k], s.hist[k], w, s.rd.log, index, out);
  }

  /** The words pipeline_laps_snapshot copies after the total: slot by slot from `from` on. */
  predicate SlotsLog(log: seq<(Addr, int)>, from: nat, w: nat, out: seq<Lap>)
    decreases |out|
  {
    if out == [] then log == []
    else
      && |log| >= w && |out[0]| == w
      && (forall i :: 0 <= i < w ==> log[i] == (LapAt(SlotOf(from), i), out[0][i]))
      && SlotsLog(log[w..], from + 1, w, out[1..])
  }

  predicate SnapshotLog(log: seq<(Addr, int)>, max: nat, w: nat, out: seq<Lap>) {
    && log != [] && log[0].0 == TotalAt && log[0].1 >= |out|
    && |out| == (if max < Shown(log[0].1) then max else Shown(log[0].1))
    && SlotsLog(log[1..], log[0].1 - |out|, w, out)
  }

  lemma FirstSlotOnRecord(m: Mem, w: nat, log: seq<(Addr, int)>, from: nat, out: seq<Lap>)
    requires Shape(m, w) && FromRecord(log, m) && SlotsLog(log, from, w, out) && out != []
    ensures out[0] == m.laps[SlotOf(from)]
    ensures |log| >= w && FromRecord(log[w..], m) && SlotsLog(log[w..], from + 1, w, out[1..])
  {
    assert m.laps[SlotOf(from)] in m.laps;
    SameLap(log, 0, m, SlotOf(from), w, out[0]);
    assert forall x <- log[w..] :: x in log;
  }

  /** The laps in the slots from `from` on. */
  function LapsFrom(m: Mem, from: nat, n: nat): (r: seq<Lap>)
    requires |m.laps| == PIPE_LAPS_KEEP
    ensures |r| == n && forall i :: 0 <= i < n ==> r[i] == m.laps[SlotOf(from + i)]
  {
    seq(n, i requires 0 <= i => m.laps[SlotOf(from + i)])
  }

  lemma LapsFromStep(m: Mem, from: nat, n: nat)
    requires |m.laps| == PIPE_LAPS_KEEP && n > 0
    ensures LapsFrom(m, from, n) == [m.laps[SlotOf(from)]] + LapsFrom(m, from + 1, n - 1)
  {
  }

  lemma {:induction false} SlotsOnRecord(m: Mem, w: nat, log: seq<(Addr, int)>, from: nat, out: seq<Lap>)
    requires Shape(m, w) && FromRecord(log, m) && SlotsLog(log, from, w, out)
    ensures out == LapsFrom(m, from, |out|)
    decreases |out|
  {
    if out != [] {
      FirstSlotOnRecord(m, w, log, from, out);
      SlotsOnRecord(m, w, log[w..], from + 1, out[1..]);
      LapsFromStep(m, from, |out|);
      assert out == [out[0]] + out[1..];
    }
  }

  lemma SnapshotOnRecord(m: Mem, h: seq<Lap>, w: nat, log: seq<(Addr, int)>, max: nat, out: seq<Lap>)
    requires RingOf(m, h, w) && FromRecord(log, m) && SnapshotLog(log, max, w, out)
    ensures var n := Shown(|h| % TWO_32);
            |out| == (if max < n then max else n) && |out| <= |h| && out == h[|h| - |out|..]
  {
    assert log[0] in log;
    assert forall x <- log[1..] :: x in log;
    var from := m.total - |out|;
    SlotsOnRecord(m, w, log[1..], from, out);
    ShownAreNewest(m, h, w, |out|);
  }

  /** An accepted snapshot of at most `max` laps is the newest of the laps completed when the read
      began, oldest first: as many as the board shows, or `max` if that is fewer. With room for all of
      them, position i is therefore the very lap lap_at(i) gives. */
  lemma SnapshotIsTheNewest(w: nat, rest: seq<int>, ms: seq<Move>, max: nat, out: seq<Lap>)
    requires Run(Boot(w, rest), ms)
    requires var s := After(Boot(w, rest), ms);
             s.rd.Accepted? && s.rd.lapse < TWO_32 && SnapshotLog(s.rd.log, max, w, out)
    ensures var s := After(Boot(w, rest), ms);
            s.rd.start / 2 < |s.hist| &&
            var h := s.hist[s.rd.start / 2];
            var n := Shown(|h| % TWO_32);
            |out| == (if max < n then max else n) && |out| <= |h| && out == h[|h| - |out|..]
  {
    AcceptedCopiesAreNotMixed(w, rest, ms);
    var s := After(Boot(w, rest), ms);
    var k := s.rd.start / 2;
    SnapshotOnRecord(s.pubs[k], s.hist[k], w, s.rd.log, max, out);
  }

  function WordAddrs(slot: nat, w: nat): seq<Addr> { seq(w, i requires 0 <= i => LapAt(slot, i)) }

  lemma WordsAreRead(m: Mem, slot: nat, w: nat)
    requires Shape(m, w) && slot < PIPE_LAPS_KEEP
    ensures |m.laps[slot]| == w && HasAll(m, WordAddrs(slot, w))
    ensures var log := Copies(m, WordAddrs(slot, w)); |log| == w && forall i :: 0 <= i < w ==> log[i] == (LapAt(slot, i), m.laps[slot][i])
  {
    assert m.laps[slot] in m.laps;
  }

  lemma CopiesConcat(m: Mem, a: seq<Addr>, b: seq<Addr>)
    requires HasAll(m, a) && HasAll(m, b)
    ensures HasAll(m, a + b) && Copies(m, a + b) == Copies(m, a) + Copies(m, b)
  {
  }

  function SlotAddrs(from: nat, n: nat, w: nat): seq<Addr>
    decreases n
  {
    if n == 0 then [] else WordAddrs(SlotOf(from), w) + SlotAddrs(from + 1, n - 1, w)
  }

  lemma SlotsLogCons(first: seq<(Addr, int)>, rest: seq<(Addr, int)>, from: nat, w: nat, lap: Lap, more: seq<Lap>)
    requires |first| == |lap| == w && forall i :: 0 <= i < w ==> first[i] == (LapAt(SlotOf(from), i), lap[i])
    requires SlotsLog(rest, from + 1, w, more)
    ensures SlotsLog(first + rest, from, w, [lap] + more)
  {
    assert (first + rest)[w..] == rest && ([lap] + more)[1..] == more;
  }

  lemma {:induction false} SlotsAreRead(m: Mem, from: nat, n: nat, w: nat)
    requires Shape(m, w)
    ensures var at := SlotAddrs(from, n, w); HasAll(m, at) && SlotsLog(Copies(m, at), from, w, LapsFrom(m, from, n))
    decreases n
  {
    if n > 0 {
      hide Shape, Copies, HasAll, LapsFrom, SlotsLog, WordAddrs;
      SlotsAreRead(m, from + 1, n - 1, w);
      LapsFromStep(m, from, n);
      WordsAreRead(m, SlotOf(from), w);
      CopiesConcat(m, WordAddrs(SlotOf(from), w), SlotAddrs(from + 1, n - 1, w));
      SlotsLogCons(Copies(m, WordAddrs(SlotOf(from), w)), Copies(m, SlotAddrs(from + 1, n - 1, w)), from, w,
                   m.laps[SlotOf(from)], LapsFrom(m, from + 1, n - 1));
    }
  }

  lemma TotalIsRead(m: Mem)
    ensures HasAll(m, [TotalAt]) && Copies(m, [TotalAt]) == [(TotalAt, m.total)]
  {
  }

  lemma SnapshotLogCons(total: nat, slots: seq<(Addr, int)>, max: nat, w: nat, out: seq<Lap>)
    requires |out| == (if max < Shown(total) then max else Shown(total)) && SlotsLog(slots, total - |out|, w, out)
    ensures SnapshotLog([(TotalAt, total)] + slots, max, w, out)
  {
    hide SlotsLog;
    var log := [(TotalAt, total as int)] + slots;
    assert log[0] == (TotalAt, total as int) && log[1..] == slots;
  }

  lemma LapAtLogCons(total: nat, words: seq<(Addr, int)>, index: nat, w: nat, lap: Lap)
    requires index < Shown(total) && |words| == |lap| == w
    requires forall i :: 0 <= i < w ==> words[i] == (LapAt(SlotOf(total - Shown(total) + index), i), lap[i])
    ensures LapAtLog([(TotalAt, total)] + words, index, w, Some(lap))
  {
    hide SlotOf;
    var log := [(TotalAt, total as int)] + words;
    assert log[0] == (TotalAt, total as int) && forall i :: 0 <= i < w ==> log[1 + i] == words[i];
  }

  lemma NewestSlotsAreRead(m: Mem, h: seq<Lap>, w: nat, n: nat)
    requires RingOf(m, h, w) && n <= Shown(m.total)
    ensures var at := SlotAddrs(m.total - n, n, w);
            n <= |h| && HasAll(m, at) && SlotsLog(Copies(m, at), m.total - n, w, h[|h| - n..])
  {
    hide SlotsLog, SlotAddrs, Copies, HasAll;
    ShownAreNewest(m, h, w, n);
    SlotsAreRead(m, m.total - n, n, w);
  }

  lemma SnapshotOf(m: Mem, slots: seq<Addr>, max: nat, w: nat, out: seq<Lap>)
    requires HasAll(m, slots) && |out| == (if max < Shown(m.total) then max else Shown(m.total))
    requires SlotsLog(Copies(m, slots), m.total - |out|, w, out)
    ensures HasAll(m, [TotalAt] + slots) && SnapshotLog(Copies(m, [TotalAt] + slots), max, w, out)
  {
    hide SlotsLog, HasAll, Copies;
    TotalIsRead(m);
    CopiesConcat(m, [TotalAt], slots);
    SnapshotLogCons(m.total, Copies(m, slots), max, w, out);
  }

  /** A snapshot finds on a board the newest laps. */
  lemma SnapshotIsRead(m: Mem, h: seq<Lap>, w: nat, max: nat) returns (all: seq<Addr>)
    requires RingOf(m, h, w)
    ensures HasAll(m, all)
    ensures var n := if max < Shown(m.total) then max else Shown(m.total);
            n <= |h| && SnapshotLog(Copies(m, all), max, w, h[|h| - n..])
  {
    hide RingOf, SlotsLog, SlotAddrs, Copies, HasAll, SnapshotLog;
    var n := if max < Shown(m.total) then max else Shown(m.total);
    NewestSlotsAreRead(m, h, w, n);
    SnapshotOf(m, SlotAddrs(m.total - n, n, w), max, w, h[|h| - n..]);
    all := [TotalAt] + SlotAddrs(m.total - n, n, w);
  }

  /** And lap_at, for every index shown, its lap. */
  lemma OneLapIsRead(m: Mem, h: seq<Lap>, w: nat, index: nat) returns (one: seq<Addr>)
    requires RingOf(m, h, w) && index < Shown(m.total)
    ensures HasAll(m, one) && Shown(m.total) <= |h|
    ensures LapAtLog(Copies(m, one), index, w, Some(h[|h| - Shown(m.total) + index]))
  {
    var k := |h| - Shown(m.total) + index;
    var slot := SlotOf(m.total - Shown(m.total) + index);
    assert m.total - Shown(m.total) + index == m.total - (|h| - k);
    assert m.laps[slot] == h[k];
    WordsAreRead(m, slot, w);
    TotalIsRead(m);
    CopiesConcat(m, [TotalAt], WordAddrs(slot, w));
    LapAtLogCons(m.total, Copies(m, WordAddrs(slot, w)), index, w, h[k]);
    one := [TotalAt] + WordAddrs(slot, w);
    hide *;
  }

  /** The board shows the newest 24 laps, or all there are, exactly until the 32-bit total wraps: then
      it shows only those since the wrap, until 24 have been completed again. */
  lemma ShowsTheNewestUnlessWrapped(laps: nat)
    ensures Shown(laps % TWO_32) == Shown(laps) <==> laps < PIPE_LAPS_KEEP || laps % TWO_32 >= PIPE_LAPS_KEEP
  {
  }

  // ---- the reader's loops ----

  const PIPE_LAPS_SNAP_RETRY_MAX: nat := 1024

  /** What the loads of one attempt bring: the number before, the words copied, the number after. */
  datatype Attempt = Attempt(seq0: nat, log: seq<(Addr, int)>, seq1: nat)

  predicate Stable(a: Attempt) { a.seq0 % 2 == 0 && a.seq0 == a.seq1 }

  /** The loads pipeline_lap_at makes in one attempt, whatever words they bring: the total, then the words
      of the slot it works out from it. */
  predicate Loads(log: seq<(Addr, int)>, index: nat, w: nat) {
    && log != [] && log[0].0 == TotalAt && log[0].1 >= 0
    && var total := log[0].1;
       index < Shown(total) ==>
         && |log| == 1 + w
         && forall k :: 1 <= k <= w ==> log[k].0 == LapAt((total - Shown(total) + index) % PIPE_LAPS_KEEP, k - 1)
  }

  predicate Attempts(attempts: seq<Attempt>, index: int, w: nat) {
    && |attempts| == PIPE_LAPS_SNAP_RETRY_MAX
    && forall j :: 0 <= j < |attempts| && index >= 0 ==> Loads(attempts[j].log, index, w)
  }

  predicate FirstStable(attempts: seq<Attempt>, k: int) {
    0 <= k < |attempts| && Stable(attempts[k]) && forall j :: 0 <= j < k ==> !Stable(attempts[j])
  }

  /** The answer is that of the first stable attempt, whose words and answer are as LapAtIsTheLap asks of
      an accepted copy; and there is none without one. */
  method ReadLapAt(index: int, attempts: seq<Attempt>, w: nat) returns (rc: int, out: Option<Lap>)
    requires Attempts(attempts, index, w)
    ensures rc == (if out.Some? then 0 else -1)
    ensures index < 0 || (forall j :: 0 <= j < |attempts| ==> !Stable(attempts[j])) ==> out == None
    ensures forall k :: index >= 0 && FirstStable(attempts, k) ==> LapAtLog(attempts[k].log, index, w, out)
  {
    if index < 0 {
      return -1, None;
    }
    var attempt, stable := 0, false;
    rc, out := -1, None;
    while attempt < PIPE_LAPS_SNAP_RETRY_MAX && !stable
      invariant 0 <= attempt <= PIPE_LAPS_SNAP_RETRY_MAX
      invariant !stable ==> forall j :: 0 <= j < attempt ==> !Stable(attempts[j])
      invariant stable ==> attempt > 0 && FirstStable(attempts, attempt - 1) &&
                           LapAtLog(attempts[attempt - 1].log, index, w, out) && rc == (if out.Some? then 0 else -1)
    {
      var a := attempts[attempt];
      if a.seq0 % 2 == 0 {
        var total := a.log[0].1;
        var n := if total < PIPE_LAPS_KEEP then total else PIPE_LAPS_KEEP;
        if index < n {
          rc, out := 0, Some(seq(w, i requires 0 <= i < w => a.log[1 + i].1));
        } else {
          rc, out := -1, None;
        }
        stable := a.seq0 == a.seq1;
      }
      attempt := attempt + 1;
    }
    if !stable {
      return -1, None;
    }
  }

  // ---- the board in place ----

  /** The pipeline's own arrays. `finished` is every lap completed since boot. */
  class Board {
    const w: nat
    const laps: array<Lap>
    var total: nat
    ghost var finished: seq<Lap>

    ghost function View(): Mem
      reads this, laps
    {
      Mem(total, laps[..], [])
    }

    ghost predicate Valid()
      reads this, laps
    {
      RingOf(View(), finished, w)
    }

    constructor (width: nat)
      ensures Valid() && finished == [] && w == width && fresh(laps)
    {
      w, total, finished := width, 0, [];
      laps := new Lap[PIPE_LAPS_KEEP](_ => seq(width, _ => 0));
    }

    method OnLapComplete(lap: Lap)
      requires Valid() && |lap| == w
      modifies this`total, this`finished, laps
      ensures Valid() && finished == old(finished) + [lap]
    {
      ghost var before := View();
      laps[total % PIPE_LAPS_KEEP] := lap;
      total := (total + 1) % TWO_32;
      finished := finished + [lap];
      LapKeepsRing(before, View(), lap, old(finished), w);
    }

    method Snapshot(out: array<Lap>, max: int) returns (n: nat)
      requires Valid() && out != laps && out.Length >= max
      modifies out
      ensures Valid()
      ensures n == if max <= 0 then 0 else if max < Shown(|finished| % TWO_32) then max else Shown(|finished| % TWO_32)
      ensures n <= |finished| && n <= out.Length && out[..n] == finished[|finished| - n..]
    {
      if max <= 0 {
        return 0;
      }
      n := if total < PIPE_LAPS_KEEP then total else PIPE_LAPS_KEEP;
      if n > max {
        n := max;
      }
      var start := if total > n then total - n else 0;
      ShownAreNewest(View(), finished, w, n);
      hide SlotOf, NewestInSlots;
      CopySlots(out, start, n);
    }

    method CopySlots(out: array<Lap>, start: nat, n: nat)
      requires laps.Length == PIPE_LAPS_KEEP && out != laps && n <= out.Length
      modifies out
      ensures out[..n] == LapsFrom(View(), start, n)
    {
      for i := 0 to n
        invariant forall j :: 0 <= j < i ==> out[j] == laps[SlotOf(start + j)]
      {
        out[i] := laps[(start + i) % PIPE_LAPS_KEEP];
      }
    }
  }

  lemma ShownAreNewest(m: Mem, h: seq<Lap>, w: nat, n: nat)
    requires RingOf(m, h, w) && n <= Shown(m.total)
    ensures n <= |h| && LapsFrom(m, m.total - n, n) == h[|h| - n..]
  {
    var r, first := LapsFrom(m, m.total - n, n), |h| - n;
    forall i | 0 <= i < n ensures r[i] == h[first..][i] {
      var k := first + i;
      assert m.total - n + i == m.total - (|h| - k);
      assert h[first..][i] == h[k];
    }
  }
}
