/** The session files of components/app/logger/logger.c: opening, closing, deleting and evicting them,
    and the session count that is kept without listing the directory again. */
module LoggerFiles {
  import opened Prelude
  import opened SessionTable
  import opened SessionIds

  const EVICT_MAX_PER_PASS: nat := 8
  const STO_EVICT_PCT: nat := 10
  const STO_TARGET_PCT: nat := 15

  // ---- file names ----

  /** A file of /sessions by what its name says: `<id>.log`, `<id>.sum`, or anything else (a summary
      under construction is `<id>.sum.tmp`). */
  datatype Name = Log(id: string) | Sum(id: string) | Other(text: string)

  predicate Ends(name: string, ext: string) { |name| >= |ext| && name[|name| - |ext|..] == ext }

  function NameOf(text: string): Name {
    if Ends(text, ".log") then Log(text[..|text| - 4])
    else if Ends(text, ".sum") then Sum(text[..|text| - 4])
    else Other(text)
  }

  function TextOf(n: Name): string {
    match n
    case Log(id) => id + ".log"
    case Sum(id) => id + ".sum"
    case Other(text) => text
  }

  function Tmp(id: string): Name { Other(id + ".sum.tmp") }

  /** Names and texts correspond one to one. */
  lemma NamesAreTexts(text: string, other: string)
    ensures TextOf(NameOf(text)) == text
    ensures NameOf(text) == NameOf(other) ==> text == other
  {
    if Ends(text, ".log") || Ends(text, ".sum") {
      assert text == text[..|text| - 4] + text[|text| - 4..];
    }
    if Ends(other, ".log") || Ends(other, ".sum") {
      assert other == other[..|other| - 4] + other[|other| - 4..];
    }
  }

  lemma DotSum(text: string)
    ensures NameOf(text).Sum? <==> LastDot(text).Some? && text[LastDot(text).value..] == ".sum"
  {
    assert ".log"[1] != ".sum"[1];
    if Ends(text, ".sum") {
      var id := text[..|text| - 4];
      assert text == id + ".sum";
      LastDotOf(id, ".sum");
    }
  }

  function AsSet(listing: seq<string>): set<Name>
    decreases |listing|
  {
    if listing == [] then {} else AsSet(listing[..|listing| - 1]) + {NameOf(listing[|listing| - 1])}
  }

  lemma {:induction false} InListing(listing: seq<string>, text: string)
    requires NameOf(text) in AsSet(listing)
    ensures text in listing
    decreases |listing|
  {
    var front, last := listing[..|listing| - 1], listing[|listing| - 1];
    NamesAreTexts(text, last);
    if text != last {
      InListing(front, text);
    }
  }

  lemma {:induction false} ListedIsIn(listing: seq<string>, i: nat)
    requires i < |listing|
    ensures NameOf(listing[i]) in AsSet(listing)
    decreases |listing|
  {
    if i < |listing| - 1 {
      ListedIsIn(listing[..|listing| - 1], i);
    }
  }

  // ---- counting .sum files ----

  function Sums(files: set<Name>): set<Name> { set f | f in files && f.Sum? }

  lemma AddFile(files: set<Name>, f: Name)
    ensures |Sums(files + {f})| == |Sums(files)| + if f.Sum? && f !in files then 1 else 0
  {
    if f.Sum? && f !in files {
      assert Sums(files + {f}) == Sums(files) + {f};
    } else {
      assert Sums(files + {f}) == Sums(files);
    }
  }

  lemma DropFile(files: set<Name>, f: Name)
    ensures |Sums(files - {f})| == |Sums(files)| - if f.Sum? && f in files then 1 else 0
  {
    assert Sums(files - {f}) == Sums(files) - {f};
  }

  /** A full recount, as made at start-up: names whose last dot begins ".sum". */
  method SessionCount(listing: seq<string>) returns (c: nat)
    requires forall i, j :: 0 <= i < j < |listing| ==> listing[i] != listing[j]
    ensures c == var n := |Sums(AsSet(listing))|; if n > 0xFFFF then 0xFFFF else n
  {
    var n := 0;
    for i := 0 to |listing|
      invariant n == |Sums(AsSet(listing[..i]))|
    {
      var name := listing[i];
      var dot := LastDot(name);
      DotSum(name);
      assert listing[..i + 1][..i] == listing[..i];
      if NameOf(name) in AsSet(listing[..i]) {
        InListing(listing[..i], name);
        assert false;
      }
      AddFile(AsSet(listing[..i]), NameOf(name));
      if dot.Some? && name[dot.value..] == ".sum" {
        n := n + 1;
      }
    }
    assert listing[..|listing|] == listing;
    c := if n > 0xFFFF then 0xFFFF else n;
  }

  // ---- the oldest logs ----

  /** The ids whose .log eviction may delete: all but the open session's. */
  function Candidates(files: set<Name>, cur: Option<string>): set<string> {
    set f | f in files && f.Log? && cur != Some(f.id) :: f.id
  }

  /** strcmp of the two .log names. */
  predicate Older(a: string, b: string) { Less(TextOf(Log(a)), TextOf(Log(b))) }

  lemma OlderTotal(a: string, b: string)
    ensures !(Older(a, b) && Older(b, a)) && !Older(a, a) && (a != b ==> Older(a, b) || Older(b, a))
  {
    LessTotal(TextOf(Log(a)), TextOf(Log(b)));
    assert TextOf(Log(a))[..|TextOf(Log(a))| - 4] == a && TextOf(Log(b))[..|TextOf(Log(b))| - 4] == b;
  }

  lemma OlderTransitive(a: string, b: string, c: string)
    requires Older(a, b) && Older(b, c)
    ensures Older(a, c)
  {
    LessTransitive(TextOf(Log(a)), TextOf(Log(b)), TextOf(Log(c)));
  }

  /** Among printed ids, older is earlier: by boot (modulo 65536), then by number within the boot. */
  lemma {:induction false} OlderIsEarlier(b: nat, s: nat, c: nat, t: nat)
    requires s <= SEQ_MAX && t <= SEQ_MAX
    ensures Older(SessionId(b, s), SessionId(c, t)) <==>
              b % TWO_16 < c % TWO_16 || (b % TWO_16 == c % TWO_16 && s < t)
  {
    IdOrder(b, s, c, t);
    LogNameOrder(SessionId(b, s), SessionId(c, t));
  }

  predicate IsOldest(x: string, s: set<string>) {
    x in s && forall y <- s :: y == x || Older(x, y)
  }

  lemma {:induction false} OldestExists(s: set<string>)
    requires s != {}
    ensures exists x :: IsOldest(x, s)
    decreases |s|
  {
    var x :| x in s;
    if s == {x} {
      assert IsOldest(x, s);
    } else {
      var rest := s - {x};
      assert s == rest + {x} && rest != {};
      OldestExists(rest);
      var y :| IsOldest(y, rest);
      OlderTotal(x, y);
      if Older(x, y) {
        forall z | z in rest ensures z == x || Older(x, z) {
          if z != y {
            OlderTransitive(x, y, z);
          }
        }
        assert IsOldest(x, s);
      } else {
        assert IsOldest(y, s);
      }
    }
  }

  ghost function Oldest(s: set<string>): (x: string)
    requires s != {}
    ensures IsOldest(x, s)
  {
    OldestExists(s);
    var x :| IsOldest(x, s);
    x
  }

  lemma OnlyOneOldest(x: string, s: set<string>)
    requires IsOldest(x, s)
    ensures x == Oldest(s)
  {
    OlderTotal(x, Oldest(s));
  }

  /** The ids left after `k` deletions, each of the oldest then there. */
  ghost function Survivors(ids: set<string>, k: nat): (r: set<string>)
    ensures r <= ids
    decreases k
  {
    if k == 0 || ids == {} then ids else Survivors(ids - {Oldest(ids)}, k - 1)
  }

  lemma {:induction false} SurvivorsCount(ids: set<string>, k: nat)
    ensures |Survivors(ids, k)| == if |ids| < k then 0 else |ids| - k
    decreases k
  {
    hide Older;
    if k > 0 && ids != {} {
      SurvivorsCount(ids - {Oldest(ids)}, k - 1);
    }
  }

  lemma GoneCount(ids: set<string>, left: set<string>)
    requires left <= ids
    ensures |ids - left| == |ids| - |left|
  {
    assert ids == left + (ids - left);
  }

  /** Whoever is gone is older than whoever stays. */
  lemma {:induction false} GoneIsOlder(ids: set<string>, k: nat, x: string, y: string)
    requires x in ids && x !in Survivors(ids, k) && y in Survivors(ids, k)
    ensures Older(x, y)
    decreases k
  {
    hide Older;
    if x != Oldest(ids) {
      GoneIsOlder(ids - {Oldest(ids)}, k - 1, x, y);
    }
  }

  lemma {:induction false} OneFewer(ids: set<string>, k: nat)
    requires Survivors(ids, k) != {}
    ensures Survivors(ids, k + 1) == Survivors(ids, k) - {Oldest(Survivors(ids, k))}
    decreases k
  {
    if k > 0 && ids != {} {
      OneFewer(ids - {Oldest(ids)}, k - 1);
    }
  }

  /** The directory after `k` logs were evicted. */
  ghost function Evicted(files: set<Name>, cur: Option<string>, k: nat): set<Name> {
    var c := Candidates(files, cur);
    var left := Survivors(c, k);
    set f | f in files && (f.Log? && f.id in c ==> f.id in left)
  }

  lemma EvictedCandidates(files: set<Name>, cur: Option<string>, k: nat)
    ensures Candidates(Evicted(files, cur, k), cur) == Survivors(Candidates(files, cur), k)
  {
    forall id | id in Survivors(Candidates(files, cur), k) ensures id in Candidates(Evicted(files, cur, k), cur) {
      assert Log(id) in files;
    }
  }

  /** An eviction of `k` removes exactly the `k` oldest logs (all there are, if fewer) and nothing else:
      never the open session's log and never a summary. */
  lemma EvictionTakesTheOldest(files: set<Name>, cur: Option<string>, k: nat)
    ensures var left, c := Evicted(files, cur, k), Candidates(files, cur);
            var gone := c - Candidates(left, cur);
            && left == set f | f in files && !(f.Log? && f.id in gone)
            && |gone| == (if |c| < k then |c| else k)
            && (forall x, y :: x in gone && y in Candidates(left, cur) ==> Older(x, y))
            && Sums(left) == Sums(files)
            && (cur.Some? && Log(cur.value) in files ==> Log(cur.value) in left)
  {
    EvictedCandidates(files, cur, k);
    var c := Candidates(files, cur);
    SurvivorsCount(c, k);
    GoneCount(c, Survivors(c, k));
    forall x, y | x in c && x !in Survivors(c, k) && y in Survivors(c, k) ensures Older(x, y) {
      GoneIsOlder(c, k, x, y);
    }
  }

  lemma EvictedSteps(files: set<Name>, cur: Option<string>, k: nat)
    requires Candidates(Evicted(files, cur, k), cur) != {}
    ensures Evicted(files, cur, k + 1) ==
              Evicted(files, cur, k) - {Log(Oldest(Candidates(Evicted(files, cur, k), cur)))}
  {
    EvictedCandidates(files, cur, k);
    OneFewer(Candidates(files, cur), k);
    var first := Oldest(Survivors(Candidates(files, cur), k));
    assert first in Candidates(files, cur);
  }

  lemma MoreCandidates(files: set<Name>, n: Name, cur: Option<string>)
    ensures Candidates(files + {n}, cur) ==
            Candidates(files, cur) + if n.Log? && cur != Some(n.id) then {n.id} else {}
  {
    if n.Log? && cur != Some(n.id) {
      assert n in files + {n};
    }
  }

  lemma OlderJoins(x: string, s: set<string>, o: string)
    requires IsOldest(o, s)
    ensures if Older(x, o) then IsOldest(x, s + {x}) else IsOldest(o, s + {x})
  {
    OlderTotal(x, o);
    if Older(x, o) {
      forall z | z in s ensures Older(x, z) {
        if z != o {
          OlderTransitive(x, o, z);
        }
      }
    }
  }

  /** evict_scan_oldest over a listing in any order. */
  method ScanOldest(listing: seq<string>, cur: Option<string>) returns (oldest: Option<string>)
    ensures var c := Candidates(AsSet(listing), cur);
            if c == {} then oldest == None else oldest.Some? && IsOldest(oldest.value, c)
  {
    oldest := None;
    for i := 0 to |listing|
      invariant oldest.None? ==> Candidates(AsSet(listing[..i]), cur) == {}
      invariant oldest.Some? ==> IsOldest(oldest.value, Candidates(AsSet(listing[..i]), cur))
    {
      var text := listing[i];
      assert listing[..i + 1][..i] == listing[..i];
      MoreCandidates(AsSet(listing[..i]), NameOf(text), cur);
      if Ends(text, ".log") {
        var id := text[..|text| - 4];
        if cur != Some(id) {
          if oldest.None? {
            oldest := Some(id);
          } else {
            OlderJoins(id, Candidates(AsSet(listing[..i]), cur), oldest.value);
            if Older(id, oldest.value) {
              oldest := Some(id);
            }
          }
        }
      }
    }
    assert listing[..|listing|] == listing;
  }

  // ---- the logger's state ----

  /** `files` is the directory. `boot` is the boot count and `seqNo` the number of the latest id; `id` is
      empty when no session is open. */
  datatype State = State(open: bool, id: string, seqNo: nat, boot: nat, cached: nat, files: set<Name>)

  function Current(s: State): Option<string> { if s.id == "" then None else Some(s.id) }

  /** How a rebuild of the .sum ends: in place, or failed and leaving the temporary file or not. */
  datatype Rebuild = Landed | Failed(tmpLeft: bool)

  function WithSum(files: set<Name>, id: string, r: Rebuild): set<Name> {
    match r
    case Landed => files - {Tmp(id)} + {Sum(id)}
    case Failed(left) => if left then files + {Tmp(id)} else files
  }

  /** What storage does during one request. */
  datatype Request =
    | Open(evictBefore: nat, refused: bool, created: bool, sum: Rebuild, evictAfter: nat)
    | Close(sum: Rebuild)
    | RebuildSum(sum: Rebuild)
    | Delete(id: string, logProbed: bool, sumProbed: bool, logRc: int, sumRc: int)
    | Evict(k: nat)

  function NextId(s: State): string
    requires s.seqNo < SEQ_MAX
  {
    SessionId(s.boot, s.seqNo + 1)
  }

  function Created(s: State, sum: Rebuild): State
    requires s.seqNo < SEQ_MAX
  {
    s.(open := true, seqNo := s.seqNo + 1, id := NextId(s), files := WithSum(s.files + {Log(NextId(s))}, NextId(s), sum))
  }

  ghost function Evicting(s: State, k: nat): State { s.(files := Evicted(s.files, Current(s), k)) }

  ghost function Opened(s: State, r: Request): State
    requires r.Open? && s.seqNo <= SEQ_MAX
  {
    if s.open then s
    else
      var s1 := Evicting(s, r.evictBefore);
      if r.refused || s.seqNo == SEQ_MAX then s1
      else if !r.created then s1.(seqNo := s.seqNo + 1, id := "")
      else Evicting(Created(s1, r.sum), r.evictAfter)
  }

  function Closed(s: State, sum: Rebuild): State {
    if !s.open then s
    else s.(open := false, id := "", files := WithSum(s.files, s.id, sum),
            cached := if sum.Landed? then (s.cached + 1) % TWO_16 else s.cached)
  }

  /** The files a delete takes to be there: a failed probe counts as one that may be. */
  predicate HasLog(s: State, r: Request)
    requires r.Delete?
  {
    !r.logProbed || Log(r.id) in s.files
  }

  predicate HasSum(s: State, r: Request)
    requires r.Delete?
  {
    !r.sumProbed || Sum(r.id) in s.files
  }

  /** delete_session and its result, the storage's own code for the first unlink that failed; unlinking a
      file that is not there may succeed. */
  function Deleted(s: State, r: Request): (State, int)
    requires r.Delete?
  {
    if s.open && s.id == r.id then (s, -4)
    else if !HasLog(s, r) && !HasSum(s, r) then (s, -3)
    else
      (s.(files := s.files - (if r.logRc == 0 then {Log(r.id)} else {}) - (if r.sumRc == 0 then {Sum(r.id)} else {}),
          cached := if HasSum(s, r) && r.sumRc == 0 && s.cached > 0 then s.cached - 1 else s.cached),
       if HasLog(s, r) && r.logRc != 0 then r.logRc else if HasSum(s, r) then r.sumRc else 0)
  }

  ghost function Next(s: State, r: Request): State
    requires s.seqNo <= SEQ_MAX
  {
    match r
    case Open(_, _, _, _, _) => Opened(s, r)
    case Close(sum) => Closed(s, sum)
    case RebuildSum(sum) => if s.open then s.(files := WithSum(s.files, s.id, sum)) else s
    case Delete(_, _, _, _, _) => Deleted(s, r).0
    case Evict(k) => Evicting(s, k)
  }

  // ---- what every request keeps ----

  /** No summary bears an id of this boot past number `n`. */
  ghost predicate NoneAfter(files: set<Name>, boot: nat, n: nat) {
    forall k :: n < k <= SEQ_MAX ==> Sum(SessionId(boot, k)) !in files
  }

  /** No summary of a session this boot has not opened yet; and the open session is the latest one. */
  ghost predicate Fresh(s: State) {
    && s.seqNo <= SEQ_MAX
    && NoneAfter(s.files, s.boot, s.seqNo)
    && (if s.open then s.seqNo > 0 && s.id == SessionId(s.boot, s.seqNo) && Log(s.id) in s.files else s.id == "")
  }

  /** The open session's own summary, which a recount would find but the cache does not count yet. */
  function Own(s: State): nat { if s.open && Sum(s.id) in s.files then 1 else 0 }

  /** What the count ought to be. */
  function Recount(s: State): int { |Sums(s.files)| - Own(s) }

  predicate AllGoesWell(r: Request) {
    match r
    case Open(_, _, created, sum, _) => created && sum.Landed?
    case Close(sum) => sum.Landed?
    case RebuildSum(sum) => sum.Landed?
    case Delete(_, logProbed, sumProbed, logRc, sumRc) => logProbed && sumProbed && logRc == 0 && sumRc == 0
    case Evict(_) => true
  }

  /** The directory holds fewer .sum files than the 16-bit count can say. */
  predicate Small(s: State) { |Sums(s.files)| < 0xFFFF }

  lemma WithSumCount(files: set<Name>, id: string, r: Rebuild)
    ensures |Sums(WithSum(files, id, r))| == |Sums(files)| + if r.Landed? && Sum(id) !in files then 1 else 0
  {
    match r {
      case Landed =>
        DropFile(files, Tmp(id));
        AddFile(files - {Tmp(id)}, Sum(id));
      case Failed(left) => AddFile(files, Tmp(id));
    }
  }

  lemma EvictKeeps(s: State, k: nat)
    requires Fresh(s)
    ensures Fresh(Evicting(s, k)) && Recount(Evicting(s, k)) == Recount(s)
  {
    assert Sums(Evicted(s.files, Current(s), k)) == Sums(s.files);
    if s.open {
      assert s.id != "" && Log(s.id) in Evicted(s.files, Current(s), k);
    }
  }

  lemma IdsDiffer(boot: nat, j: nat, k: nat)
    requires j < k <= SEQ_MAX
    ensures SessionId(boot, j) != SessionId(boot, k)
  {
    IdOrder(boot, j, boot, k);
  }

  lemma StillNoneAfter(files: set<Name>, boot: nat, n: nat, r: Rebuild)
    requires n <= SEQ_MAX && NoneAfter(files, boot, n)
    ensures NoneAfter(WithSum(files, SessionId(boot, n), r), boot, n)
  {
    forall k | n < k <= SEQ_MAX ensures Sum(SessionId(boot, k)) !in WithSum(files, SessionId(boot, n), r) {
      IdsDiffer(boot, n, k);
    }
  }

  /** Creating the log and the first summary of a fresh id. */
  lemma CreateKeeps(s: State, sum: Rebuild)
    requires Fresh(s) && !s.open && s.seqNo < SEQ_MAX
    ensures Fresh(Created(s, sum)) && Recount(Created(s, sum)) == Recount(s)
  {
    hide SessionId;
    var id, f := NextId(s), s.files + {Log(NextId(s))};
    AddFile(s.files, Log(id));
    WithSumCount(f, id, sum);
    assert NoneAfter(f, s.boot, s.seqNo + 1);
    StillNoneAfter(f, s.boot, s.seqNo + 1, sum);
  }

  lemma OpenKeeps(s: State, r: Request)
    requires Fresh(s) && r.Open?
    ensures Fresh(Opened(s, r)) && Recount(Opened(s, r)) == Recount(s)
  {
    if !s.open {
      var s1 := Evicting(s, r.evictBefore);
      EvictKeeps(s, r.evictBefore);
      if !r.refused && s.seqNo < SEQ_MAX && r.created {
        CreateKeeps(s1, r.sum);
        EvictKeeps(Created(s1, r.sum), r.evictAfter);
      }
    }
  }

  lemma RebuildKeeps(s: State, sum: Rebuild)
    requires Fresh(s) && s.open
    ensures var t := s.(files := WithSum(s.files, s.id, sum));
            Fresh(t) && Recount(t) == Recount(s)
  {
    WithSumCount(s.files, s.id, sum);
    StillNoneAfter(s.files, s.boot, s.seqNo, sum);
  }

  /** Closing turns the session's own summary into one that counts, and the cache follows. */
  lemma CloseKeeps(s: State, sum: Rebuild)
    requires Fresh(s) && s.open && Small(s) && s.cached <= Recount(s)
    ensures var t := Closed(s, sum);
            Fresh(t) && t.cached <= Recount(t)
            && (sum.Landed? ==> Recount(t) == Recount(s) + 1 && t.cached == s.cached + 1)
  {
    RebuildKeeps(s, sum);
    WithSumCount(s.files, s.id, sum);
  }

  lemma DeleteKeeps(s: State, r: Request)
    requires Fresh(s) && r.Delete? && s.cached <= Recount(s)
    ensures var t := Deleted(s, r).0;
            Fresh(t) && t.cached <= Recount(t)
            && (AllGoesWell(r) && s.cached == Recount(s) ==> t.cached == Recount(t))
  {
    var one := if r.logRc == 0 then s.files - {Log(r.id)} else s.files;
    DropFile(s.files, Log(r.id));
    DropFile(one, Sum(r.id));
    assert one - {} == one && s.files - {} == s.files;
    if s.open && s.id != r.id && Sum(r.id) in s.files && Sum(s.id) in s.files {
      TwoSums(s.files, Sum(r.id), Sum(s.id));
    }
    if Sum(r.id) in s.files {
      assert Sum(r.id) in Sums(s.files);
    }
  }

  lemma TwoSums(files: set<Name>, a: Name, b: Name)
    requires a in files && b in files && a != b && a.Sum? && b.Sum?
    ensures |Sums(files)| >= 2
  {
    DropFile(files, a);
    DropFile(files - {a}, b);
  }

  /** A rebuild that lands puts the summary there and takes its temporary file away; one that fails may leave
      the temporary file and touches nothing else, the summary that was there included. */
  lemma RebuildResult(files: set<Name>, id: string, r: Rebuild)
    ensures var t := WithSum(files, id, r);
            && (Sum(id) in t <==> r.Landed? || Sum(id) in files)
            && (Tmp(id) in t <==> r.Failed? && (r.tmpLeft || Tmp(id) in files))
            && (forall f :: f != Sum(id) && f != Tmp(id) ==> (f in t <==> f in files))
  {
  }

  /** What an open does. With a session open, nothing. A session is opened exactly if space allows, the
      boot's numbers are not used up and the log can be created: under the next number's id, with its log
      there, and its summary if that landed. A failed creation uses the number up, a refusal does not.
      What is gone from the directory are logs, and the new id's temporary file. */
  lemma OpenResult(s: State, r: Request)
    requires r.Open? && s.seqNo <= 255 && (!s.open ==> s.id == "")
    ensures var t := Opened(s, r);
            var numbered := !r.refused && s.seqNo < 255;
            && (s.open ==> t == s)
            && (!s.open ==>
                  && (t.open <==> numbered && r.created)
                  && t.seqNo == s.seqNo + (if numbered then 1 else 0)
                  && t.id == (if t.open then SessionId(s.boot, s.seqNo + 1) else "")
                  && (t.open ==> Log(t.id) in t.files && (r.sum.Landed? ==> Sum(t.id) in t.files))
                  && (forall f :: f in t.files && f !in s.files ==> t.open && f in {Log(t.id), Sum(t.id), Tmp(t.id)})
                  && (forall f :: f in s.files && f !in t.files ==> f.Log? || f == Tmp(t.id)))
            && t.cached == s.cached && t.boot == s.boot
  {
    hide SessionId, Survivors;
  }

  /** What a close does: the session is over, its files stay, and it is counted exactly if its summary landed. */
  lemma CloseResult(s: State, sum: Rebuild)
    ensures var t := Closed(s, sum);
            && (!s.open ==> t == s)
            && (s.open ==>
                  && !t.open && t.id == "" && t.files == WithSum(s.files, s.id, sum)
                  && t.cached == (if sum.Failed? then s.cached else if s.cached % TWO_16 == 65535 then 0 else s.cached % TWO_16 + 1))
            && t.seqNo == s.seqNo && t.boot == s.boot
  {
  }

  /** What a delete does and what its result tells its sender. Refused for the open session, or nothing
      there: nothing changes. Otherwise 0 means both files are gone; any other result is the storage's own
      code for the first unlink that failed, and where the probes could tell, that file is still there.
      No other file is touched. The two refusals are told apart from storage errors exactly as long as
      storage does not itself use -3 or -4. */
  lemma DeleteResult(s: State, r: Request)
    requires r.Delete?
    ensures var (t, rc) := Deleted(s, r);
            var refused := s.open && s.id == r.id;
            var absent := !refused && !HasLog(s, r) && !HasSum(s, r);
            && (refused ==> rc == -4 && t == s)
            && (absent ==> rc == -3 && t == s)
            && (!refused && rc == 0 ==> Log(r.id) !in t.files && Sum(r.id) !in t.files)
            && (!refused && !absent && rc != 0 ==>
                  || (rc == r.logRc && (r.logProbed ==> Log(r.id) in t.files))
                  || (rc == r.sumRc && Log(r.id) !in t.files && (r.sumProbed ==> Sum(r.id) in t.files)))
            && ({r.logRc, r.sumRc} !! {-3, -4} ==> (rc == -4 <==> refused) && (rc == -3 <==> absent))
            && (forall f :: f != Log(r.id) && f != Sum(r.id) ==> (f in t.files <==> f in s.files))
  {
  }

  /** One request, whatever storage does: the cached count never exceeds a recount less the open
      session's own summary, and if storage plays along it stays exactly that. */
  lemma NextKeeps(s: State, r: Request)
    requires Fresh(s) && Small(s) && s.cached <= Recount(s)
    ensures var t := Next(s, r);
            Fresh(t) && t.cached <= Recount(t)
            && (AllGoesWell(r) && s.cached == Recount(s) ==> t.cached == Recount(t))
  {
    match r {
      case Open(_, _, _, _, _) => OpenKeeps(s, r);
      case Close(sum) =>
        if s.open {
          CloseKeeps(s, sum);
        }
      case RebuildSum(sum) =>
        if s.open {
          RebuildKeeps(s, sum);
        }
      case Delete(_, _, _, _, _) => DeleteKeeps(s, r);
      case Evict(k) => EvictKeeps(s, k);
    }
  }

  // ---- runs ----

  ghost predicate Run(s: State, rs: seq<Request>)
    decreases |rs|
  {
    s.seqNo <= SEQ_MAX && Small(s) && (rs != [] ==> Run(Next(s, rs[0]), rs[1..]))
  }

  ghost function After(s: State, rs: seq<Request>): State
    requires Run(s, rs)
    decreases |rs|
  {
    if rs == [] then s else After(Next(s, rs[0]), rs[1..])
  }

  /** The logger as it starts: the count is a recount. */
  function Start(boot: nat, files: set<Name>): State { State(false, "", 0, boot, |Sums(files)|, files) }

  lemma {:induction false} RunKeeps(s: State, rs: seq<Request>)
    requires Fresh(s) && s.cached <= Recount(s) && Run(s, rs)
    ensures After(s, rs).cached <= Recount(After(s, rs))
    ensures s.cached == Recount(s) && (forall r <- rs :: AllGoesWell(r)) ==> After(s, rs).cached == Recount(After(s, rs))
    decreases |rs|
  {
    if rs != [] {
      NextKeeps(s, rs[0]);
      RunKeeps(Next(s, rs[0]), rs[1..]);
      assert rs[0] in rs;
      assert forall r <- rs[1..] :: r in rs;
    }
  }

  /** Through any run of requests the incremental count is what a recount would give, less the open
      session's own, if every storage call succeeded; and it never overstates whatever failed. */
  lemma CountIsARecount(boot: nat, files: set<Name>, rs: seq<Request>)
    requires NoneAfter(files, boot, 0) && Run(Start(boot, files), rs)
    ensures var s := After(Start(boot, files), rs);
            && s.cached <= Recount(s)
            && ((forall r <- rs :: AllGoesWell(r)) ==> s.cached == Recount(s))
  {
    RunKeeps(Start(boot, files), rs);
  }

  // ---- the eviction pass ----

  /** A free-space reading; none when the storage could not tell. */
  datatype Info = Info(freeKb: nat, totalKb: nat)

  predicate Known(i: Option<Info>) { i.Some? && i.value.totalKb != 0 }
  predicate Below(i: Info, pct: nat) { i.freeKb < i.totalKb * pct / 100 }

  /** Free space is below a percentage exactly if a kilobyte more would not be above it. */
  lemma BelowMeans(i: Info, pct: nat)
    ensures Below(i, pct) <==> (i.freeKb + 1) * 100 <= i.totalKb * pct
  {
  }

  /** A pass starts only on a sane reading below the eviction threshold. */
  predicate Starts(first: Option<Info>) {
    Known(first) && first.value.freeKb <= first.value.totalKb && Below(first.value, STO_EVICT_PCT)
  }

  /** The reading in hand after `n` tries. */
  function Reading(first: Option<Info>, infos: seq<Option<Info>>, n: nat): Option<Info>
    requires n <= |infos|
  {
    if n == 0 then first else infos[n - 1]
  }

  predicate ShortAfter(first: Option<Info>, infos: seq<Option<Info>>, n: nat)
    requires n <= |infos|
  {
    Known(Reading(first, infos, n)) && Below(Reading(first, infos, n).value, STO_TARGET_PCT)
  }

  function Successes(goes: seq<bool>, n: nat): (c: nat)
    requires n <= |goes|
    ensures c <= n
  {
    if n == 0 then 0 else Successes(goes, n - 1) + if goes[n - 1] then 1 else 0
  }

  function Without(dir: seq<string>, text: string): seq<string>
    decreases |dir|
  {
    if dir == [] then []
    else
      var front, last := Without(dir[..|dir| - 1], text), dir[|dir| - 1];
      if last == text then front else front + [last]
  }

  lemma {:induction false} WithoutIsLess(dir: seq<string>, text: string)
    ensures AsSet(Without(dir, text)) == AsSet(dir) - {NameOf(text)}
    decreases |dir|
  {
    if dir != [] {
      var front, last := dir[..|dir| - 1], dir[|dir| - 1];
      WithoutIsLess(front, text);
      NamesAreTexts(last, text);
      assert (Without(front, text) + [last])[..|Without(front, text)|] == Without(front, text);
    }
  }

  class Storage {
    var dir: seq<string>        // the names under /sessions, in the order a listing gives them

    constructor (names: seq<string>)
      ensures dir == names
    {
      dir := names;
    }

    method Exists(text: string) returns (there: bool)
      ensures there <==> NameOf(text) in AsSet(dir)
    {
      there := text in dir;
      if there {
        var i :| 0 <= i < |dir| && dir[i] == text;
        ListedIsIn(dir, i);
      } else if NameOf(text) in AsSet(dir) {
        InListing(dir, text);
      }
    }

    method Write(text: string)
      modifies this
      ensures AsSet(dir) == old(AsSet(dir)) + {NameOf(text)}
    {
      var there := Exists(text);
      if !there {
        assert (dir + [text])[..|dir|] == dir;
        dir := dir + [text];
      }
    }

    method Remove(text: string)
      modifies this
      ensures AsSet(dir) == old(AsSet(dir)) - {NameOf(text)}
    {
      WithoutIsLess(dir, text);
      dir := Without(dir, text);
    }

    /** evict_one: the unlink may fail. */
    method EvictOne(id: string, goes: bool)
      modifies this
      ensures AsSet(dir) == old(AsSet(dir)) - if goes then {Log(id)} else {}
    {
      if goes {
        var text := TextOf(Log(id));
        assert text[|text| - 4..] == ".log" && text[..|text| - 4] == id;
        Remove(text);
      }
    }

    /** eviction_check. `first` and `infos` are its free-space readings, `goes` whether each unlink
        succeeds. It makes at most EVICT_MAX_PER_PASS tries, none unless space is short, and stops sooner
        only when the target is reached, nothing is left or the storage cannot tell; what is gone is the
        `k` oldest logs, for as many as went. */
    method EvictionCheck(cur: Option<string>, first: Option<Info>, infos: seq<Option<Info>>, goes: seq<bool>)
      returns (k: nat, tries: nat)
      requires |infos| == EVICT_MAX_PER_PASS && |goes| == EVICT_MAX_PER_PASS
      modifies this
      ensures k <= tries <= EVICT_MAX_PER_PASS && AsSet(dir) == Evicted(old(AsSet(dir)), cur, k)
      ensures k == Successes(goes, tries)
      ensures !Starts(first) ==> tries == 0 && dir == old(dir)
      ensures Starts(first) ==>
                || tries == EVICT_MAX_PER_PASS
                || Candidates(AsSet(dir), cur) == {}
                || !ShortAfter(first, infos, tries)
      ensures forall i :: 0 <= i < tries ==> ShortAfter(first, infos, i)
    {
      EvictedNone(AsSet(dir), cur);
      hide Older, Evicted, Candidates, AsSet;
      k, tries := 0, 0;
      if !Known(first) || first.value.freeKb > first.value.totalKb || !Below(first.value, STO_EVICT_PCT) {
        return;
      }
      var si := first.value;
      while Below(si, STO_TARGET_PCT) && tries < EVICT_MAX_PER_PASS
        invariant k <= tries <= EVICT_MAX_PER_PASS && k == Successes(goes, tries)
        invariant AsSet(dir) == Evicted(old(AsSet(dir)), cur, k)
        invariant Known(Reading(first, infos, tries)) && si == Reading(first, infos, tries).value
        invariant forall i :: 0 <= i < tries ==> ShortAfter(first, infos, i)
        decreases EVICT_MAX_PER_PASS - tries
      {
        var oldest := ScanOldest(dir, cur);
        if oldest.None? {
          break;
        }
        OnlyOneOldest(oldest.value, Candidates(AsSet(dir), cur));
        EvictedSteps(old(AsSet(dir)), cur, k);
        EvictOne(oldest.value, goes[tries]);
        if goes[tries] {
          k := k + 1;
        }
        tries := tries + 1;
        if !Known(infos[tries - 1]) {
          break;
        }
        si := infos[tries - 1].value;
      }
    }
  }

  // ---- the logger's own routines ----

  /** What storage says and does during one eviction pass. */
  datatype Pass = Pass(first: Option<Info>, infos: seq<Option<Info>>, goes: seq<bool>)

  predicate PassOk(p: Pass) { |p.infos| == EVICT_MAX_PER_PASS && |p.goes| == EVICT_MAX_PER_PASS }

  class SessionLogger {
    const st: Storage
    const boot: nat
    var open: bool
    var id: string
    var seqNo: nat
    var cached: nat

    ghost function View(): State
      reads this, st
    {
      State(open, id, seqNo, boot, cached, AsSet(st.dir))
    }

    /** status_cache_prime: the one full recount. */
    constructor (storage: Storage, bootCount: nat)
      requires forall i, j :: 0 <= i < j < |storage.dir| ==> storage.dir[i] != storage.dir[j]
      requires |Sums(AsSet(storage.dir))| <= 0xFFFF
      ensures st == storage && View() == Start(bootCount, AsSet(storage.dir)) && storage.dir == old(storage.dir)
    {
      st, boot, open, id, seqNo := storage, bootCount, false, "", 0;
      new;
      cached := SessionCount(st.dir);
    }

    /** eviction_check never changes the count. */
    method EvictionCheck(p: Pass) returns (k: nat)
      requires PassOk(p)
      modifies st
      ensures View() == Evicting(old(View()), k) && k <= EVICT_MAX_PER_PASS
    {
      var tries;
      k, tries := st.EvictionCheck(if id == "" then None else Some(id), p.first, p.infos, p.goes);
    }

    method RebuildSum(sum: Rebuild)
      modifies st
      ensures AsSet(st.dir) == WithSum(old(AsSet(st.dir)), id, sum)
    {
      match sum {
        case Landed =>
          st.Remove(id + ".sum.tmp");
          st.Write(id + ".sum");
        case Failed(left) =>
          if left {
            st.Write(id + ".sum.tmp");
          }
      }
      NamesOf(id);
    }

    method NextSessionId() returns (ok: bool)
      requires seqNo <= SEQ_MAX
      modifies this`seqNo, this`id
      ensures ok == (old(seqNo) < SEQ_MAX)
      ensures if ok then seqNo == old(seqNo) + 1 && id == SessionId(boot, seqNo) else seqNo == old(seqNo) && id == old(id)
    {
      if seqNo >= SEQ_MAX {
        return false;
      }
      seqNo := seqNo + 1;
      id := SessionId(boot, seqNo);
      return true;
    }

    /** open_session. `low` is the pass run when free space is below the reserve, `refused` whether it
        still is afterwards. */
    method Open(low: Option<Pass>, refused: bool, created: bool, sum: Rebuild, last: Pass) returns (ghost r: Request)
      requires seqNo <= SEQ_MAX && (low.Some? ==> PassOk(low.value)) && PassOk(last) && (refused ==> low.Some?)
      modifies this`open, this`id, this`seqNo, st
      ensures r.Open? && r.refused == refused && r.created == created && r.sum == sum
      ensures r.evictBefore <= (if low.Some? then EVICT_MAX_PER_PASS else 0) && r.evictAfter <= EVICT_MAX_PER_PASS
      ensures View() == Opened(old(View()), r)
    {
      hide AsSet, NameOf, SessionId, Evicted;
      r := Request.Open(0, refused, created, sum, 0);
      if open {
        return;
      }
      if low.Some? {
        var k := EvictionCheck(low.value);
        r := r.(evictBefore := k);
        if refused {
          return;
        }
      } else {
        EvictedNone(AsSet(st.dir), Current(View()));
      }
      var ok := NextSessionId();
      if !ok {
        return;
      }
      if !created {
        id := "";
        return;
      }
      open := true;
      st.Write(id + ".log");
      RebuildSum(sum);
      NamesOf(id);
      var k := EvictionCheck(last);
      r := r.(evictAfter := k);
    }

    method Close(sum: Rebuild)
      modifies this`open, this`id, this`cached, st
      ensures View() == Closed(old(View()), sum)
    {
      hide AsSet, NameOf;
      if !open {
        return;
      }
      open := false;
      RebuildSum(sum);
      if sum.Landed? {
        cached := (cached + 1) % TWO_16;
      }
      id := "";
    }

    method Delete(which: string, logProbed: bool, sumProbed: bool, logRc: int, sumRc: int) returns (rc: int)
      modifies this`cached, st
      ensures (View(), rc) == Deleted(old(View()), Request.Delete(which, logProbed, sumProbed, logRc, sumRc))
    {
      hide AsSet, NameOf;
      if open && id == which {
        return -4;
      }
      NamesOf(which);
      var haveLog := st.Exists(which + ".log");
      var haveSum := st.Exists(which + ".sum");
      var hasLog, hasSum := !logProbed || haveLog, !sumProbed || haveSum;
      if !hasLog && !hasSum {
        return -3;
      }
      rc := 0;
      if hasLog {
        if logRc == 0 {
          st.Remove(which + ".log");
        }
        rc := logRc;
      }
      if hasSum {
        if sumRc == 0 {
          st.Remove(which + ".sum");
        }
        if rc == 0 {
          rc := sumRc;
        }
      }
      if hasSum && sumRc == 0 && cached > 0 {
        cached := cached - 1;
      }
      assert AsSet(st.dir) == old(AsSet(st.dir)) - (if logRc == 0 then {Log(which)} else {})
                              - (if sumRc == 0 then {Sum(which)} else {});
    }
  }

  lemma NamesOf(id: string)
    ensures NameOf(id + ".log") == Log(id) && NameOf(id + ".sum") == Sum(id) && NameOf(id + ".sum.tmp") == Tmp(id)
  {
    var l, s, t := id + ".log", id + ".sum", id + ".sum.tmp";
    assert l[|l| - 4..] == ".log" && l[..|l| - 4] == id;
    assert s[|s| - 4..] == ".sum" && s[..|s| - 4] == id && ".sum"[1] != ".log"[1];
    assert t[|t| - 4..] == ".tmp" && ".tmp"[1] != ".log"[1] && ".tmp"[1] != ".sum"[1];
  }

  lemma EvictedNone(files: set<Name>, cur: Option<string>)
    ensures Evicted(files, cur, 0) == files
  {
  }
}
