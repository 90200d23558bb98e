/** The session table of the LIST command (components/app/cmd/cmd.c): one pass over a directory
    listing in any order, merging each session's .log and .sum and keeping the newest 48. */
module SessionTable {
  import opened Prelude

  const LIST_MAX_SESSIONS: nat := 48
  const ID_MAX: nat := 10

  datatype File = File(name: string, size: U32)
  datatype Row = Row(id: string, logKb: nat, sumKb: nat, hasLog: bool, hasSum: bool)

  // ---- the order of ids ----

  /** strcmp(a, b) < 0 for strings of single-byte characters. */
  predicate Less(a: string, b: string)
    decreases |a|
  {
    b != [] && (a == [] || a[0] < b[0] || (a[0] == b[0] && Less(a[1..], b[1..])))
  }

  lemma {:induction false} LessTotal(a: string, b: string)
    ensures !(Less(a, b) && Less(b, a)) && !Less(a, a)
    ensures a != b ==> Less(a, b) || Less(b, a)
    decreases |a|
  {
    if a != [] {
      LessTotal(a[1..], a[1..]);
      if b != [] {
        LessTotal(a[1..], b[1..]);
        if a[0] == b[0] && a[1..] == b[1..] {
          assert a == [a[0]] + a[1..] && b == [b[0]] + b[1..];
        }
      }
    }
  }

  lemma {:induction false} LessTransitive(a: string, b: string, c: string)
    requires Less(a, b) && Less(b, c)
    ensures Less(a, c)
    decreases |a|
  {
    if a != [] && a[0] == b[0] && b[0] == c[0] {
      LessTransitive(a[1..], b[1..], c[1..]);
    }
  }

  // ---- one directory entry ----

  function LastDot(name: string): (r: Option<nat>)
    ensures r.Some? ==> r.value < |name| && name[r.value] == '.' && '.' !in name[r.value + 1..]
    ensures r.None? ==> '.' !in name
  {
    if name == [] then None
    else if name[|name| - 1] == '.' then Some(|name| - 1)
    else LastDot(name[..|name| - 1])
  }

  /** The session id and whether the file is its .log; nothing for any other file. */
  function Parse(name: string): Option<(string, bool)> {
    match LastDot(name)
    case None => None
    case Some(dot) =>
      if name[dot..] != ".log" && name[dot..] != ".sum" then None
      else if dot == 0 || dot > ID_MAX then None
      else Some((name[..dot], name[dot..] == ".log"))
  }

  /** Only `<id>.log` and `<id>.sum` with an id of 1 to 10 characters count, whatever the id is. */
  lemma ParseIsExact(name: string, id: string, isLog: bool)
    ensures Parse(name) == Some((id, isLog)) <==>
              0 < |id| <= ID_MAX && name == id + (if isLog then ".log" else ".sum")
  {
    var ext := if isLog then ".log" else ".sum";
    if name == id + ext {
      LastDotOf(id, ext);
      assert name[|id|..] == ext && name[..|id|] == id;
    }
    if Parse(name) == Some((id, isLog)) {
      var dot := LastDot(name).value;
      assert name == name[..dot] + name[dot..];
    }
  }

  lemma LastDotOf(id: string, ext: string)
    requires ext == ".log" || ext == ".sum"
    ensures LastDot(id + ext) == Some(|id|)
  {
    var name := id + ext;
    var dot := LastDot(name);
    assert name[|id|] == '.' && '.' in name;
    assert forall k :: |id| < k < |name| ==> name[k] == ext[k - |id|];
    assert forall k :: dot.value < k < |name| ==> name[k] == name[dot.value + 1..][k - dot.value - 1];
  }

  function Kb(size: U32): nat { (size + 1023) % TWO_32 / 1024 % TWO_16 }

  /** The size rounded up to whole kilobytes, exactly as long as that fits in 16 bits. */
  lemma KbMeans(size: U32)
    ensures 0 <= Kb(size) * 1024 - size < 1024 <==> size <= 65535 * 1024
  {
    var up := size + 1023;
    if size <= 65535 * 1024 {
      assert up / 1024 < TWO_16;
    } else {
      assert Kb(size) <= 65535;
    }
  }

  function Merge(r: Row, isLog: bool, size: U32): Row {
    if isLog then r.(hasLog := size > 0, logKb := Kb(size)) else r.(hasSum := true, sumKb := Kb(size))
  }

  function Blank(id: string): Row { Row(id, 0, 0, false, false) }

  // ---- what a listing says of an id ----

  predicate Names(f: File, id: string) { Parse(f.name).Some? && Parse(f.name).value.0 == id }

  /** All the facts the listing holds on `id`. */
  function Merged(l: seq<File>, id: string): (r: Row)
    ensures r.id == id
    decreases |l|
  {
    if l == [] then Blank(id)
    else
      var f, rest := l[|l| - 1], Merged(l[..|l| - 1], id);
      if Names(f, id) then Merge(rest, Parse(f.name).value.1, f.size) else rest
  }

  function Ids(l: seq<File>): set<string>
    decreases |l|
  {
    if l == [] then {}
    else
      var f := l[|l| - 1];
      Ids(l[..|l| - 1]) + if Parse(f.name).Some? then {Parse(f.name).value.0} else {}
  }

  lemma {:induction false} UnnamedIsBlank(l: seq<File>, id: string)
    requires id !in Ids(l)
    ensures Merged(l, id) == Blank(id)
    decreases |l|
  {
    if l != [] {
      UnnamedIsBlank(l[..|l| - 1], id);
    }
  }

  /** With no file listed twice, the merged facts are those of the id's own two files. */
  lemma {:induction false} MergedMeans(l: seq<File>, id: string)
    requires forall i, j :: 0 <= i < j < |l| ==> l[i].name != l[j].name
    requires 0 < |id| <= ID_MAX
    ensures var r := Merged(l, id);
            && (r.hasSum <==> exists f <- l :: f.name == id + ".sum")
            && (r.hasLog <==> exists f <- l :: f.name == id + ".log" && f.size > 0)
            && (forall f <- l :: f.name == id + ".sum" ==> r.sumKb == Kb(f.size))
            && (forall f <- l :: f.name == id + ".log" ==> r.logKb == Kb(f.size))
            && ((forall f <- l :: f.name != id + ".sum") ==> r.sumKb == 0)
            && ((forall f <- l :: f.name != id + ".log") ==> r.logKb == 0)
    decreases |l|
  {
    if l != [] {
      var f, front := l[|l| - 1], l[..|l| - 1];
      MergedMeans(front, id);
      ParseIsExact(f.name, id, true);
      ParseIsExact(f.name, id, false);
      assert forall g <- front :: g.name != f.name;
      assert forall g <- l :: g in front || g == f;
      assert forall g <- front :: g in l;
      assert f in l;
      assert |".log"| == 4 && ".log"[1] != ".sum"[1];
      assert id + ".log" != id + ".sum" by {
        assert (id + ".log")[|id| + 1] != (id + ".sum")[|id| + 1];
      }
    }
  }

  // ---- the newest 48 ----

  /** `t` is the newest LIST_MAX_SESSIONS of `s`, or all of it. */
  predicate Newest(t: set<string>, s: set<string>) {
    && t <= s
    && |t| == (if |s| < LIST_MAX_SESSIONS then |s| else LIST_MAX_SESSIONS)
    && forall x, y :: x in t && y in s && y !in t ==> Less(y, x)
  }

  lemma SubsetSize(a: set<string>, b: set<string>)
    requires a <= b
    ensures |a| <= |b| && (|a| == |b| ==> a == b)
  {
    var d := b - a;
    assert b == a + d;
    assert |b| == |a| + |d|;
  }

  /** There is only one such set, so the order of the listing cannot matter. */
  lemma NewestIsUnique(t: set<string>, u: set<string>, s: set<string>)
    requires Newest(t, s) && Newest(u, s)
    ensures t == u
  {
    if t != u {
      if t <= u {
        SubsetSize(t, u);
      } else if u <= t {
        SubsetSize(u, t);
      } else {
        var x :| x in t && x !in u;
        var y :| y in u && y !in t;
        LessTotal(x, y);
      }
    }
  }

  predicate IsLeast(lo: string, t: set<string>) {
    lo in t && forall x <- t :: x == lo || Less(lo, x)
  }

  /** The three things that can happen to an id not in the table. */
  lemma NewIdJoins(t: set<string>, s: set<string>, x: string)
    requires Newest(t, s) && x !in t && |t| < LIST_MAX_SESSIONS
    ensures x !in s && Newest(t + {x}, s + {x})
  {
    SubsetSize(t, s);
  }

  lemma OldIdStaysOut(t: set<string>, s: set<string>, x: string, lo: string)
    requires Newest(t, s) && |t| == LIST_MAX_SESSIONS && IsLeast(lo, t) && x !in t && !Less(lo, x)
    ensures Newest(t, s + {x})
  {
    LessTotal(lo, x);
    SubsetSize(s, s + {x});
    forall a, b | a in t && b in s + {x} && b !in t ensures Less(b, a) {
      if b == x && a != lo {
        LessTransitive(x, lo, a);
      }
    }
  }

  lemma NewerIdReplaces(t: set<string>, s: set<string>, x: string, lo: string)
    requires Newest(t, s) && |t| == LIST_MAX_SESSIONS && IsLeast(lo, t) && x !in t && Less(lo, x)
    ensures x !in s && Newest(t - {lo} + {x}, s + {x})
  {
    LessTotal(lo, x);
    var u := t - {lo} + {x};
    assert |u| == |t|;
    SubsetSize(s, s + {x});
    forall a, b | a in u && b in s + {x} && b !in u ensures Less(b, a) {
      if b != lo && a == x {
        LessTransitive(b, lo, x);
      }
    }
  }

  // ---- the table ----

  function IdSet(rows: seq<Row>): set<string> { set i | 0 <= i < |rows| :: rows[i].id }

  predicate Distinct(rows: seq<Row>) {
    forall i, j :: 0 <= i < j < |rows| ==> rows[i].id != rows[j].id
  }

  lemma {:induction false} IdSetSize(rows: seq<Row>)
    requires Distinct(rows)
    ensures |IdSet(rows)| == |rows|
    decreases |rows|
  {
    if rows != [] {
      var front, last := rows[..|rows| - 1], rows[|rows| - 1];
      IdSetSize(front);
      assert IdSet(rows) == IdSet(front) + {last.id};
      assert last.id !in IdSet(front);
    } else {
      assert IdSet(rows) == {};
    }
  }

  /** The first row of least id. */
  predicate IsLow(rows: seq<Row>, lo: nat) {
    lo < |rows| && forall i :: 0 <= i < |rows| && i != lo ==> Less(rows[lo].id, rows[i].id)
  }

  /** The table after the listing `l` has gone by. */
  predicate TableOf(rows: seq<Row>, l: seq<File>) {
    && |rows| <= LIST_MAX_SESSIONS
    && Distinct(rows)
    && Newest(IdSet(rows), Ids(l))
    && forall i :: 0 <= i < |rows| ==> rows[i] == Merged(l, rows[i].id)
  }

  function WithoutRow(rows: seq<Row>, k: nat): seq<Row>
    requires k < |rows|
  {
    rows[..k] + rows[k + 1..]
  }

  lemma WithoutRowIds(rows: seq<Row>, k: nat)
    requires k < |rows| && Distinct(rows)
    ensures Distinct(WithoutRow(rows, k)) && IdSet(WithoutRow(rows, k)) == IdSet(rows) - {rows[k].id}
  {
    var w := WithoutRow(rows, k);
    forall x | x in IdSet(rows) - {rows[k].id} ensures x in IdSet(w) {
      var i :| 0 <= i < |rows| && rows[i].id == x;
      assert w[if i < k then i else i - 1].id == x;
    }
  }

  /** Another file of an id already in the table. */
  lemma UpdateOk(rows: seq<Row>, l: seq<File>, f: File, k: nat)
    requires TableOf(rows, l) && k < |rows| && Names(f, rows[k].id)
    ensures TableOf(rows[k := Merge(rows[k], Parse(f.name).value.1, f.size)], l + [f])
  {
    var n := rows[k := Merge(rows[k], Parse(f.name).value.1, f.size)];
    assert (l + [f])[..|l|] == l;
    assert forall i :: 0 <= i < |rows| ==> n[i].id == rows[i].id;
    assert IdSet(n) == IdSet(rows);
    assert rows[k].id in IdSet(rows);
    assert Ids(l + [f]) == Ids(l);
  }

  /** A file that is no session's. */
  lemma SkipOk(rows: seq<Row>, l: seq<File>, f: File)
    requires TableOf(rows, l) && Parse(f.name).None?
    ensures TableOf(rows, l + [f])
  {
    assert (l + [f])[..|l|] == l;
  }

  lemma LowIsLeast(rows: seq<Row>, lo: nat)
    requires IsLow(rows, lo)
    ensures IsLeast(rows[lo].id, IdSet(rows))
  {
  }

  lemma RejectOk(rows: seq<Row>, l: seq<File>, f: File, lo: nat, id: string)
    requires TableOf(rows, l) && Names(f, id) && id !in IdSet(rows)
    requires |rows| == LIST_MAX_SESSIONS && IsLow(rows, lo) && !Less(rows[lo].id, id)
    ensures TableOf(rows, l + [f])
  {
    assert (l + [f])[..|l|] == l;
    IdSetSize(rows);
    LowIsLeast(rows, lo);
    OldIdStaysOut(IdSet(rows), Ids(l), id, rows[lo].id);
    forall i | 0 <= i < |rows| ensures rows[i] == Merged(l + [f], rows[i].id) {
      assert rows[i].id in IdSet(rows);
    }
  }

  lemma AppendRows(rows: seq<Row>, l: seq<File>, f: File, id: string)
    requires Names(f, id) && id !in IdSet(rows) && id !in Ids(l) && Distinct(rows)
    requires forall i :: 0 <= i < |rows| ==> rows[i] == Merged(l, rows[i].id)
    ensures var n := rows + [Merge(Blank(id), Parse(f.name).value.1, f.size)];
            Distinct(n) && IdSet(n) == IdSet(rows) + {id} && Ids(l + [f]) == Ids(l) + {id}
            && forall i :: 0 <= i < |n| ==> n[i] == Merged(l + [f], n[i].id)
  {
    var n := rows + [Merge(Blank(id), Parse(f.name).value.1, f.size)];
    assert (l + [f])[..|l|] == l;
    UnnamedIsBlank(l, id);
    forall i | 0 <= i < |rows| ensures n[i].id != id {
      assert rows[i].id in IdSet(rows);
    }
    assert IdSet(n) == IdSet(rows) + {id} by {
      assert n[|rows|].id == id;
      assert forall i :: 0 <= i < |rows| ==> n[i].id == rows[i].id;
    }
  }

  lemma JoinOk(rows: seq<Row>, l: seq<File>, f: File, id: string)
    requires TableOf(rows, l) && Names(f, id) && id !in IdSet(rows) && |rows| < LIST_MAX_SESSIONS
    ensures TableOf(rows + [Merge(Blank(id), Parse(f.name).value.1, f.size)], l + [f])
  {
    IdSetSize(rows);
    NewIdJoins(IdSet(rows), Ids(l), id);
    AppendRows(rows, l, f, id);
  }

  lemma ReplaceOk(rows: seq<Row>, l: seq<File>, f: File, lo: nat, id: string)
    requires TableOf(rows, l) && Names(f, id) && id !in IdSet(rows)
    requires |rows| == LIST_MAX_SESSIONS && IsLow(rows, lo) && Less(rows[lo].id, id)
    ensures TableOf(WithoutRow(rows, lo) + [Merge(Blank(id), Parse(f.name).value.1, f.size)], l + [f])
  {
    hide Less, LastDot, Parse, Ids, Merged;
    IdSetSize(rows);
    LowIsLeast(rows, lo);
    NewerIdReplaces(IdSet(rows), Ids(l), id, rows[lo].id);
    WithoutRowIds(rows, lo);
    AppendRows(WithoutRow(rows, lo), l, f, id);
  }

  /** Two listings of the same directory, in whatever orders, leave the same ids in the table. */
  lemma {:induction false} OrderIsIrrelevant(rows: seq<Row>, l: seq<File>, rows': seq<Row>, l': seq<File>)
    requires TableOf(rows, l) && TableOf(rows', l') && Ids(l) == Ids(l')
    ensures IdSet(rows) == IdSet(rows') && |rows| == |rows'|
  {
    NewestIsUnique(IdSet(rows), IdSet(rows'), Ids(l));
    IdSetSize(rows);
    IdSetSize(rows');
  }

  // ---- in place ----

  class Table {
    const sess: array<Row>
    var n: nat

    ghost function Rows(): seq<Row>
      reads this, sess
      requires n <= sess.Length
    {
      sess[..n]
    }

    ghost predicate Valid(l: seq<File>)
      reads this, sess
    {
      sess.Length == LIST_MAX_SESSIONS && n <= sess.Length && TableOf(Rows(), l)
    }

    constructor ()
      ensures fresh(sess) && Valid([]) && Rows() == []
    {
      sess := new Row[LIST_MAX_SESSIONS](_ => Blank(""));
      n := 0;
      new;
      assert IdSet(Rows()) == {};
    }

    method Lowest() returns (lo: nat)
      requires 0 < n <= sess.Length && Distinct(Rows())
      ensures IsLow(Rows(), lo)
    {
      lo := 0;
      for i := 1 to n
        invariant lo < i
        invariant forall j :: 0 <= j < i && j != lo ==> Less(sess[lo].id, sess[j].id)
      {
        if Less(sess[i].id, sess[lo].id) {
          forall j | 0 <= j < i && j != lo ensures Less(sess[i].id, sess[j].id) {
            LessTransitive(sess[i].id, sess[lo].id, sess[j].id);
          }
          lo := i;
        } else {
          assert Rows()[i].id != Rows()[lo].id;
          LessTotal(sess[i].id, sess[lo].id);
        }
      }
    }

    /** list_make_room: whether a place was made by dropping the oldest row. */
    method MakeRoom(id: string, ghost l: seq<File>) returns (room: bool, ghost lo: nat)
      requires Valid(l) && n == LIST_MAX_SESSIONS
      modifies this`n, sess
      ensures sess.Length == LIST_MAX_SESSIONS && n <= sess.Length && IsLow(old(Rows()), lo)
      ensures room == Less(old(Rows())[lo].id, id)
      ensures Rows() == if room then WithoutRow(old(Rows()), lo) else old(Rows())
    {
      ghost var was := Rows();
      var low := Lowest();
      lo := low;
      if !Less(sess[low].id, id) {
        return false, lo;
      }
      var k := low;
      while k + 1 < n
        invariant n == |was| && low <= k < n
        invariant sess[..k] == WithoutRow(was, lo)[..k]
        invariant sess[k + 1..] == was[k + 1..]
      {
        sess[k] := sess[k + 1];
        k := k + 1;
      }
      n := n - 1;
      return true, lo;
    }

    method Find(id: string) returns (idx: int)
      requires n <= sess.Length
      ensures idx < 0 ==> id !in IdSet(Rows())
      ensures idx >= 0 ==> idx < n && sess[idx].id == id
    {
      for i := 0 to n
        invariant forall j :: 0 <= j < i ==> sess[j].id != id
      {
        if sess[i].id == id {
          return i;
        }
      }
      return -1;
    }

    /** scan_one_entry: the table of a listing becomes the table of that listing and one file more. */
    method ScanOne(f: File, ghost l: seq<File>)
      requires Valid(l)
      modifies this`n, sess
      ensures Valid(l + [f])
    {
      var parsed := Parse(f.name);
      if parsed.None? {
        SkipOk(Rows(), l, f);
        return;
      }
      var (id, isLog) := parsed.value;
      var idx := Find(id);
      if idx >= 0 {
        UpdateOk(Rows(), l, f, idx);
        sess[idx] := Merge(sess[idx], isLog, f.size);
        return;
      }
      AddNew(f, id, isLog, l);
    }

    method Append(row: Row)
      requires n < sess.Length
      modifies this`n, sess
      ensures n == old(n) + 1 && Rows() == old(Rows()) + [row]
    {
      sess[n] := row;
      n := n + 1;
    }

    method AddNew(f: File, id: string, isLog: bool, ghost l: seq<File>)
      requires Valid(l) && Parse(f.name) == Some((id, isLog)) && id !in IdSet(Rows())
      modifies this`n, sess
      ensures Valid(l + [f])
    {
      ghost var was := Rows();
      if n >= LIST_MAX_SESSIONS {
        var room, lo := MakeRoom(id, l);
        if !room {
          RejectOk(was, l, f, lo, id);
          return;
        }
        ReplaceOk(was, l, f, lo, id);
      } else {
        JoinOk(was, l, f, id);
      }
      Append(Merge(Blank(id), isLog, f.size));
    }

    /** op_list's measuring loop: the newest 48 ids of the directory, each with all its facts. */
    method Scan(listing: seq<File>)
      requires Valid([]) && n == 0
      modifies this`n, sess
      ensures Valid(listing)
    {
      for i := 0 to |listing|
        invariant Valid(listing[..i])
      {
        ScanOne(listing[i], listing[..i]);
        assert listing[..i] + [listing[i]] == listing[..i + 1];
      }
      assert listing[..|listing|] == listing;
    }
  }
}
