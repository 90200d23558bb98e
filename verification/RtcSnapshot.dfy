/** components/app/sys/lt_rtc.c: the snapshot that survives a reset, behind a sequence lock. The
    writer rewrites the whole record between two increments of the generation; the guarded reader
    checks magic, version and checksum and copies the record, and believes what it saw only if the
    generation was even and did not move. */
module RtcSnapshot {
  import opened Prelude

  const RTC_READ_RETRIES: nat := 8

  /** How a record is laid out and checked: its length in words, the two constants and the checksum
      over all words but the last. */
  datatype Layout = Layout(words: nat, magic: int, version: int, crc: seq<int> -> int)

  datatype Validity = Absent | Invalid | Valid

  predicate LayoutOk(f: Layout) { f.words >= 3 && f.magic != 0 }

  /** rtc_validate_copy's verdict on a record: word 0 is the magic, word 1 the version, the last word
      the checksum. */
  function Judge(f: Layout, r: seq<int>): Validity
    requires LayoutOk(f) && |r| == f.words
  {
    if r[0] != f.magic then Absent
    else if r[1] != f.version then Invalid
    else if r[f.words - 1] != f.crc(r[..f.words - 1]) then Invalid
    else Valid
  }

  /** What a write section leaves behind: a sealed snapshot, or the cleared record. */
  datatype Write = Save(body: seq<int>) | Clear

  function Zero(n: nat): seq<int> { seq(n, _ => 0) }

  /** The record lt_rtc_save publishes for the words after magic and version. */
  function Sealed(f: Layout, body: seq<int>): seq<int> {
    var r := [f.magic, f.version] + body;
    r + [f.crc(r)]
  }

  function Outcome(f: Layout, w: Write): seq<int> {
    match w
    case Save(body) => Sealed(f, body)
    case Clear => Zero(f.words)
  }

  predicate WriteOk(f: Layout, w: Write) { w.Save? ==> |w.body| == f.words - 3 }

  // ---- the interleaved system ----

  datatype Reader =
    | Outside
    | Checking(gen0: nat, start: nat, log: seq<(nat, int)>)
    | Believed(start: nat, lapse: int, log: seq<(nat, int)>)

  /** `gen` counts increments; the 32-bit generation is its low part. `pubs[k]` is the record after k
      write sections of this boot; `pubs[0]` is whatever the reset left. */
  datatype Sys = Sys(gen: nat, mem: seq<int>, now: Write, pubs: seq<seq<int>>, rd: Reader)

  /** The stores of a section may come in any order and repeat (the memset, then the fields, then the
      checksum); what counts is that the record is complete when the section ends. */
  datatype Move = Begin(w: Write) | Put(i: nat, v: int) | End | Load0 | Copy(i: nat) | Load1

  predicate Enabled(f: Layout, s: Sys, m: Move) {
    match m
    case Begin(w) => s.gen % 2 == 0 && WriteOk(f, w)
    case Put(i, _) => s.gen % 2 == 1 && i < |s.mem|
    case End => s.gen % 2 == 1 && s.mem == Outcome(f, s.now)
    case Load0 => true
    case Copy(i) => s.rd.Checking? && i < |s.mem|
    case Load1 => s.rd.Checking?
  }

  function Next(f: Layout, s: Sys, m: Move): Sys
    requires Enabled(f, s, m)
  {
    match m
    case Begin(w) => s.(gen := s.gen + 1, now := w)
    case Put(i, v) => s.(mem := s.mem[i := v])
    case End => s.(gen := s.gen + 1, pubs := s.pubs + [s.mem])
    case Load0 => s.(rd := if s.gen % TWO_32 % 2 == 1 then Outside else Checking(s.gen % TWO_32, s.gen, []))
    case Copy(i) => s.(rd := Checking(s.rd.gen0, s.rd.start, s.rd.log + [(i, s.mem[i])]))
    case Load1 =>
      s.(rd := if s.gen % TWO_32 == s.rd.gen0 then Believed(s.rd.start, s.gen - s.rd.start, s.rd.log) else Outside)
  }

  predicate Run(f: Layout, s: Sys, ms: seq<Move>)
    decreases |ms|
  {
    ms == [] || (Enabled(f, s, ms[0]) && Run(f, Next(f, s, ms[0]), ms[1..]))
  }

  function After(f: Layout, s: Sys, ms: seq<Move>): Sys
    requires Run(f, s, ms)
    decreases |ms|
  {
    if ms == [] then s else After(f, Next(f, s, ms[0]), ms[1..])
  }

  function Boot(left: seq<int>): Sys { Sys(0, left, Clear, [left], Outside) }

  // ---- the invariant ----

  predicate FromRecord(log: seq<(nat, int)>, r: seq<int>) {
    forall x <- log :: x.0 < |r| && x.1 == r[x.0]
  }

  /** A record one write of this boot published. */
  ghost predicate Published(f: Layout, r: seq<int>) {
    exists w :: WriteOk(f, w) && r == Outcome(f, w)
  }

  ghost predicate Inv(f: Layout, s: Sys) {
    && |s.mem| == f.words && |s.pubs| == s.gen / 2 + 1
    && (forall k :: 0 <= k < |s.pubs| ==> |s.pubs[k]| == f.words && (k > 0 ==> Published(f, s.pubs[k])))
    && (s.gen % 2 == 0 ==> s.mem == s.pubs[s.gen / 2])
    && (s.gen % 2 == 1 ==> WriteOk(f, s.now))
    && match s.rd
       case Outside => true
       case Checking(gen0, start, log) =>
         && start <= s.gen && start % 2 == 0 && gen0 == start % TWO_32
         && (s.gen == start ==> FromRecord(log, s.mem))
       case Believed(start, lapse, log) =>
         && start % 2 == 0 && 0 <= lapse && start + lapse <= s.gen && lapse % TWO_32 == 0
         && (lapse == 0 ==> start / 2 < |s.pubs| && FromRecord(log, s.pubs[start / 2]))
  }

  lemma NextKeeps(f: Layout, s: Sys, m: Move)
    requires LayoutOk(f) && Inv(f, s) && Enabled(f, s, m)
    ensures Inv(f, Next(f, s, m))
  {
    var t := Next(f, s, m);
    match m {
      case End => assert Published(f, s.mem);
      case Copy(i) =>
        if s.gen == s.rd.start {
          assert forall x <- t.rd.log :: x in s.rd.log || x == (i, s.mem[i]);
        }
      case _ =>
    }
  }

  lemma {:induction false} RunKeeps(f: Layout, s: Sys, ms: seq<Move>)
    requires LayoutOk(f) && Inv(f, s) && Run(f, s, ms)
    ensures Inv(f, After(f, s, ms))
    decreases |ms|
  {
    if ms != [] {
      NextKeeps(f, s, ms[0]);
      RunKeeps(f, Next(f, s, ms[0]), ms[1..]);
    }
  }

  // ---- what happens undisturbed ----

  lemma {:induction false} RunConcat(f: Layout, s: Sys, a: seq<Move>, b: seq<Move>)
    requires Run(f, s, a) && Run(f, After(f, s, a), b)
    ensures Run(f, s, a + b) && After(f, s, a + b) == After(f, After(f, s, a), b)
    decreases |a|
  {
    if a == [] {
      assert a + b == b;
    } else {
      assert (a + b)[1..] == a[1..] + b;
      RunConcat(f, Next(f, s, a[0]), a[1..], b);
    }
  }

  /** One move after a run. */
  lemma Then(f: Layout, s: Sys, ms: seq<Move>, m: Move)
    requires Run(f, s, ms) && Enabled(f, After(f, s, ms), m)
    ensures Run(f, s, ms + [m]) && After(f, s, ms + [m]) == Next(f, After(f, s, ms), m)
  {
    assert [m][1..] == [];
    assert Run(f, After(f, s, ms), [m]) && After(f, After(f, s, ms), [m]) == Next(f, After(f, s, ms), m);
    RunConcat(f, s, ms, [m]);
  }

  lemma {:induction false} AllPut(f: Layout, s: Sys, r: seq<int>, n: nat) returns (ms: seq<Move>)
    requires s.gen % 2 == 1 && |r| == |s.mem| && n <= |r|
    ensures Run(f, s, ms) && After(f, s, ms) == s.(mem := r[..n] + s.mem[n..])
    decreases n
  {
    if n == 0 {
      ms := [];
      assert r[..0] + s.mem[0..] == s.mem;
    } else {
      ms := AllPut(f, s, r, n - 1);
      Then(f, s, ms, Put(n - 1, r[n - 1]));
      ms := ms + [Put(n - 1, r[n - 1])];
      assert (r[..n - 1] + s.mem[n - 1..])[n - 1 := r[n - 1]] == r[..n] + s.mem[n..];
    }
  }

  /** A write carried through: the generation is odd while it lasts and two higher after it, and the record it
      stands for is there. */
  lemma WriteCompletes(f: Layout, s: Sys, w: Write) returns (ms: seq<Move>)
    requires LayoutOk(f) && Inv(f, s) && s.gen % 2 == 0 && (w.Save? ==> |w.body| == f.words - 3)
    ensures Run(f, s, ms) && |ms| > 0 && ms[0] == Begin(w) && Next(f, s, Begin(w)).gen % 2 == 1
    ensures var u := After(f, s, ms);
            && u.gen == s.gen + 2 && u.pubs == s.pubs + [u.mem] && u.rd == s.rd
            && |u.mem| == f.words && Judge(f, u.mem) == (if w.Save? then Valid else Absent)
            && (w.Save? ==> u.mem[2..f.words - 1] == w.body)
  {
    var s1, r := Next(f, s, Begin(w)), Outcome(f, w);
    Then(f, s, [], Begin(w));
    var puts := AllPut(f, s1, r, f.words);
    assert r[..f.words] + s1.mem[f.words..] == r;
    RunConcat(f, s, [] + [Begin(w)], puts);
    ms := [] + [Begin(w)] + puts;
    Then(f, s, ms, End);
    ms := ms + [End];
    SealedIsValid(f, if w.Save? then w.body else Zero(f.words - 3));
  }

  predicate Within(at: seq<nat>, n: nat) { forall k :: 0 <= k < |at| ==> at[k] < n }

  function Copies(r: seq<int>, at: seq<nat>): seq<(nat, int)>
    requires Within(at, |r|)
  {
    seq(|at|, k requires 0 <= k < |at| => (at[k], r[at[k]]))
  }

  lemma {:induction false} AllCopied(f: Layout, s: Sys, at: seq<nat>) returns (ms: seq<Move>)
    requires s.rd.Checking? && Within(at, |s.mem|)
    ensures Run(f, s, ms)
    ensures After(f, s, ms) == s.(rd := Checking(s.rd.gen0, s.rd.start, s.rd.log + Copies(s.mem, at)))
    decreases |at|
  {
    if at == [] {
      ms := [];
      assert s.rd.log + Copies(s.mem, at) == s.rd.log;
    } else {
      var i := at[|at| - 1];
      ms := AllCopied(f, s, at[..|at| - 1]);
      Then(f, s, ms, Copy(i));
      ms := ms + [Copy(i)];
      assert s.rd.log + Copies(s.mem, at[..|at| - 1]) + [(i, s.mem[i])] == s.rd.log + Copies(s.mem, at);
    }
  }

  /** A pass between two writes, whatever words it reads, is believed, and what it read is the record. */
  lemma QuietReadIsBelieved(f: Layout, s: Sys, at: seq<nat>) returns (ms: seq<Move>)
    requires s.gen % 2 == 0 && Within(at, |s.mem|)
    ensures Run(f, s, ms) && After(f, s, ms) == s.(rd := Believed(s.gen, 0, Copies(s.mem, at)))
  {
    Then(f, s, [], Load0);
    var s1 := Next(f, s, Load0);
    var copies := AllCopied(f, s1, at);
    RunConcat(f, s, [] + [Load0], copies);
    ms := [] + [Load0] + copies;
    Then(f, s, ms, Load1);
    ms := ms + [Load1];
    assert [] + Copies(s.mem, at) == Copies(s.mem, at);
  }

  // ---- the guarded read ----

  /** One pass of rtc_validate_copy over words that may change under it: the verdict and, when it is
      Valid, the copy, from the words in the order they are read. Each branch stops where the code
      does; the checksum pass reads every word but the last, the copy reads them all again. */
  predicate ValidatedFrom(f: Layout, log: seq<(nat, int)>, v: Validity, out: seq<int>)
    requires LayoutOk(f)
  {
    && log != [] && log[0].0 == 0
    && if log[0].1 != f.magic then |log| == 1 && v == Absent
       else
         && |log| >= 2 && log[1].0 == 1
         && if log[1].1 != f.version then |log| == 2 && v == Invalid
            else
              && |log| >= 2 + f.words && log[2].0 == f.words - 1
              && Reads(log[3..2 + f.words], 0, f.words - 1)
              && if log[2].1 != f.crc(Values(log[3..2 + f.words])) then |log| == 2 + f.words && v == Invalid
                 else v == Valid && Reads(log[2 + f.words..], 0, f.words) && out == Values(log[2 + f.words..])
  }

  function Values(log: seq<(nat, int)>): (r: seq<int>)
    ensures |r| == |log|
  {
    seq(|log|, i requires 0 <= i < |log| => log[i].1)
  }

  /** The log reads words `from` to `to` in order. */
  predicate Reads(log: seq<(nat, int)>, from: nat, to: nat) {
    |log| == to - from && forall i :: 0 <= i < |log| ==> log[i].0 == from + i
  }

  lemma ValuesOfARecord(log: seq<(nat, int)>, r: seq<int>, to: nat)
    requires FromRecord(log, r) && Reads(log, 0, to) && to <= |r|
    ensures Values(log) == r[..to]
  {
    forall i | 0 <= i < to ensures Values(log)[i] == r[i] {
      assert log[i] in log;
    }
  }

  /** The reads from `from` on, if they run through the first `n` words in order. */
  lemma PartOfARecord(log: seq<(nat, int)>, from: nat, to: nat, r: seq<int>, n: nat)
    requires from <= to <= |log| && FromRecord(log, r) && Reads(log[from..to], 0, n) && n <= |r|
    ensures Values(log[from..to]) == r[..n]
  {
    var part := log[from..to];
    assert forall x <- part :: x in log;
    ValuesOfARecord(part, r, n);
  }

  lemma FirstWords(log: seq<(nat, int)>, r: seq<int>, i: nat)
    requires FromRecord(log, r) && i < |log|
    ensures log[i].0 < |r| && log[i].1 == r[log[i].0]
  {
    assert log[i] in log;
  }

  lemma ValidatedOnRecord(f: Layout, log: seq<(nat, int)>, v: Validity, out: seq<int>, r: seq<int>)
    requires LayoutOk(f) && |r| == f.words && FromRecord(log, r) && ValidatedFrom(f, log, v, out)
    ensures v == Judge(f, r) && (v == Valid ==> out == r)
  {
    hide FromRecord, Values, Reads;
    FirstWords(log, r, 0);
    if log[0].1 == f.magic {
      FirstWords(log, r, 1);
      if log[1].1 == f.version {
        FirstWords(log, r, 2);
        PartOfARecord(log, 3, 2 + f.words, r, f.words - 1);
        if v == Valid {
          assert log[2 + f.words..|log|] == log[2 + f.words..];
          PartOfARecord(log, 2 + f.words, |log|, r, f.words);
          assert r[..f.words] == r;
        }
      }
    }
  }

  function UpTo(n: nat): seq<nat> { seq(n, i requires 0 <= i => i) }

  /** The checksum pass, and behind it the copy, on a record with the right magic and version. */
  lemma ChecksumPass(f: Layout, r: seq<int>) returns (at: seq<nat>)
    requires LayoutOk(f) && |r| == f.words && r[0] == f.magic && r[1] == f.version && r[f.words - 1] != f.crc(r[..f.words - 1])
    ensures Within(at, |r|) && ValidatedFrom(f, Copies(r, at), Invalid, r)
  {
    var n := f.words;
    at := [0, 1, n - 1] + UpTo(n - 1);
    assert at[3..3 + (n - 1)] == UpTo(n - 1);
    PassReads(at, 3, n - 1, r);
    hide Reads, Values, UpTo;
    assert Copies(r, at)[3..2 + n] == Copies(r, at)[3..3 + (n - 1)];
  }

  lemma WholePass(f: Layout, r: seq<int>) returns (at: seq<nat>)
    requires LayoutOk(f) && |r| == f.words && r[0] == f.magic && r[1] == f.version && r[f.words - 1] == f.crc(r[..f.words - 1])
    ensures Within(at, |r|) && ValidatedFrom(f, Copies(r, at), Valid, r)
  {
    var n := f.words;
    at := [0, 1, n - 1] + UpTo(n - 1) + UpTo(n);
    assert at[3..3 + (n - 1)] == UpTo(n - 1) && at[2 + n..2 + n + n] == UpTo(n);
    PassReads(at, 3, n - 1, r);
    PassReads(at, 2 + n, n, r);
    hide Reads, Values, UpTo;
    assert Copies(r, at)[3..2 + n] == Copies(r, at)[3..3 + (n - 1)];
    assert Copies(r, at)[2 + n..] == Copies(r, at)[2 + n..2 + n + n];
    assert r[..n] == r;
  }

  /** A record carries a pass of its own: the words read one by one from it validate as just the verdict on it,
      with the record as the copy. */
  lemma RecordValidates(f: Layout, r: seq<int>) returns (at: seq<nat>)
    requires LayoutOk(f) && |r| == f.words
    ensures Within(at, |r|) && ValidatedFrom(f, Copies(r, at), Judge(f, r), r)
  {
    if r[0] != f.magic {
      at := [0];
    } else if r[1] != f.version {
      at := [0, 1];
    } else if r[f.words - 1] != f.crc(r[..f.words - 1]) {
      at := ChecksumPass(f, r);
    } else {
      at := WholePass(f, r);
    }
  }

  /** The stretch of a pass that runs through the first `n` words. */
  lemma PassReads(at: seq<nat>, from: nat, n: nat, r: seq<int>)
    requires from + n <= |at| && n <= |r| && Within(at, |r|) && at[from..from + n] == UpTo(n)
    ensures var part := Copies(r, at)[from..from + n]; Reads(part, 0, n) && Values(part) == r[..n]
  {
    var part := Copies(r, at)[from..from + n];
    forall i | 0 <= i < n ensures part[i] == (i, r[i]) {
      assert at[from + i] == at[from..from + n][i] == UpTo(n)[i];
    }
  }

  lemma SealedIsValid(f: Layout, body: seq<int>)
    requires LayoutOk(f) && |body| == f.words - 3
    ensures Judge(f, Sealed(f, body)) == Valid && Judge(f, Zero(f.words)) == Absent
  {
    var r := Sealed(f, body);
    assert r[..f.words - 1] == [f.magic, f.version] + body;
  }

  /** The verdict: Valid exactly if magic, version and the checksum of everything before it are right, Absent
      exactly if the magic is not, and Invalid in between. */
  lemma JudgeMeans(f: Layout, r: seq<int>)
    requires LayoutOk(f) && |r| == f.words
    ensures Judge(f, r) == Valid <==> r[0] == f.magic && r[1] == f.version && r[f.words - 1] == f.crc(r[..f.words - 1])
    ensures Judge(f, r) == Absent <==> r[0] != f.magic
  {
  }

  /** Over every interleaving, a guarded validate that believes its pass (and during which the
      writer made fewer than 2^31 sections) gives the verdict on one record as it stood when the read
      began, and copies exactly that record. Every record written this boot is sealed or cleared, so
      the verdict is Invalid only for what an earlier boot left behind. */
  lemma GuardedReadIsOneRecord(f: Layout, left: seq<int>, ms: seq<Move>, v: Validity, out: seq<int>)
    requires LayoutOk(f) && |left| == f.words && Run(f, Boot(left), ms)
    requires var s := After(f, Boot(left), ms);
             s.rd.Believed? && s.rd.lapse < TWO_32 && ValidatedFrom(f, s.rd.log, v, out)
    ensures var s := After(f, Boot(left), ms);
            var k := s.rd.start / 2;
            && k < |s.pubs| && |s.pubs[k]| == f.words
            && v == Judge(f, s.pubs[k])
            && (v == Valid ==> out == s.pubs[k])
            && (v == Invalid ==> k == 0 && s.pubs[k] == left)
  {
    RunKeeps(f, Boot(left), ms);
    FirstRecordStays(f, Boot(left), ms);
    var s := After(f, Boot(left), ms);
    var k := s.rd.start / 2;
    ValidatedOnRecord(f, s.rd.log, v, out, s.pubs[k]);
    if k > 0 {
      var w :| WriteOk(f, w) && s.pubs[k] == Outcome(f, w);
      SealedIsValid(f, if w.Save? then w.body else Zero(f.words - 3));
    }
  }

  lemma {:induction false} FirstRecordStays(f: Layout, s: Sys, ms: seq<Move>)
    requires Run(f, s, ms) && |s.pubs| > 0
    ensures |After(f, s, ms).pubs| > 0 && After(f, s, ms).pubs[0] == s.pubs[0]
    decreases |ms|
  {
    if ms != [] {
      FirstRecordStays(f, Next(f, s, ms[0]), ms[1..]);
    }
  }

  // ---- the retry loop ----

  /** What one attempt brings: the generation before, the record as read, the generation after. */
  datatype Attempt = Attempt(gen0: nat, record: seq<int>, gen1: nat)

  predicate Stable(a: Attempt) { a.gen0 % 2 == 0 && a.gen0 == a.gen1 }

  /** lt_rtc_validate's loop. The verdict and the copy come from the first attempt whose generation was
      even and did not move; `guarded` is false when there was none and the caller got the bare read. */
  method Validate(f: Layout, attempts: seq<Attempt>, last: seq<int>) returns (v: Validity, out: seq<int>, guarded: bool)
    requires LayoutOk(f) && |attempts| == RTC_READ_RETRIES && |last| == f.words
    requires forall j :: 0 <= j < |attempts| ==> |attempts[j].record| == f.words
    ensures guarded <==> exists j :: 0 <= j < |attempts| && Stable(attempts[j])
    ensures forall k ::
      (0 <= k < |attempts| && Stable(attempts[k]) && forall j :: 0 <= j < k ==> !Stable(attempts[j])) ==>
      v == Judge(f, attempts[k].record) && (v == Valid ==> out == attempts[k].record)
    ensures !guarded ==> v == Judge(f, last) && (v == Valid ==> out == last)
  {
    for i := 0 to RTC_READ_RETRIES
      invariant forall j :: 0 <= j < i ==> !Stable(attempts[j])
    {
      var a := attempts[i];
      if a.gen0 % 2 != 0 {
        continue;
      }
      v := Judge(f, a.record);
      if a.gen1 == a.gen0 {
        return v, a.record, true;
      }
    }
    return Judge(f, last), last, false;
  }
}
