/** The C scanner of tools/lint/power_of_10.py, second half: the top-level function definitions of a
    stripped text, by brace matching. */
module CFunctions {
  import opened Prelude

  // ---- depth ----

  /** Opening less closing `up`/`down` characters before position `i`; it may be negative. */
  function Depth(s: string, i: nat, up: char, down: char): int
    requires i <= |s|
  {
    if i == 0 then 0
    else Depth(s, i - 1, up, down) + (if s[i - 1] == up then 1 else if s[i - 1] == down then -1 else 0)
  }

  function Braces(s: string, i: nat): int
    requires i <= |s|
  {
    Depth(s, i, '{', '}')
  }

  function Parens(s: string, i: nat): int
    requires i <= |s|
  {
    Depth(s, i, '(', ')')
  }

  /** `c` closes the brace opened at `o`: the depth is back for the first time. */
  predicate Matches(s: string, o: nat, c: nat) {
    && o < c < |s| && s[o] == '{' && s[c] == '}'
    && Braces(s, c + 1) == Braces(s, o)
    && forall k :: o < k <= c ==> Braces(s, k) > Braces(s, o)
  }

  /** `c` closes the parenthesis opened at `o`. */
  predicate ParenMatches(s: string, o: nat, c: nat) {
    && o < c < |s| && s[o] == '(' && s[c] == ')'
    && Parens(s, c + 1) == Parens(s, o)
    && forall k :: o < k <= c ==> Parens(s, k) > Parens(s, o)
  }

  // ---- looking back from a brace ----

  predicate Space(c: char) { c in " \t\r\n" }

  predicate WordChar(c: char) { 'A' <= c <= 'Z' || 'a' <= c <= 'z' || '0' <= c <= '9' || c == '_' }

  predicate Identifier(w: string) {
    && w != "" && !('0' <= w[0] <= '9')
    && forall c <- w :: WordChar(c)
  }

  const RESERVED := ["if", "for", "while", "switch", "do", "else", "return"]
  const ATTRIBUTE_KEYWORDS := ["__attribute__", "__declspec"]

  predicate Usable(name: string) { Identifier(name) && name !in RESERVED }

  /** The last position at or before `j` holding no white space, or -1. */
  function BackOverSpace(s: string, j: int): (r: int)
    requires -1 <= j < |s|
    ensures -1 <= r <= j
    decreases j
  {
    if j >= 0 && Space(s[j]) then BackOverSpace(s, j - 1) else j
  }

  function BackOverWord(s: string, j: int): (r: int)
    requires -1 <= j < |s|
    ensures -1 <= r <= j
    decreases j
  {
    if j >= 0 && WordChar(s[j]) then BackOverWord(s, j - 1) else j
  }

  /** Walking back from `k` with `depth` parentheses to close: where the walk stops. */
  function BackOverParens(s: string, k: int, depth: nat): (r: int)
    requires -1 <= k < |s|
    ensures -1 <= r <= k
    decreases k
  {
    if k < 0 || depth == 0 then k
    else BackOverParens(s, k - 1, if s[k] == ')' then depth + 1 else if s[k] == '(' then depth - 1 else depth)
  }

  /** Where a header's name starts and ends, and its parameter list's parentheses. */
  datatype Head = Head(nameStart: nat, nameEnd: nat, paramOpen: nat, paramClose: nat)

  predicate HeadOk(s: string, h: Head) { h.nameStart < h.nameEnd <= h.paramOpen <= h.paramClose < |s| }

  function NameText(s: string, h: Head): string
    requires HeadOk(s, h)
  {
    s[h.nameStart..h.nameEnd]
  }

  predicate IsAttribute(s: string, h: Head)
    requires HeadOk(s, h)
  {
    NameText(s, h) in ATTRIBUTE_KEYWORDS
  }

  /** _name_before_paren. */
  function NameBefore(s: string, close: nat): (r: Option<Head>)
    requires close < |s|
    ensures r.Some? ==> HeadOk(s, r.value) && r.value.paramClose == close
  {
    var k := BackOverParens(s, close - 1, 1);
    var m := BackOverSpace(s, k);
    var n := BackOverWord(s, m);
    if m <= n then None
    else if !Usable(s[n + 1..m + 1]) then None
    else Some(Head(n + 1, m + 1, k + 1, close))
  }

  /** The header whose parameter list, or attribute list, closes at `close`. */
  function HeadAt(s: string, close: nat): (r: Option<Head>)
    requires close < |s|
    ensures r.Some? ==> HeadOk(s, r.value) && r.value.paramClose <= close
    decreases close
  {
    var h := NameBefore(s, close);
    if h.None? || !IsAttribute(s, h.value) then h
    else
      var k := BackOverSpace(s, h.value.nameStart - 1);
      if k >= 0 && s[k] == ')' then HeadAt(s, k) else None
  }

  /** The function header in front of the brace at `o`, if there is one. */
  function HeadOf(s: string, o: nat): (r: Option<Head>)
    requires o < |s|
    ensures r.Some? ==> HeadOk(s, r.value) && r.value.paramClose < o
  {
    var j := BackOverSpace(s, o - 1);
    if j >= 0 && s[j] == ')' then HeadAt(s, j) else None
  }

  // ---- what a header is ----

  lemma {:induction false} SpaceSpan(s: string, j: int)
    requires -1 <= j < |s|
    ensures var r := BackOverSpace(s, j);
            (r >= 0 ==> !Space(s[r])) && forall k :: r < k <= j ==> Space(s[k])
    decreases j
  {
    if j >= 0 && Space(s[j]) {
      SpaceSpan(s, j - 1);
    }
  }

  lemma {:induction false} WordSpan(s: string, j: int)
    requires -1 <= j < |s|
    ensures var r := BackOverWord(s, j);
            (r >= 0 ==> !WordChar(s[r])) && forall k :: r < k <= j ==> WordChar(s[k])
    decreases j
  {
    if j >= 0 && WordChar(s[j]) {
      WordSpan(s, j - 1);
    }
  }

  /** Where the walk back over parentheses stops short of the start of the text, it has just passed the
      one that `close` closes. */
  lemma {:induction false} WalkBack(s: string, k: int, depth: nat, close: nat)
    requires -1 <= k < close < |s| && s[close] == ')' && depth > 0
    requires depth == Parens(s, k + 1) - Parens(s, close + 1)
    requires forall j :: k + 1 <= j <= close ==> Parens(s, j) > Parens(s, close + 1)
    ensures var r := BackOverParens(s, k, depth); r >= 0 ==> ParenMatches(s, r + 1, close)
    decreases k
  {
    if k >= 0 {
      if s[k] == '(' && depth == 1 {
        assert BackOverParens(s, k - 1, 0) == k - 1;
      } else {
        WalkBack(s, k - 1, if s[k] == ')' then depth + 1 else if s[k] == '(' then depth - 1 else depth, close);
      }
    }
  }

  /** A whole usable name stands in front of a parameter list's matching parentheses. */
  predicate Names(s: string, h: Head) {
    && HeadOk(s, h) && Usable(NameText(s, h))
    && (h.nameStart > 0 ==> !WordChar(s[h.nameStart - 1]))
    && (forall k :: h.nameEnd <= k < h.paramOpen ==> Space(s[k]))
    && ParenMatches(s, h.paramOpen, h.paramClose)
  }

  lemma ParenStep(s: string, close: nat)
    requires close < |s| && s[close] == ')'
    ensures Parens(s, close + 1) == Parens(s, close) - 1
  {
  }

  lemma NameBeforeNames(s: string, close: nat)
    requires close < |s| && s[close] == ')' && NameBefore(s, close).Some?
    ensures Names(s, NameBefore(s, close).value)
  {
    hide Depth, BackOverParens, BackOverSpace, BackOverWord;
    if close > 0 {
      ParenStep(s, close);
      WalkBack(s, close - 1, 1, close);
    }
    var h := NameBefore(s, close).value;
    SpaceSpan(s, h.paramOpen - 1);
    WordSpan(s, h.nameEnd - 1);
    assert h.nameEnd == BackOverSpace(s, BackOverParens(s, close - 1, 1)) + 1;
  }

  lemma {:induction false} WalkBackFinds(s: string, open: nat, k: int, depth: nat, close: nat)
    requires ParenMatches(s, open, close) && open <= k < close && depth > 0
    requires depth == Parens(s, k + 1) - Parens(s, close + 1)
    ensures BackOverParens(s, k, depth) == open - 1
    decreases k
  {
    if k == open {
      assert depth == 1 && BackOverParens(s, k - 1, 0) == k - 1;
    } else {
      assert Parens(s, k) > Parens(s, open);
      WalkBackFinds(s, open, k - 1, if s[k] == ')' then depth + 1 else if s[k] == '(' then depth - 1 else depth, close);
    }
  }

  lemma ParenWalk(s: string, open: nat, close: nat)
    requires ParenMatches(s, open, close)
    ensures BackOverParens(s, close - 1, 1) == open - 1
  {
    ParenStep(s, close);
    WalkBackFinds(s, open, close - 1, 1, close);
  }

  lemma {:induction false} SpaceStops(s: string, j: int, r: int)
    requires -1 <= r <= j < |s| && (r >= 0 ==> !Space(s[r])) && forall k :: r < k <= j ==> Space(s[k])
    ensures BackOverSpace(s, j) == r
    decreases j
  {
    if r < j {
      SpaceStops(s, j - 1, r);
    }
  }

  lemma {:induction false} WordStops(s: string, j: int, r: int)
    requires -1 <= r <= j < |s| && (r >= 0 ==> !WordChar(s[r])) && forall k :: r < k <= j ==> WordChar(s[k])
    ensures BackOverWord(s, j) == r
    decreases j
  {
    if r < j {
      WordStops(s, j - 1, r);
    }
  }

  lemma NoWordIsSpace(c: char)
    ensures !(WordChar(c) && Space(c))
  {
  }

  lemma SpaceWalk(s: string, h: Head)
    requires Names(s, h)
    ensures BackOverSpace(s, h.paramOpen - 1) == h.nameEnd - 1
  {
    NameIsWord(s, h);
    NoWordIsSpace(s[h.nameEnd - 1]);
    hide Depth, WordChar, Usable;
    SpaceStops(s, h.paramOpen - 1, h.nameEnd - 1);
  }

  lemma WordWalk(s: string, h: Head)
    requires Names(s, h)
    ensures BackOverWord(s, h.nameEnd - 1) == h.nameStart - 1
  {
    NameIsWord(s, h);
    hide Depth, Space, Usable;
    WordStops(s, h.nameEnd - 1, h.nameStart - 1);
  }

  lemma NameIsFound(s: string, h: Head)
    requires Names(s, h)
    ensures NameBefore(s, h.paramClose) == Some(h)
  {
    ParenWalk(s, h.paramOpen, h.paramClose);
    SpaceWalk(s, h);
    WordWalk(s, h);
    hide BackOverParens, BackOverSpace, BackOverWord, Usable, ParenMatches;
  }

  /** Nothing but space, and attributes with their own argument lists, stands from `i` up to `o`. */
  ghost predicate Gap(s: string, i: nat, o: nat)
    decreases o
  {
    && i <= o <= |s|
    && (Blank(s, i, o) || exists a: Head :: AttributeIn(s, a, i, o) && Gap(s, i, a.nameStart))
  }

  predicate Blank(s: string, i: nat, o: nat)
    requires o <= |s|
  {
    forall k :: i <= k < o ==> Space(s[k])
  }

  /** An attribute after `i`, and only space between it and `o`. */
  predicate AttributeIn(s: string, a: Head, i: nat, o: nat)
    requires o <= |s|
  {
    Names(s, a) && IsAttribute(s, a) && i <= a.nameStart && a.paramClose < o && Blank(s, a.paramClose + 1, o)
  }

  /** A function header in front of the brace at `o`: a whole identifier that is neither a control
      keyword nor an attribute, a balanced parameter list, and then only space and attribute lists. */
  ghost predicate IsHeader(s: string, h: Head, o: nat) {
    Names(s, h) && !IsAttribute(s, h) && h.paramClose < o && Gap(s, h.paramClose + 1, o)
  }

  lemma GapBefore(s: string, h: Head, a: Head, o: nat)
    requires o <= |s| && IsHeader(s, h, a.nameStart) && AttributeIn(s, a, h.paramClose + 1, o)
    ensures IsHeader(s, h, o)
  {
    assert HeadOk(s, a);
    hide Names, IsAttribute;
  }

  lemma {:induction false} HeadAtIsHeader(s: string, close: nat, o: nat)
    requires close < o <= |s| && s[close] == ')' && Blank(s, close + 1, o) && HeadAt(s, close).Some?
    ensures IsHeader(s, HeadAt(s, close).value, o)
    decreases close
  {
    hide Depth, BackOverSpace, NameBefore, Names, IsAttribute;
    NameBeforeNames(s, close);
    var a := NameBefore(s, close).value;
    if IsAttribute(s, a) {
      hide IsHeader, Gap;
      var k := BackOverSpace(s, a.nameStart - 1);
      SpaceSpan(s, a.nameStart - 1);
      HeadAtIsHeader(s, k, a.nameStart);
      GapBefore(s, HeadAt(s, k).value, a, o);
    }
  }

  lemma LookBack(s: string, h: Head, o: nat)
    requires Names(s, h) && h.paramClose < o <= |s| && Blank(s, h.paramClose + 1, o)
    ensures BackOverSpace(s, o - 1) == h.paramClose && s[h.paramClose] == ')' && NameBefore(s, h.paramClose) == Some(h)
  {
    hide Depth, BackOverSpace, NameBefore;
    SpaceStops(s, o - 1, h.paramClose);
    NameIsFound(s, h);
  }

  lemma {:induction false} HeaderIsFound(s: string, h: Head, o: nat)
    requires o < |s| && IsHeader(s, h, o)
    ensures HeadOf(s, o) == Some(h)
    decreases o
  {
    hide Depth, BackOverSpace, NameBefore, Names, Blank;
    if Blank(s, h.paramClose + 1, o) {
      LookBack(s, h, o);
    } else {
      var a: Head :| AttributeIn(s, a, h.paramClose + 1, o) && Gap(s, h.paramClose + 1, a.nameStart);
      LookBack(s, a, o);
      HeaderIsFound(s, h, a.nameStart);
    }
  }

  /** What the look-back finds in front of a brace is exactly the header there, attribute lists or not;
      so there is at most one. */
  lemma HeaderIsExact(s: string, h: Head, o: nat)
    requires o < |s|
    ensures HeadOf(s, o) == Some(h) <==> IsHeader(s, h, o)
  {
    hide Depth, BackOverSpace, HeadAt, Names, Gap;
    if HeadOf(s, o) == Some(h) {
      SpaceSpan(s, o - 1);
      HeadAtIsHeader(s, BackOverSpace(s, o - 1), o);
    }
    if IsHeader(s, h, o) {
      HeaderIsFound(s, h, o);
    }
  }

  lemma NameIsWord(s: string, h: Head)
    requires Names(s, h)
    ensures forall k :: h.nameStart <= k < h.nameEnd ==> WordChar(s[k])
  {
    var name := NameText(s, h);
    forall k | h.nameStart <= k < h.nameEnd ensures WordChar(s[k]) {
      assert s[k] == name[k - h.nameStart] && name[k - h.nameStart] in name;
    }
  }

  method SkipSpace(s: string, j: int) returns (m: int)
    requires -1 <= j < |s|
    ensures m == BackOverSpace(s, j)
  {
    m := j;
    while m >= 0 && Space(s[m])
      invariant -1 <= m <= j && BackOverSpace(s, m) == BackOverSpace(s, j)
    {
      m := m - 1;
    }
  }

  method SkipWord(s: string, j: int) returns (m: int)
    requires -1 <= j < |s|
    ensures m == BackOverWord(s, j)
  {
    m := j;
    while m >= 0 && WordChar(s[m])
      invariant -1 <= m <= j && BackOverWord(s, m) == BackOverWord(s, j)
    {
      m := m - 1;
    }
  }

  method SkipParens(s: string, close: nat) returns (k: int)
    requires close < |s|
    ensures k == BackOverParens(s, close - 1, 1)
  {
    var depth := 1;
    k := close - 1;
    while k >= 0 && depth > 0
      invariant -1 <= k < close && depth >= 0
      invariant BackOverParens(s, k, depth) == BackOverParens(s, close - 1, 1)
    {
      if s[k] == ')' {
        depth := depth + 1;
      } else if s[k] == '(' {
        depth := depth - 1;
      }
      k := k - 1;
    }
  }

  /** _name_before_paren: back over the parameter list, the space before it and the name. */
  method NameBeforeParen(s: string, close: nat) returns (r: Option<Head>)
    requires close < |s|
    ensures r == NameBefore(s, close)
  {
    var k := SkipParens(s, close);
    var m := SkipSpace(s, k);
    var n := SkipWord(s, m);
    hide BackOverParens, BackOverSpace, BackOverWord, Usable;
    if m <= n {
      return None;
    }
    if !Usable(s[n + 1..m + 1]) {
      return None;
    }
    return Some(Head(n + 1, m + 1, k + 1, close));
  }

  /** The look-back at an opening brace, with its loop over attribute lists; every round of the loop
      goes further left, so it ends. */
  method HeaderBefore(s: string, o: nat) returns (r: Option<Head>)
    requires o < |s|
    ensures r == HeadOf(s, o)
  {
    hide NameBefore, BackOverSpace;
    var j := SkipSpace(s, o - 1);
    if j < 0 || s[j] != ')' {
      return None;
    }
    r := NameBeforeParen(s, j);
    ghost var close := j;
    while r.Some? && IsAttribute(s, r.value)
      invariant 0 <= close < |s| && r == NameBefore(s, close) && HeadAt(s, close) == HeadOf(s, o)
      decreases close, r.Some?
    {
      var k := SkipSpace(s, r.value.nameStart - 1);
      if k >= 0 && s[k] == ')' {
        r := NameBeforeParen(s, k);
        close := k;
      } else {
        return None;
      }
    }
  }

  // ---- top-level functions ----

  datatype Fn = Fn(name: string, head: Head, open: nat, close: nat)

  /** A function definition: a brace at depth 0 with a header in front, and the brace that closes it. */
  ghost predicate IsFunction(s: string, f: Fn) {
    && Matches(s, f.open, f.close) && Braces(s, f.open) == 0
    && IsHeader(s, f.head, f.open) && f.name == NameText(s, f.head)
  }

  /** A brace is closed by at most one other. */
  lemma OneMatch(s: string, o: nat, c: nat, d: nat)
    requires Matches(s, o, c) && Matches(s, o, d)
    ensures c == d
  {
  }

  /** Two spans opened at depth 0, and so two functions, never overlap, however unbalanced the text
      around them is. */
  lemma TopSpansAreDisjoint(s: string, o: nat, c: nat, p: nat, d: nat)
    requires Matches(s, o, c) && Matches(s, p, d) && Braces(s, o) == 0 && Braces(s, p) == 0 && o != p
    ensures c < p || d < o
    ensures d < c ==> d < o
  {
  }

  lemma BraceStep(s: string, i: nat)
    requires i < |s|
    ensures Braces(s, i + 1) == Braces(s, i) + (if s[i] == '{' then 1 else if s[i] == '}' then -1 else 0)
  {
  }

  /** The brace closed at `p`, looked for from `k` back to `lo`. */
  lemma {:induction false} Opener(s: string, lo: nat, k: nat, p: nat)
    requires lo <= k < p < |s| && s[p] == '}' && Braces(s, lo) <= Braces(s, p + 1)
    requires forall j :: k < j <= p ==> Braces(s, j) > Braces(s, p + 1)
    ensures exists q: nat :: lo <= q < p && Matches(s, q, p)
    decreases k
  {
    BraceStep(s, k);
    hide Depth;
    if Braces(s, k) <= Braces(s, p + 1) {
      assert Matches(s, k, p);
    } else {
      Opener(s, lo, k - 1, p);
    }
  }

  /** The brace that closes the one at `p`, looked for from `k` on to `hi`. */
  lemma {:induction false} Closer(s: string, p: nat, k: nat, hi: nat)
    requires p < k <= hi <= |s| && s[p] == '{' && Braces(s, hi) <= Braces(s, p)
    requires forall j :: p < j < k ==> Braces(s, j) > Braces(s, p)
    ensures exists q: nat :: p < q < hi && Matches(s, p, q)
    decreases hi - k
  {
    BraceStep(s, p);
    BraceStep(s, k - 1);
    hide Depth;
    if Braces(s, k) <= Braces(s, p) {
      assert Matches(s, p, k - 1);
    } else {
      Closer(s, p, k + 1, hi);
    }
  }

  /** Between a brace and the one that closes it, and so within every function, every closing brace
      closes one opened inside and every brace opened inside is closed inside. */
  lemma SpansAreBalanced(s: string, o: nat, c: nat)
    requires Matches(s, o, c)
    ensures forall p: nat :: o < p < c && s[p] == '}' ==> exists q: nat :: o < q < p && Matches(s, q, p)
    ensures forall p: nat :: o < p < c && s[p] == '{' ==> exists q: nat :: p < q < c && Matches(s, p, q)
  {
    BraceStep(s, o);
    BraceStep(s, c);
    forall p: nat | o < p < c && s[p] == '}' ensures exists q: nat :: o < q < p && Matches(s, q, p) {
      BraceStep(s, p);
      hide Depth;
      Opener(s, o + 1, p - 1, p);
    }
    forall p: nat | o < p < c && s[p] == '{' ensures exists q: nat :: p < q < c && Matches(s, p, q) {
      hide Depth;
      Closer(s, p, p + 1, c);
    }
  }

  /** An opening brace on the stack. */
  datatype Entry = Entry(head: Option<Head>, open: nat)

  /** `o` is still open at `i`. */
  predicate Unclosed(s: string, o: nat, i: nat)
    requires i <= |s|
  {
    o < i && s[o] == '{' && forall k :: o < k <= i ==> Braces(s, k) > Braces(s, o)
  }

  predicate Holds(stack: seq<Entry>, o: nat) { exists j :: 0 <= j < |stack| && stack[j].open == o }

  predicate EntryOk(s: string, e: Entry, i: nat, above: nat)
    requires i <= |s|
  {
    && Unclosed(s, e.open, i)
    && Braces(s, e.open) == Braces(s, i) - above - 1
    && e.head == if Braces(s, e.open) == 0 then HeadOf(s, e.open) else None
  }

  /** The stack at `i` holds exactly the braces still open, innermost last. */
  ghost predicate StackOk(s: string, stack: seq<Entry>, i: nat)
    requires i <= |s|
  {
    && (forall j :: 0 <= j < |stack| ==> EntryOk(s, stack[j], i, |stack| - 1 - j))
    && (forall o: nat :: Unclosed(s, o, i) ==> Holds(stack, o))
  }

  ghost predicate FoundOk(s: string, funcs: seq<Fn>, i: nat) {
    && (forall f <- funcs :: IsFunction(s, f) && f.close < i)
    && (forall f :: IsFunction(s, f) && f.close < i ==> f in funcs)
    && (forall j, k :: 0 <= j < k < |funcs| ==> funcs[j].close < funcs[k].open)
  }

  lemma StillOpen(s: string, o: nat, i: nat)
    requires i < |s| && o < i && Unclosed(s, o, i + 1)
    ensures Unclosed(s, o, i) && Braces(s, i + 1) > Braces(s, o)
  {
    hide Depth;
  }

  lemma PlainKeeps(s: string, stack: seq<Entry>, i: nat)
    requires i < |s| && StackOk(s, stack, i) && s[i] != '{' && s[i] != '}'
    ensures StackOk(s, stack, i + 1)
  {
    BraceStep(s, i);
    hide Depth, HeadOf;
    forall j | 0 <= j < |stack| ensures EntryOk(s, stack[j], i + 1, |stack| - 1 - j) {
      assert EntryOk(s, stack[j], i, |stack| - 1 - j);
    }
    forall o: nat | Unclosed(s, o, i + 1) ensures Holds(stack, o) {
      StillOpen(s, o, i);
    }
  }

  lemma PushKeeps(s: string, stack: seq<Entry>, i: nat, e: Entry)
    requires i < |s| && StackOk(s, stack, i) && s[i] == '{'
    requires e == Entry(if Braces(s, i) == 0 then HeadOf(s, i) else None, i)
    ensures StackOk(s, stack + [e], i + 1)
  {
    var n := stack + [e];
    BraceStep(s, i);
    hide Depth, HeadOf;
    forall j | 0 <= j < |n| ensures EntryOk(s, n[j], i + 1, |n| - 1 - j) {
      if j < |stack| {
        assert EntryOk(s, stack[j], i, |stack| - 1 - j);
      }
    }
    forall o: nat | Unclosed(s, o, i + 1) ensures Holds(n, o) {
      if o < i {
        StillOpen(s, o, i);
        var j :| 0 <= j < |stack| && stack[j].open == o;
        assert n[j].open == o;
      } else {
        assert n[|stack|].open == o;
      }
    }
  }

  lemma TopIsClosed(s: string, stack: seq<Entry>, i: nat, o: nat)
    requires i < |s| && StackOk(s, stack, i) && s[i] == '}' && Unclosed(s, o, i) && Braces(s, i + 1) <= Braces(s, o)
    ensures stack != [] && o == stack[|stack| - 1].open
  {
    BraceStep(s, i);
    hide Depth, HeadOf;
    assert Holds(stack, o);
    var j :| 0 <= j < |stack| && stack[j].open == o;
    assert EntryOk(s, stack[j], i, |stack| - 1 - j);
  }

  lemma PopKeeps(s: string, stack: seq<Entry>, i: nat)
    requires i < |s| && StackOk(s, stack, i) && s[i] == '}'
    ensures StackOk(s, if stack == [] then stack else stack[..|stack| - 1], i + 1)
  {
    var n := if stack == [] then stack else stack[..|stack| - 1];
    BraceStep(s, i);
    hide Depth, HeadOf;
    forall j | 0 <= j < |n| ensures EntryOk(s, n[j], i + 1, |n| - 1 - j) {
      assert EntryOk(s, stack[j], i, |stack| - 1 - j);
    }
    forall o: nat | Unclosed(s, o, i + 1) ensures Holds(n, o) {
      StillOpen(s, o, i);
      var j :| 0 <= j < |stack| && stack[j].open == o;
      assert EntryOk(s, stack[j], i, |stack| - 1 - j);
      assert n[j].open == o;
    }
  }

  /** The brace closed at `i` is the top of the stack, if there is one. */
  lemma PopMatches(s: string, stack: seq<Entry>, i: nat)
    requires i < |s| && StackOk(s, stack, i) && s[i] == '}'
    ensures stack != [] ==> Matches(s, stack[|stack| - 1].open, i)
    ensures forall o: nat :: Matches(s, o, i) ==> stack != [] && o == stack[|stack| - 1].open
  {
    BraceStep(s, i);
    hide Depth, HeadOf;
    if stack != [] {
      assert EntryOk(s, stack[|stack| - 1], i, 0);
    }
    forall o: nat | Matches(s, o, i) ensures stack != [] && o == stack[|stack| - 1].open {
      TopIsClosed(s, stack, i, o);
    }
  }

  lemma FoundGrows(s: string, funcs: seq<Fn>, i: nat, e: Entry)
    requires i < |s| && FoundOk(s, funcs, i) && Matches(s, e.open, i)
    requires e.head == if Braces(s, e.open) == 0 then HeadOf(s, e.open) else None
    requires forall o: nat :: Matches(s, o, i) ==> o == e.open
    ensures FoundOk(s, if e.head.Some? then funcs + [Fn(NameText(s, e.head.value), e.head.value, e.open, i)] else funcs, i + 1)
  {
    assert e.open < i;
    hide Depth, HeadOf, Matches, IsHeader;
    if e.head.Some? {
      HeaderIsExact(s, e.head.value, e.open);
      var f := Fn(NameText(s, e.head.value), e.head.value, e.open, i);
      forall g <- funcs ensures g.close < f.open {
        if g.open == f.open {
          OneMatch(s, f.open, i, g.close);
        }
        TopSpansAreDisjoint(s, f.open, i, g.open, g.close);
      }
      forall g | IsFunction(s, g) && g.close < i + 1 ensures g in funcs + [f] {
        if g.close == i {
          HeaderIsExact(s, g.head, g.open);
          assert g == f;
        }
      }
    } else {
      forall g | IsFunction(s, g) && g.close < i + 1 ensures g in funcs {
        if g.close == i {
          assert g.open == e.open;
          HeaderIsExact(s, g.head, g.open);
        }
      }
    }
  }

  /** The list holds the text's function definitions, all of them and no other, in order and disjoint
      (so sorting it by opening brace afterwards changes nothing). */
  method FindTopLevelFunctions(s: string) returns (funcs: seq<Fn>)
    ensures forall f :: f in funcs <==> IsFunction(s, f)
    ensures forall j, k :: 0 <= j < k < |funcs| ==> funcs[j].close < funcs[k].open
  {
    funcs := [];
    var stack: seq<Entry> := [];
    var depth, i := 0, 0;
    while i < |s|
      invariant i <= |s| && depth == Braces(s, i) && StackOk(s, stack, i) && FoundOk(s, funcs, i)
    {
      var c := s[i];
      if c == '{' {
        var head: Option<Head> := None;
        if depth == 0 {
          head := HeaderBefore(s, i);
        }
        PushKeeps(s, stack, i, Entry(head, i));
        NoneEndsAt(s, funcs, i);
        stack := stack + [Entry(head, i)];
        depth := depth + 1;
      } else if c == '}' {
        PopKeeps(s, stack, i);
        PopMatches(s, stack, i);
        depth := depth - 1;
        if stack != [] {
          var entry := stack[|stack| - 1];
          stack := stack[..|stack| - 1];
          FoundGrows(s, funcs, i, entry);
          if entry.head.Some? {
            funcs := funcs + [Fn(NameText(s, entry.head.value), entry.head.value, entry.open, i)];
          }
        } else {
          NothingCloses(s, funcs, i);
        }
      } else {
        PlainKeeps(s, stack, i);
        NoneEndsAt(s, funcs, i);
      }
      i := i + 1;
    }
  }

  lemma NothingCloses(s: string, funcs: seq<Fn>, i: nat)
    requires i < |s| && FoundOk(s, funcs, i) && forall o: nat :: !Matches(s, o, i)
    ensures FoundOk(s, funcs, i + 1)
  {
    hide Depth, HeadOf;
    assert forall f :: IsFunction(s, f) && f.close == i ==> Matches(s, f.open, i);
  }

  lemma NoneEndsAt(s: string, funcs: seq<Fn>, i: nat)
    requires i < |s| && FoundOk(s, funcs, i) && s[i] != '}'
    ensures FoundOk(s, funcs, i + 1)
  {
  }
}
