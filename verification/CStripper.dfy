/** The C scanner of tools/lint/power_of_10.py, first half: blanking comments and literals without
    moving any character. */
module CStripper {
  // ---- what a text strips to ----

  /** Where a scan stands: in code, in a line or block comment, or in a literal closed by `quote`. */
  datatype Mode = Code | Line | Block | Literal(quote: char)

  function Blank(c: char): char { if c == '\n' then '\n' else ' ' }

  datatype Step = Step(wrote: string, next: Mode)

  /** One move of the automaton on the rest `s` of a text: what it writes, which is as long as what it
      reads, and where it then stands. */
  function StepOf(m: Mode, s: string): (r: Step)
    requires s != ""
    ensures 1 <= |r.wrote| <= |s|
  {
    var c := s[0];
    match m
    case Code =>
      if |s| > 1 && c == '/' && s[1] == '/' then Step("  ", Line)
      else if |s| > 1 && c == '/' && s[1] == '*' then Step("  ", Block)
      else if c == '"' || c == '\'' then Step(" ", Literal(c))
      else Step([c], Code)
    case Line => if c == '\n' then Step("\n", Code) else Step(" ", Line)
    case Block => if |s| > 1 && c == '*' && s[1] == '/' then Step("  ", Code) else Step([Blank(c)], Block)
    case Literal(q) =>
      if c == q then Step(" ", Code)
      else if |s| > 1 && c == '\\' then Step([' ', Blank(s[1])], m)
      else Step([Blank(c)], m)
  }

  /** What the rest `s` of a text becomes when it is reached in mode `m`. */
  function Stripped(m: Mode, s: string): (r: string)
    ensures |r| == |s|
    decreases |s|
  {
    if s == "" then "" else StepOf(m, s).wrote + Stripped(StepOf(m, s).next, s[|StepOf(m, s).wrote|..])
  }

  // ---- what that means ----

  predicate QuoteOk(m: Mode) { m.Literal? ==> m.quote != '\n' }

  lemma StepKeepsPositions(m: Mode, s: string, i: nat)
    requires s != "" && i < |StepOf(m, s).wrote| && QuoteOk(m)
    ensures var w := StepOf(m, s).wrote; w[i] == s[i] || (w[i] == ' ' && s[i] != '\n')
    ensures QuoteOk(StepOf(m, s).next)
  {
  }

  /** Every character stays or becomes a blank, and a newline stays: all positions, and with them all
      line numbers, are those of the original text. */
  lemma {:induction false} PositionsSurvive(m: Mode, s: string, i: nat)
    requires i < |s| && QuoteOk(m)
    ensures Stripped(m, s)[i] == s[i] || (Stripped(m, s)[i] == ' ' && s[i] != '\n')
    decreases |s|
  {
    var st := StepOf(m, s);
    if i < |st.wrote| {
      StepKeepsPositions(m, s, i);
    } else {
      StepKeepsPositions(m, s, 0);
      PositionsSurvive(st.next, s[|st.wrote|..], i - |st.wrote|);
    }
  }

  /** Nothing in it would open a comment or a literal. */
  predicate Clean(t: string) {
    && (forall i :: 0 <= i < |t| ==> t[i] != '"' && t[i] != '\'')
    && (forall i :: 0 <= i < |t| - 1 && t[i] == '/' ==> t[i + 1] != '/' && t[i + 1] != '*')
  }

  lemma CleanCons(c: char, t: string)
    requires Clean(t) && c != '"' && c != '\'' && (c == '/' && t != "" ==> t[0] != '/' && t[0] != '*')
    ensures Clean([c] + t)
  {
    var u := [c] + t;
    assert forall i :: 0 < i < |u| ==> u[i] == t[i - 1];
  }

  lemma {:induction false} CleanBlanks(w: string, t: string)
    requires Clean(t) && forall c <- w :: c == ' ' || c == '\n'
    ensures Clean(w + t)
    decreases |w|
  {
    if w == "" {
      assert w + t == t;
    } else {
      assert w[0] in w && forall c <- w[1..] :: c in w;
      CleanBlanks(w[1..], t);
      CleanCons(w[0], w[1..] + t);
      assert w + t == [w[0]] + (w[1..] + t);
    }
  }

  /** A step writes blanks, or one character of code that opens nothing. */
  lemma StepWrites(m: Mode, s: string)
    requires s != ""
    ensures var st := StepOf(m, s);
            || (forall c <- st.wrote :: c == ' ' || c == '\n')
            || (m == st.next == Code && st.wrote == [s[0]] && s[0] != '"' && s[0] != '\''
                && (s[0] == '/' && |s| > 1 ==> s[1] != '/' && s[1] != '*'))
  {
  }

  lemma FirstOfCode(s: string)
    requires s != "" && s[0] != '/'
    ensures Stripped(Code, s)[0] in [s[0], ' ']
  {
  }

  /** A stripped text is clean. */
  lemma {:induction false} StrippedIsClean(m: Mode, s: string)
    ensures Clean(Stripped(m, s))
    decreases |s|
  {
    if s != "" {
      var st := StepOf(m, s);
      var rest := s[|st.wrote|..];
      StrippedIsClean(st.next, rest);
      StepWrites(m, s);
      if forall c <- st.wrote :: c == ' ' || c == '\n' {
        CleanBlanks(st.wrote, Stripped(st.next, rest));
      } else {
        if rest != "" && rest[0] != '/' {
          FirstOfCode(rest);
        }
        CleanCons(s[0], Stripped(Code, rest));
      }
    }
  }

  lemma {:induction false} CleanStaysAsIs(t: string)
    requires Clean(t)
    ensures Stripped(Code, t) == t
    decreases |t|
  {
    if t != "" {
      assert Clean(t[1..]) by {
        assert forall i :: 0 <= i < |t| - 1 ==> t[1..][i] == t[i + 1];
      }
      CleanStaysAsIs(t[1..]);
      assert t == [t[0]] + t[1..];
    }
  }

  /** Stripping twice is stripping once. */
  lemma StrippingIsIdempotent(s: string)
    ensures Stripped(Code, Stripped(Code, s)) == Stripped(Code, s)
  {
    StrippedIsClean(Code, s);
    CleanStaysAsIs(Stripped(Code, s));
  }

  // ---- what survives, piece by piece ----

  /** A stretch of a text: code, a comment to the end of its line, a block comment or a literal, the last
      two with or without their end. */
  datatype Piece =
    | Plain(s: string)
    | LineComment(s: string)
    | BlockComment(s: string, ended: bool)
    | Quoted(q: char, s: string, ended: bool)

  function Text(p: Piece): string {
    match p
    case Plain(s) => s
    case LineComment(s) => "//" + s
    case BlockComment(s, ended) => "/*" + s + if ended then "*/" else ""
    case Quoted(q, s, ended) => [q] + s + if ended then [q] else ""
  }

  /** Blanks for all of it but its newlines. */
  function Blanked(s: string): string
    decreases |s|
  {
    if s == "" then "" else [Blank(s[0])] + Blanked(s[1..])
  }

  lemma {:induction false} BlankedAt(s: string)
    ensures |Blanked(s)| == |s| && forall i :: 0 <= i < |s| ==> Blanked(s)[i] == if s[i] == '\n' then '\n' else ' '
    decreases |s|
  {
    if s != "" {
      BlankedAt(s[1..]);
    }
  }

  /** Code stays, everything else is blanked. */
  function Shown(p: Piece): string { if p.Plain? then p.s else Blanked(Text(p)) }

  predicate NoClose(s: string) { forall i :: 0 <= i < |s| - 1 && s[i] == '*' ==> s[i + 1] != '/' }

  /** What can stand between the quotes: no closing one but behind a backslash, the pairs being taken from
      the left. Only a literal that never ends can stop in the middle of a pair. */
  predicate Body(q: char, s: string, ended: bool)
    decreases |s|
  {
    if s == "" then true
    else if s[0] == q then false
    else if s[0] == '\\' then if |s| == 1 then !ended else Body(q, s[2..], ended)
    else Body(q, s[1..], ended)
  }

  /** `p` can stand in front of `rest`: it is over where `rest` begins, and not before. */
  predicate PieceOk(p: Piece, rest: string) {
    match p
    case Plain(s) => s != "" && Clean(s) && (s[|s| - 1] == '/' && rest != "" ==> rest[0] != '/' && rest[0] != '*')
    case LineComment(s) => '\n' !in s && (rest != "" ==> rest[0] == '\n')
    case BlockComment(s, ended) => NoClose(s) && (!ended ==> rest == "")
    case Quoted(q, s, ended) => (q == '"' || q == '\'') && Body(q, s, ended) && (!ended ==> rest == "")
  }

  lemma NothingLeft(m: Mode)
    ensures Stripped(m, "") == ""
  {
  }

  /** One move, by what it writes and what it leaves. */
  lemma Moves(m: Mode, s: string, wrote: string, next: Mode, rest: string)
    requires s != "" && StepOf(m, s) == Step(wrote, next) && s[|wrote|..] == rest
    ensures Stripped(m, s) == wrote + Stripped(next, rest)
  {
  }

  lemma {:induction false} PlainSurvives(s: string, rest: string)
    requires Clean(s) && (s != "" && s[|s| - 1] == '/' && rest != "" ==> rest[0] != '/' && rest[0] != '*')
    ensures Stripped(Code, s + rest) == s + Stripped(Code, rest)
    decreases |s|
  {
    hide Stripped;
    if s == "" {
      assert s + rest == rest;
    } else {
      var all := s + rest;
      assert all[0] == s[0] && (|s| > 1 ==> all[1] == s[1]) && (|s| == 1 && rest != "" ==> all[1] == rest[0]);
      assert all[1..] == s[1..] + rest;
      Moves(Code, all, [s[0]], Code, s[1..] + rest);
      assert Clean(s[1..]) by {
        assert forall i :: 0 <= i < |s| - 1 ==> s[1..][i] == s[i + 1];
      }
      PlainSurvives(s[1..], rest);
      assert s == [s[0]] + s[1..];
      assert [s[0]] + (s[1..] + Stripped(Code, rest)) == s + Stripped(Code, rest);
    }
  }

  lemma BlankedCons(c: char, s: string)
    ensures Blanked([c] + s) == [Blank(c)] + Blanked(s)
  {
    assert ([c] + s)[1..] == s;
  }

  lemma BlankedTwo(c: char, d: char, s: string)
    ensures Blanked([c] + ([d] + s)) == [Blank(c), Blank(d)] + Blanked(s)
  {
    BlankedCons(c, [d] + s);
    BlankedCons(d, s);
  }

  lemma Assoc(a: string, b: string, c: string)
    ensures a + (b + c) == (a + b) + c
  {
  }

  /** At a newline or the end a line comment is over, and the newline is code. */
  lemma LineEnds(s: string)
    requires s == "" || s[0] == '\n'
    ensures Stripped(Line, s) == Stripped(Code, s)
  {
  }

  lemma {:induction false} LineBlanked(s: string, rest: string)
    requires '\n' !in s && (rest != "" ==> rest[0] == '\n')
    ensures Stripped(Line, s + rest) == Blanked(s) + Stripped(Code, rest)
    decreases |s|
  {
    if s == "" {
      assert s + rest == rest;
      LineEnds(rest);
    } else {
      hide Stripped;
      var all := s + rest;
      assert s[0] in s && forall c <- s[1..] :: c in s;
      assert all[1..] == s[1..] + rest && all[0] == s[0];
      Moves(Line, all, [Blank(s[0])], Line, s[1..] + rest);
      LineBlanked(s[1..], rest);
      Assoc([Blank(s[0])], Blanked(s[1..]), Stripped(Code, rest));
    }
  }

  lemma {:induction false} BlockBlanked(s: string, ended: bool, rest: string)
    requires NoClose(s) && (!ended ==> rest == "")
    ensures var end := if ended then "*/" else "";
            Stripped(Block, s + end + rest) == Blanked(s + end) + Stripped(Code, rest)
    decreases |s|
  {
    hide Stripped;
    var end := if ended then "*/" else "";
    var all := s + end + rest;
    if s != "" {
      var less := s[1..] + end + rest;
      assert all[1..] == less && all[0] == s[0];
      assert |s| > 1 ==> all[1] == s[1];
      assert |s| == 1 && ended ==> all[1] == '*';
      Moves(Block, all, [Blank(s[0])], Block, less);
      assert NoClose(s[1..]) by {
        assert forall i :: 0 <= i < |s| - 1 ==> s[1..][i] == s[i + 1];
      }
      BlockBlanked(s[1..], ended, rest);
      assert (s + end)[1..] == s[1..] + end;
      Assoc([Blank(s[0])], Blanked(s[1..] + end), Stripped(Code, rest));
    } else if ended {
      assert all[2..] == rest && all[0] == '*' && all[1] == '/';
      BlankedTwo('*', '/', "");
      assert s + end == ['*'] + (['/'] + "");
      Moves(Block, all, "  ", Code, rest);
    } else {
      assert all == "" && rest == "";
      NothingLeft(Block);
    }
  }

  lemma {:induction false} BodyBlanked(q: char, s: string, ended: bool, rest: string)
    requires (q == '"' || q == '\'') && Body(q, s, ended) && (!ended ==> rest == "")
    ensures var end := if ended then [q] else "";
            Stripped(Literal(q), s + end + rest) == Blanked(s + end) + Stripped(Code, rest)
    decreases |s|
  {
    hide Stripped;
    var end := if ended then [q] else "";
    var all := s + end + rest;
    if s == "" {
      if ended {
        assert all[0] == q && all[1..] == rest;
        assert (s + end)[1..] == "";
        Moves(Literal(q), all, " ", Code, rest);
      } else {
        assert all == "" && rest == "";
        NothingLeft(Literal(q));
      }
    } else if s[0] == '\\' && |s| > 1 {
      var less := s[2..] + end + rest;
      assert all[2..] == less && all[0] == s[0] && all[1] == s[1];
      Moves(Literal(q), all, [' ', Blank(s[1])], Literal(q), less);
      BodyBlanked(q, s[2..], ended, rest);
      BlankedTwo(s[0], s[1], s[2..] + end);
      assert s + end == [s[0]] + ([s[1]] + (s[2..] + end));
      Assoc([' ', Blank(s[1])], Blanked(s[2..] + end), Stripped(Code, rest));
    } else {
      var less := s[1..] + end + rest;
      assert all[1..] == less && all[0] == s[0];
      assert s[0] == '\\' ==> |all| == 1;
      Moves(Literal(q), all, [Blank(s[0])], Literal(q), less);
      BodyBlanked(q, s[1..], ended, rest);
      assert (s + end)[1..] == s[1..] + end;
      Assoc([Blank(s[0])], Blanked(s[1..] + end), Stripped(Code, rest));
    }
  }

  lemma Opened(c: char, d: char, body: string, rest: string, m: Mode)
    requires c == '/' && ((d == '/' && m == Line) || (d == '*' && m == Block))
    requires Stripped(m, body + rest) == Blanked(body) + Stripped(Code, rest)
    ensures Stripped(Code, ([c, d] + body) + rest) == Blanked([c, d] + body) + Stripped(Code, rest)
  {
    hide Stripped, Blanked;
    var all := ([c, d] + body) + rest;
    assert all[0] == c && all[1] == d && all[2..] == body + rest;
    Moves(Code, all, "  ", m, body + rest);
    BlankedTwo(c, d, body);
    assert [c, d] + body == [c] + ([d] + body);
    assert [' ', ' '] == "  ";
    Assoc("  ", Blanked(body), Stripped(Code, rest));
  }

  lemma OpenedQuote(q: char, body: string, rest: string)
    requires q == '"' || q == '\''
    requires Stripped(Literal(q), body + rest) == Blanked(body) + Stripped(Code, rest)
    ensures Stripped(Code, ([q] + body) + rest) == Blanked([q] + body) + Stripped(Code, rest)
  {
    hide Stripped, Blanked;
    var all := ([q] + body) + rest;
    assert all[0] == q && all[1..] == body + rest;
    Moves(Code, all, " ", Literal(q), body + rest);
    BlankedCons(q, body);
    Assoc(" ", Blanked(body), Stripped(Code, rest));
  }

  lemma BlockIsShown(s: string, ended: bool, rest: string)
    requires PieceOk(BlockComment(s, ended), rest)
    ensures Stripped(Code, Text(BlockComment(s, ended)) + rest) == Shown(BlockComment(s, ended)) + Stripped(Code, rest)
  {
    hide Stripped, NoClose, Blanked;
    var end := if ended then "*/" else "";
    BlockBlanked(s, ended, rest);
    assert Text(BlockComment(s, ended)) == ['/', '*'] + (s + end);
    Opened('/', '*', s + end, rest, Block);
  }

  lemma QuotedIsShown(q: char, s: string, ended: bool, rest: string)
    requires PieceOk(Quoted(q, s, ended), rest)
    ensures Stripped(Code, Text(Quoted(q, s, ended)) + rest) == Shown(Quoted(q, s, ended)) + Stripped(Code, rest)
  {
    hide Stripped, Body, Blanked;
    var end := if ended then [q] else "";
    BodyBlanked(q, s, ended, rest);
    assert Text(Quoted(q, s, ended)) == [q] + (s + end);
    OpenedQuote(q, s + end, rest);
  }

  /** Whatever follows, a piece of code is kept as it is, and a comment or literal is blanked up to its end
      and no further. */
  lemma PieceIsShown(p: Piece, rest: string)
    requires PieceOk(p, rest)
    ensures Stripped(Code, Text(p) + rest) == Shown(p) + Stripped(Code, rest)
  {
    hide Stripped, Blanked;
    match p {
      case Plain(s) => PlainSurvives(s, rest);
      case LineComment(s) =>
        LineBlanked(s, rest);
        assert "//" == ['/', '/'];
        Opened('/', '/', s, rest, Line);
      case BlockComment(s, ended) => BlockIsShown(s, ended, rest);
      case Quoted(q, s, ended) => QuotedIsShown(q, s, ended, rest);
    }
  }

  function TextOf(ps: seq<Piece>): string
    decreases |ps|
  {
    if ps == [] then "" else Text(ps[0]) + TextOf(ps[1..])
  }

  function ShownOf(ps: seq<Piece>): string
    decreases |ps|
  {
    if ps == [] then "" else Shown(ps[0]) + ShownOf(ps[1..])
  }

  predicate PiecesOk(ps: seq<Piece>)
    decreases |ps|
  {
    ps == [] || (PieceOk(ps[0], TextOf(ps[1..])) && PiecesOk(ps[1..]))
  }

  /** A text strips to its code, with its comments and literals blanked in place. */
  lemma {:induction false} CodeSurvives(ps: seq<Piece>)
    requires PiecesOk(ps)
    ensures Stripped(Code, TextOf(ps)) == ShownOf(ps)
    decreases |ps|
  {
    if ps != [] {
      PieceIsShown(ps[0], TextOf(ps[1..]));
      CodeSurvives(ps[1..]);
    }
  }

  // ---- every text is made of such pieces ----

  lemma {:induction false} LineSplit(s: string) returns (n: nat)
    ensures n <= |s| && '\n' !in s[..n] && (n < |s| ==> s[n] == '\n')
    decreases |s|
  {
    if s == "" || s[0] == '\n' {
      n := 0;
    } else {
      var k := LineSplit(s[1..]);
      n := k + 1;
      assert s[..n] == [s[0]] + s[1..][..k];
    }
  }

  lemma {:induction false} BlockSplit(s: string) returns (n: nat, ended: bool)
    ensures n <= |s| && NoClose(s[..n])
    ensures if ended then n + 2 <= |s| && s[n] == '*' && s[n + 1] == '/' else n == |s|
    decreases |s|
  {
    if s == "" {
      n, ended := 0, false;
    } else if |s| > 1 && s[0] == '*' && s[1] == '/' {
      n, ended := 0, true;
    } else {
      var k;
      k, ended := BlockSplit(s[1..]);
      n := k + 1;
      forall i | 0 <= i < n - 1 && s[..n][i] == '*' ensures s[..n][i + 1] != '/' {
        if i > 0 {
          assert s[..n][i] == s[1..][..k][i - 1] && s[..n][i + 1] == s[1..][..k][i];
        }
      }
    }
  }

  lemma {:induction false} BodySplit(q: char, s: string) returns (n: nat, ended: bool)
    ensures n <= |s| && Body(q, s[..n], ended)
    ensures if ended then n < |s| && s[n] == q else n == |s|
    decreases |s|
  {
    if s == "" {
      n, ended := 0, false;
    } else if s[0] == q {
      n, ended := 0, true;
    } else if s[0] == '\\' && |s| == 1 {
      n, ended := 1, false;
    } else {
      var step := if s[0] == '\\' then 2 else 1;
      var k;
      k, ended := BodySplit(q, s[step..]);
      n := k + step;
      assert s[..n][step..] == s[step..][..k];
    }
  }

  /** The piece a text begins with. */
  lemma FirstPiece(s: string) returns (p: Piece, n: nat)
    requires s != ""
    ensures 0 < n <= |s| && Text(p) == s[..n] && PieceOk(p, s[n..])
  {
    if |s| > 1 && s[0] == '/' && s[1] == '/' {
      var k := LineSplit(s[2..]);
      p, n := LineComment(s[2..][..k]), k + 2;
      assert s[..n] == "//" + s[2..][..k];
    } else if |s| > 1 && s[0] == '/' && s[1] == '*' {
      var k, ended := BlockSplit(s[2..]);
      p, n := BlockComment(s[2..][..k], ended), if ended then k + 4 else k + 2;
      if ended {
        assert s[2..][k] == s[k + 2] && s[2..][k + 1] == s[k + 3];
      }
      assert s[..n] == "/*" + s[2..][..k] + if ended then "*/" else "";
    } else if s[0] == '"' || s[0] == '\'' {
      var k, ended := BodySplit(s[0], s[1..]);
      p, n := Quoted(s[0], s[1..][..k], ended), if ended then k + 2 else k + 1;
      if ended {
        assert s[1..][k] == s[k + 1];
      }
      assert s[..n] == [s[0]] + s[1..][..k] + if ended then [s[0]] else "";
    } else {
      p, n := Plain([s[0]]), 1;
      assert s[..1] == [s[0]];
    }
  }

  /** So CodeSurvives speaks of every text. */
  lemma {:induction false} EveryTextHasPieces(s: string) returns (ps: seq<Piece>)
    ensures PiecesOk(ps) && TextOf(ps) == s
    decreases |s|
  {
    if s == "" {
      ps := [];
    } else {
      var p, n := FirstPiece(s);
      var rest := EveryTextHasPieces(s[n..]);
      ps := [p] + rest;
      assert ps[1..] == rest && s == s[..n] + s[n..];
    }
  }

  // ---- the loops ----

  predicate StartsComment(text: string, i: nat, second: char) {
    i + 1 < |text| && text[i] == '/' && text[i + 1] == second
  }

  /** What has been written and what is to come make up the whole. */
  predicate Splits(text: string, out: string, i: nat, m: Mode) {
    i <= |text| && out + Stripped(m, text[i..]) == Stripped(Code, text)
  }

  lemma Advance(text: string, out: string, i: nat, m: Mode)
    requires Splits(text, out, i, m) && i < |text|
    ensures var st := StepOf(m, text[i..]); Splits(text, out + st.wrote, i + |st.wrote|, st.next)
  {
    var st := StepOf(m, text[i..]);
    assert text[i..][|st.wrote|..] == text[i + |st.wrote|..];
    assert (out + st.wrote) + Stripped(st.next, text[i + |st.wrote|..]) ==
           out + (st.wrote + Stripped(st.next, text[i + |st.wrote|..]));
  }

  method SkipLine(text: string, out0: string, i0: nat) returns (out: string, i: nat)
    requires Splits(text, out0, i0, Code) && StartsComment(text, i0, '/')
    ensures Splits(text, out, i, Code) && i0 < i
  {
    hide Stripped;
    Advance(text, out0, i0, Code);
    out, i := out0 + "  ", i0 + 2;
    while i < |text| && text[i] != '\n'
      invariant i0 < i && Splits(text, out, i, Line)
    {
      Advance(text, out, i, Line);
      out, i := out + " ", i + 1;
    }
    LineEnds(text[i..]);
  }

  /** At the end of the text it does not matter what was left open. */
  lemma EndOfText(text: string, out: string, i: nat, m: Mode)
    requires Splits(text, out, i, m) && i == |text|
    ensures Splits(text, out, i, Code) && out == Stripped(Code, text)
  {
    assert text[i..] == "";
  }

  method SkipBlock(text: string, out0: string, i0: nat) returns (out: string, i: nat)
    requires Splits(text, out0, i0, Code) && StartsComment(text, i0, '*')
    ensures Splits(text, out, i, Code) && i0 < i
  {
    hide Stripped;
    Advance(text, out0, i0, Code);
    out, i := out0 + "  ", i0 + 2;
    while i < |text| && !(text[i] == '*' && i + 1 < |text| && text[i + 1] == '/')
      invariant i0 < i && Splits(text, out, i, Block)
    {
      Advance(text, out, i, Block);
      out, i := out + [if text[i] == '\n' then '\n' else ' '], i + 1;
    }
    if i < |text| {
      Advance(text, out, i, Block);
      out, i := out + "  ", i + 2;
    } else {
      EndOfText(text, out, i, Block);
    }
  }

  method SkipLiteral(text: string, out0: string, i0: nat, q: char) returns (out: string, i: nat)
    requires Splits(text, out0, i0, Code) && i0 < |text| && text[i0] == q && (q == '"' || q == '\'')
    ensures Splits(text, out, i, Code) && i0 < i
  {
    hide Stripped;
    Advance(text, out0, i0, Code);
    out, i := out0 + " ", i0 + 1;
    while i < |text| && text[i] != q
      invariant i0 < i && Splits(text, out, i, Literal(q))
    {
      Advance(text, out, i, Literal(q));
      if text[i] == '\\' && i + 1 < |text| {
        out, i := out + [' ', if text[i + 1] == '\n' then '\n' else ' '], i + 2;
      } else {
        out, i := out + [if text[i] == '\n' then '\n' else ' '], i + 1;
      }
    }
    if i < |text| {
      Advance(text, out, i, Literal(q));
      out, i := out + " ", i + 1;
    } else {
      EndOfText(text, out, i, Literal(q));
    }
  }

  method StripCommentsAndLiterals(text: string) returns (out: string)
    ensures out == Stripped(Code, text)
    ensures forall ps :: PiecesOk(ps) && TextOf(ps) == text ==> out == ShownOf(ps)
  {
    hide Stripped;
    out := "";
    var i := 0;
    assert text[0..] == text;
    while i < |text|
      invariant Splits(text, out, i, Code)
      decreases |text| - i
    {
      var c := text[i];
      if StartsComment(text, i, '/') {
        out, i := SkipLine(text, out, i);
      } else if StartsComment(text, i, '*') {
        out, i := SkipBlock(text, out, i);
      } else if c == '"' || c == '\'' {
        out, i := SkipLiteral(text, out, i, c);
      } else {
        Advance(text, out, i, Code);
        out, i := out + [c], i + 1;
      }
    }
    EndOfText(text, out, i, Code);
    forall ps | PiecesOk(ps) && TextOf(ps) == text ensures out == ShownOf(ps) {
      CodeSurvives(ps);
    }
  }
}
