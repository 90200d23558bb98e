/** Printed session ids (components/app/logger/logger.c): "S%05u_%03u" of the boot count and the
    session's number within the boot, and their order as strings. */
module SessionIds {
  import opened Prelude
  import opened SessionTable

  const SEQ_MAX: nat := 255

  function Digit(n: nat): char
    requires n < 10
  {
    "0123456789"[n]
  }

  function Pow10(w: nat): (p: nat)
    ensures p > 0
  {
    if w == 0 then 1 else 10 * Pow10(w - 1)
  }

  /** `n` printed in decimal, zero-padded to `w` digits. */
  function Dec(n: nat, w: nat): (s: string)
    requires n < Pow10(w)
    ensures |s| == w
    decreases w
  {
    if w == 0 then [] else Dec(n / 10, w - 1) + [Digit(n % 10)]
  }

  function SessionId(boot: nat, seqNo: nat): (id: string)
    requires seqNo <= SEQ_MAX
    ensures |id| == 10
  {
    Widths();
    "S" + Dec(boot % TWO_16, 5) + "_" + Dec(seqNo, 3)
  }

  lemma {:induction false} LessConcat(a: string, x: string, b: string, y: string)
    requires |a| == |b|
    ensures Less(a + x, b + y) <==> Less(a, b) || (a == b && Less(x, y))
    decreases |a|
  {
    if a == [] {
      assert a + x == x && b + y == y;
    } else {
      assert (a + x)[1..] == a[1..] + x && (b + y)[1..] == b[1..] + y;
      LessConcat(a[1..], x, b[1..], y);
      assert a == [a[0]] + a[1..] && b == [b[0]] + b[1..];
    }
  }

  lemma DigitOrder(m: nat, n: nat)
    requires m < 10 && n < 10
    ensures (Less([Digit(m)], [Digit(n)]) <==> m < n) && (Digit(m) == Digit(n) <==> m == n)
  {
  }

  lemma {:induction false} DecOrder(m: nat, n: nat, w: nat)
    requires m < Pow10(w) && n < Pow10(w)
    ensures Less(Dec(m, w), Dec(n, w)) <==> m < n
    ensures Dec(m, w) == Dec(n, w) <==> m == n
    decreases w
  {
    if w > 0 {
      DecOrder(m / 10, n / 10, w - 1);
      DigitOrder(m % 10, n % 10);
      var a, b := Dec(m / 10, w - 1), Dec(n / 10, w - 1);
      LessConcat(a, [Digit(m % 10)], b, [Digit(n % 10)]);
      if Dec(m, w) == Dec(n, w) {
        assert Dec(m, w)[..w - 1] == a && Dec(n, w)[..w - 1] == b;
        assert Dec(m, w)[w - 1] == Digit(m % 10) && Dec(n, w)[w - 1] == Digit(n % 10);
      }
    }
  }

  lemma Widths()
    ensures Pow10(5) == 100000 && Pow10(3) == 1000
  {
    assert Pow10(2) == 100;
    assert Pow10(4) == 10 * Pow10(3);
  }

  /** String order is the order of (boot modulo 65536, session number), and equal ids mean equal pairs:
      within 65536 boots no two sessions print alike. */
  lemma IdOrder(b: nat, s: nat, c: nat, t: nat)
    requires s <= SEQ_MAX && t <= SEQ_MAX
    ensures Less(SessionId(b, s), SessionId(c, t)) <==>
              b % TWO_16 < c % TWO_16 || (b % TWO_16 == c % TWO_16 && s < t)
    ensures SessionId(b, s) == SessionId(c, t) <==> b % TWO_16 == c % TWO_16 && s == t
  {
    Widths();
    var m, n := b % TWO_16, c % TWO_16;
    DecOrder(m, n, 5);
    DecOrder(s, t, 3);
    var x, y := Dec(m, 5), Dec(n, 5);
    var u, v := Dec(s, 3), Dec(t, 3);
    assert SessionId(b, s) == ("S" + x) + ("_" + u) && SessionId(c, t) == ("S" + y) + ("_" + v);
    LessConcat("S" + x, "_" + u, "S" + y, "_" + v);
    LessConcat("S", x, "S", y);
    LessConcat("_", u, "_", v);
    LessTotal("S", "S");
    LessTotal("_", "_");
    SameParts(x, u, y, v);
  }

  lemma SameParts(x: string, u: string, y: string, v: string)
    requires |x| == |y| && |u| == |v|
    ensures "S" + x == "S" + y <==> x == y
    ensures ("S" + x) + ("_" + u) == ("S" + y) + ("_" + v) <==> x == y && u == v
  {
    assert ("S" + x)[1..] == x && ("S" + y)[1..] == y;
    var p, q := ("S" + x) + ("_" + u), ("S" + y) + ("_" + v);
    assert p[..1 + |x|] == "S" + x && q[..1 + |x|] == "S" + y;
    assert p[2 + |x|..] == u && q[2 + |x|..] == v;
  }

  /** The same order for the names of the .log files, so the least name is the oldest session. */
  lemma LogNameOrder(id: string, other: string)
    requires |id| == |other|
    ensures Less(id + ".log", other + ".log") <==> Less(id, other)
  {
    LessConcat(id, ".log", other, ".log");
    LessTotal(".log", ".log");
  }
}
