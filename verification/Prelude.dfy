/** Shared value types: the C integer widths the firmware relies on, and an option type; and what it means
    for four bytes to be a little-endian word. */
module Prelude {
  const TWO_16: nat := 0x1_0000
  const TWO_32: nat := 0x1_0000_0000

  type Byte = x: nat | x < 0x100
  type U16 = x: nat | x < 0x1_0000
  type U32 = x: nat | x < 0x1_0000_0000

  datatype Option<+T> = None | Some(value: T)

  /** The first four bytes of `p` are the base-256 digits of `v`, lowest first. */
  predicate IsLe32(v: nat, p: seq<Byte>) {
    && |p| >= 4 && v < TWO_32
    && p[0] == v % 0x100
    && p[1] == v / 0x100 % 0x100
    && p[2] == v / 0x100 / 0x100 % 0x100
    && p[3] == v / 0x100 / 0x100 / 0x100
  }

  lemma Le32Of(v: nat, p: seq<Byte>)
    requires |p| >= 4 && v == p[0] as int + 0x100 * p[1] as int + 0x1_0000 * p[2] as int + 0x100_0000 * p[3] as int
    ensures IsLe32(v, p)
  {
    assert v / 0x100 == p[1] as int + 0x100 * p[2] as int + 0x1_0000 * p[3] as int;
    assert v / 0x100 / 0x100 == p[2] as int + 0x100 * p[3] as int;
  }

  /** So the bytes determine the word. */
  lemma Le32Unique(v: nat, w: nat, p: seq<Byte>)
    requires IsLe32(v, p) && IsLe32(w, p)
    ensures v == w
  {
    assert v / 0x100 / 0x100 == w / 0x100 / 0x100;
    assert v / 0x100 == w / 0x100;
  }
}
