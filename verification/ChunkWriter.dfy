/** The chunk writer of components/app/cmd/cmd.c and the raw file stream on top of it: a payload
    written in pieces becomes a run of chunks, with the checksum of the whole payload behind it. */
module ChunkWriter {
  import opened Prelude

  const CMD_CHUNK_MAX: nat := 496
  const CMD_STREAM_MAX_CHUNKS: nat := 8192
  const IO: nat := 256

  type Bytes = seq<Byte>

  datatype Chunk = Chunk(seqNo: nat, last: bool, data: Bytes)

  // ---- the checksum ----

  /** One byte's step of the checksum. The inversions a CRC32 makes on entry and exit cancel between
      calls, so chaining calls is folding this step over all bytes. */
  type Crc = (U32, Byte) -> U32

  function Sum(f: Crc, c: U32, s: Bytes): U32
    decreases |s|
  {
    if s == [] then c else f(Sum(f, c, s[..|s| - 1]), s[|s| - 1])
  }

  lemma {:induction false} SumChains(f: Crc, c: U32, a: Bytes, b: Bytes)
    ensures Sum(f, Sum(f, c, a), b) == Sum(f, c, a + b)
    decreases |b|
  {
    if b == [] {
      assert a + b == a;
    } else {
      assert (a + b)[..|a + b| - 1] == a + b[..|b| - 1];
      SumChains(f, c, a, b[..|b| - 1]);
    }
  }

  /** The checksum as a receiver takes it, byte by byte from the front. */
  function Running(f: Crc, c: U32, s: Bytes): U32
    decreases |s|
  {
    if s == [] then c else Running(f, f(c, s[0]), s[1..])
  }

  /** The checksum of nothing is what it started from, that of one byte is one step, and that of any
      payload takes every byte of it, in order. */
  lemma {:induction false} SumTakesEveryByte(f: Crc, c: U32, s: Bytes)
    ensures Sum(f, c, []) == c
    ensures forall x: Byte :: Sum(f, c, [x]) == f(c, x)
    ensures Sum(f, c, s) == Running(f, c, s)
    decreases |s|
  {
    forall x: Byte ensures Sum(f, c, [x]) == f(c, x) {
      assert [x][..0] == [];
    }
    if s != [] {
      assert s == [s[0]] + s[1..];
      SumChains(f, c, [s[0]], s[1..]);
      SumTakesEveryByte(f, f(c, s[0]), s[1..]);
    }
  }

  function Le32(v: U32): (r: Bytes)
    ensures |r| == 4
  {
    [v % 256, v / 0x100 % 256, v / 0x1_0000 % 256, v / 0x100_0000 % 256]
  }

  /** The trailer is the checksum, lowest byte first. */
  lemma Le32Means(v: U32)
    ensures var r := Le32(v); IsLe32(v, r) && v == r[0] as int + 0x100 * r[1] as int + 0x1_0000 * r[2] as int + 0x100_0000 * r[3] as int
  {
    var a, b, c := v / 0x100, v / 0x1_0000, v / 0x100_0000;
    assert a / 0x100 == b && b / 0x100 == c;
    assert v == v % 256 + 0x100 * a && a == a % 256 + 0x100 * b && b == b % 256 + 0x100 * c;
  }

  // ---- the chunks of a payload ----

  function From(payload: Bytes, skip: nat): Bytes {
    if skip <= |payload| then payload[skip..] else []
  }

  /** How much of the skip is left after `payload`. */
  function ToSkip(payload: Bytes, skip: nat): nat {
    if skip <= |payload| then 0 else skip - |payload|
  }

  /** The full chunks of `p`, each sent as soon as it fills. */
  function Blocks(p: Bytes): (r: seq<Chunk>)
    ensures |r| == |p| / CMD_CHUNK_MAX
  {
    seq(|p| / CMD_CHUNK_MAX, i requires 0 <= i < |p| / CMD_CHUNK_MAX =>
      Chunk(i % TWO_16, false, p[CMD_CHUNK_MAX * i..CMD_CHUNK_MAX * (i + 1)]))
  }

  function Rest(p: Bytes): (r: Bytes)
    ensures |r| == |p| % CMD_CHUNK_MAX
  {
    p[CMD_CHUNK_MAX * (|p| / CMD_CHUNK_MAX)..]
  }

  /** Everything a finished writer has sent: `p` and the trailer `t` behind it. A trailer that does not
      fit behind the rest goes alone into one more chunk. */
  function Whole(p: Bytes, t: Bytes): seq<Chunk>
    requires |t| <= 4
  {
    var q, rest := |p| / CMD_CHUNK_MAX, Rest(p);
    if |rest| + |t| > CMD_CHUNK_MAX
    then Blocks(p) + [Chunk(q % TWO_16, false, rest), Chunk((q + 1) % TWO_16, true, t)]
    else Blocks(p) + [Chunk(q % TWO_16, true, rest + t)]
  }

  function Data(cs: seq<Chunk>): Bytes
    decreases |cs|
  {
    if cs == [] then [] else Data(cs[..|cs| - 1]) + cs[|cs| - 1].data
  }

  lemma {:induction false} DataOfBlocks(p: Bytes, n: nat)
    requires n <= |p| / CMD_CHUNK_MAX
    ensures Data(Blocks(p)[..n]) == p[..CMD_CHUNK_MAX * n]
    decreases n
  {
    if n > 0 {
      var cs := Blocks(p)[..n];
      assert cs[..n - 1] == Blocks(p)[..n - 1];
      DataOfBlocks(p, n - 1);
      assert p[..CMD_CHUNK_MAX * n] == p[..CMD_CHUNK_MAX * (n - 1)] + p[CMD_CHUNK_MAX * (n - 1)..CMD_CHUNK_MAX * n];
    }
  }

  /** What the receiver sees, with no word of how the payload was written: chunks within the limit,
      numbered consecutively from 0, only the last one flagged, carrying exactly the payload and then
      the trailer; and the trailer is never split over two chunks. */
  lemma WholeMeans(p: Bytes, t: Bytes)
    requires |t| <= 4
    ensures var cs := Whole(p, t);
            && cs != []
            && Data(cs) == p + t
            && (forall i :: 0 <= i < |cs| ==>
                  |cs[i].data| <= 496 && cs[i].seqNo == i % 0x1_0000 && (cs[i].last <==> i == |cs| - 1))
            && t <= cs[|cs| - 1].data[|cs[|cs| - 1].data| - |t|..]
  {
    var cs, q, rest := Whole(p, t), |p| / CMD_CHUNK_MAX, Rest(p);
    DataOfBlocks(p, q);
    assert Blocks(p)[..q] == Blocks(p);
    assert p == p[..CMD_CHUNK_MAX * q] + rest;
    if |rest| + |t| > CMD_CHUNK_MAX {
      assert cs[..q + 1] == Blocks(p) + [cs[q]];
      assert cs[..q + 1][..q] == Blocks(p);
    } else {
      assert cs[..q] == Blocks(p);
    }
  }

  /** The chunks carry `p` and, if there is one, the checksum behind it, lowest byte first. */
  predicate Carries(cs: seq<Chunk>, p: Bytes, checksum: Option<U32>) {
    var all := Data(cs);
    match checksum
    case None => all == p
    case Some(c) => |all| == |p| + 4 && all[..|p|] == p && IsLe32(c, all[|p|..])
  }

  // ---- growing the payload ----

  predicate IsPrefix(a: seq<Chunk>, b: seq<Chunk>) { |a| <= |b| && a == b[..|a|] }

  lemma BlocksGrow(p: Bytes, x: Bytes)
    ensures IsPrefix(Blocks(p), Blocks(p + x))
  {
    var n := |p| / CMD_CHUNK_MAX;
    forall i | 0 <= i < n ensures Blocks(p)[i] == Blocks(p + x)[i] {
      assert (p + x)[CMD_CHUNK_MAX * i..CMD_CHUNK_MAX * (i + 1)] == p[CMD_CHUNK_MAX * i..CMD_CHUNK_MAX * (i + 1)];
    }
    assert Blocks(p) == Blocks(p + x)[..n];
  }

  /** Taking bytes short of a full chunk only fills the rest; filling it sends one more block. */
  lemma RestGrows(p: Bytes, x: Bytes)
    requires |Rest(p)| + |x| <= CMD_CHUNK_MAX
    ensures |Rest(p)| + |x| < CMD_CHUNK_MAX ==> Blocks(p + x) == Blocks(p) && Rest(p + x) == Rest(p) + x
    ensures |Rest(p)| + |x| == CMD_CHUNK_MAX ==>
              Rest(p + x) == []
              && Blocks(p + x) == Blocks(p) + [Chunk(|p| / CMD_CHUNK_MAX % TWO_16, false, Rest(p) + x)]
  {
    BlocksGrow(p, x);
    var n := |p| / CMD_CHUNK_MAX;
    assert |p| == CMD_CHUNK_MAX * n + |Rest(p)|;
    assert (p + x)[CMD_CHUNK_MAX * n..] == Rest(p) + x;
    if |Rest(p)| + |x| == CMD_CHUNK_MAX {
      assert |p + x| == CMD_CHUNK_MAX * (n + 1);
      assert |p + x| / CMD_CHUNK_MAX == n + 1 && |p + x| % CMD_CHUNK_MAX == 0;
      assert (p + x)[CMD_CHUNK_MAX * n..CMD_CHUNK_MAX * (n + 1)] == Rest(p) + x;
      assert Blocks(p + x) == Blocks(p + x)[..n] + [Blocks(p + x)[n]];
    } else {
      assert |p + x| / CMD_CHUNK_MAX == n;
    }
  }

  // ---- the writer ----

  /** `payload` is everything given to Write since Init; `sent` what the transport took. The transport
      takes `room` chunks and refuses every later one (or takes all of them). */
  class Writer {
    const buf: array<Byte>
    const f: Crc
    const skip0: nat
    const tail: bool
    const room: Option<nat>
    var len: nat
    var seqNo: nat
    var crc: U32
    var skip: nat
    var failed: bool
    ghost var payload: Bytes
    var sent: seq<Chunk>

    /** The transport's side, when `shown` is what was to be sent so far: what it took is the beginning
        of the blocks, and a failure means it had no room for the next. */
    ghost predicate Sending(shown: Bytes)
      reads this, buf
    {
      && buf.Length == CMD_CHUNK_MAX && len <= CMD_CHUNK_MAX
      && (room.Some? ==> |sent| <= room.value)
      && if failed then IsPrefix(sent, Blocks(shown)) && room == Some(|sent|)
         else len < CMD_CHUNK_MAX && sent == Blocks(shown) && buf[..len] == Rest(shown)
              && seqNo == |sent| % TWO_16
    }

    ghost predicate Valid()
      reads this, buf
    {
      && Sending(From(payload, skip0))
      && (!failed ==> crc == Sum(f, 0, payload) && skip == ToSkip(payload, skip0))
    }

    constructor (sum: Crc, offset: nat, withTail: bool, capacity: Option<nat>)
      ensures fresh(buf) && f == sum && skip0 == offset && tail == withTail && room == capacity
      ensures Valid() && !failed && payload == [] && sent == []
    {
      buf := new Byte[CMD_CHUNK_MAX](_ => 0);
      f, skip0, tail, room := sum, offset, withTail, capacity;
      len, seqNo, crc, skip, failed, payload, sent := 0, 0, 0, offset, false, [], [];
      new;
      assert From([], offset) == [];
    }

    /** cw_flush: one chunk to the transport. */
    method Flush(last: bool) returns (rc: int)
      requires !failed && len <= buf.Length
      requires room.Some? ==> |sent| <= room.value
      modifies this`len, this`seqNo, this`failed, this`sent
      ensures failed == (room == Some(old(|sent|))) && rc == (if failed then -1 else 0)
      ensures failed ==> sent == old(sent) && len == old(len)
      ensures !failed ==> sent == old(sent) + [Chunk(old(seqNo), last, buf[..old(len)])]
                          && len == 0 && seqNo == (old(seqNo) + 1) % TWO_16
    {
      if room == Some(|sent|) {
        seqNo := (seqNo + 1) % TWO_16;
        failed := true;
        return -1;
      }
      sent := sent + [Chunk(seqNo, last, buf[..len])];
      seqNo := (seqNo + 1) % TWO_16;
      len := 0;
      return 0;
    }

    /** The memcpy behind the bytes already buffered. */
    method Fill(p: Bytes)
      requires len + |p| <= buf.Length
      modifies buf
      ensures buf[..len + |p|] == old(buf[..len]) + p
    {
      for i := 0 to |p|
        invariant buf[..len + i] == old(buf[..len]) + p[..i]
      {
        buf[len + i] := p[i];
        assert buf[..len + i + 1] == buf[..len + i] + [p[i]];
      }
    }

    /** One round of cw_write's loop: copy what fits, and send the chunk once it is full. */
    method Take(p: Bytes, ghost shown: Bytes) returns (rc: int)
      requires !failed && Sending(shown) && len + |p| <= CMD_CHUNK_MAX
      modifies this`len, this`seqNo, this`failed, this`sent, buf
      ensures Sending(shown + p) && rc == (if failed then -1 else 0)
    {
      RestGrows(shown, p);
      BlocksGrow(shown, p);
      Fill(p);
      len := len + |p|;
      if len == CMD_CHUNK_MAX {
        rc := Flush(false);
      } else {
        rc := 0;
      }
    }

    /** cw_write up to its loop: the checksum takes every byte, and the first `off` are skipped. */
    method Account(p: Bytes) returns (off: nat)
      requires crc == Sum(f, 0, payload) && skip == ToSkip(payload, skip0)
      modifies this`crc, this`skip, this`payload
      ensures payload == old(payload) + p
      ensures crc == Sum(f, 0, payload) && skip == ToSkip(payload, skip0)
      ensures off <= |p| && From(payload, skip0) == old(From(payload, skip0)) + p[off..]
    {
      ShownGrows(payload, p, skip0);
      SkippedPart(p, skip);
      SumChains(f, 0, payload, p);
      crc := Sum(f, crc, p);
      off := if skip < |p| then skip else |p|;
      skip := skip - off;
      payload := payload + p;
    }

    /** cw_write. A writer that has failed takes nothing more. */
    method Write(p: Bytes) returns (rc: int)
      requires Valid()
      modifies this`len, this`seqNo, this`failed, this`sent, this`crc, this`skip, this`payload, buf
      ensures Valid() && payload == old(payload) + p
      ensures rc == (if failed then -1 else 0) && (old(failed) ==> failed && sent == old(sent))
    {
      ghost var shown := From(payload, skip0);
      if failed {
        ShownGrows(payload, p, skip0);
        PrefixGrows(sent, shown, From(p, ToSkip(payload, skip0)));
        payload := payload + p;
        return -1;
      }
      var off := Account(p);
      rc := Copy(p, off, shown);
    }

    /** cw_write's loop over the bytes that are not skipped. */
    method Copy(p: Bytes, start: nat, ghost shown0: Bytes) returns (rc: int)
      requires start <= |p| && !failed && Sending(shown0)
      modifies this`len, this`seqNo, this`failed, this`sent, buf
      ensures Sending(shown0 + p[start..]) && rc == (if failed then -1 else 0)
    {
      ghost var shown, grown := shown0, shown0 + p[start..];
      var off := start;
      while off < |p|
        invariant off <= |p| && !failed && shown + p[off..] == grown && Sending(shown)
      {
        var space := CMD_CHUNK_MAX - len;
        var take := if |p| - off > space then space else |p| - off;
        rc := Take(p[off..off + take], shown);
        shown := shown + p[off..off + take];
        off := off + take;
        assert shown + p[off..] == grown;
        if failed {
          BlocksGrow(shown, p[off..]);
          return;
        }
      }
      assert shown == grown;
      return 0;
    }

    /** cw_finish: the trailer and the last chunk. When it reports success everything was sent: the payload
        from the offset on, and behind it the checksum of all of it, lowest byte first. */
    method Finish() returns (rc: int)
      requires Valid()
      modifies this`len, this`seqNo, this`failed, this`sent, buf
      ensures var all := Whole(From(payload, skip0), if tail then Le32(Sum(f, 0, payload)) else []);
              && IsPrefix(sent, all)
              && (rc == 0 <==> sent == all)
              && (rc == 0 || rc == -1)
      ensures rc == 0 ==> Carries(sent, From(payload, skip0), if tail then Some(Running(f, 0, payload)) else None)
    {
      hide Running, Carries, Data;
      ghost var p, t := From(payload, skip0), if tail then Le32(Sum(f, 0, payload)) else [];
      PrefixesOfWhole(p, t);
      WholeCarries(f, payload, p, tail);
      if failed {
        return -1;
      }
      if tail {
        rc := PutTail(Le32(crc), p);
        if failed {
          return;
        }
      }
      rc := Flush(true);
    }

    /** The trailer goes behind the rest, or, if that leaves no room, into a chunk of its own. */
    method PutTail(t: Bytes, ghost p: Bytes) returns (rc: int)
      requires |t| == 4 && !failed && Sending(p)
      modifies this`len, this`seqNo, this`failed, this`sent, buf
      ensures rc == (if failed then -1 else 0) && len <= CMD_CHUNK_MAX
      ensures room.Some? ==> |sent| <= room.value
      ensures failed ==> sent == Blocks(p) && room == Some(|sent|)
      ensures !failed ==> seqNo == |sent| % TWO_16
                          && Whole(p, t) == sent + [Chunk(seqNo, true, buf[..len])]
    {
      rc := 0;
      if len + 4 > CMD_CHUNK_MAX {
        rc := Flush(false);
        if failed {
          return;
        }
        assert buf[..len] == [];
      }
      ghost var rest := buf[..len];
      Fill(t);
      len := len + 4;
      assert buf[..len] == rest + t;
      assert rest == [] ==> rest + t == t;
      assert Whole(p, t) == sent + [Chunk(seqNo, true, buf[..len])];
    }
  }

  lemma WholeCarries(f: Crc, payload: Bytes, p: Bytes, tail: bool)
    ensures var t := if tail then Le32(Sum(f, 0, payload)) else [];
            Carries(Whole(p, t), p, if tail then Some(Running(f, 0, payload)) else None)
  {
    var t := if tail then Le32(Sum(f, 0, payload)) else [];
    SumTakesEveryByte(f, 0, payload);
    Le32Means(Sum(f, 0, payload));
    WholeMeans(p, t);
    assert p + [] == p;
  }

  lemma PrefixesOfWhole(p: Bytes, t: Bytes)
    requires |t| <= 4
    ensures IsPrefix(Blocks(p), Whole(p, t)) && |Blocks(p)| < |Whole(p, t)|
    ensures t == [] ==> Whole(p, t) == Blocks(p) + [Chunk(|p| / CMD_CHUNK_MAX % TWO_16, true, Rest(p))]
  {
    assert Rest(p) + [] == Rest(p);
  }

  lemma SkippedPart(p: Bytes, skip: nat)
    ensures p[if skip < |p| then skip else |p|..] == From(p, skip)
  {
  }

  lemma PrefixGrows(sent: seq<Chunk>, p: Bytes, x: Bytes)
    requires IsPrefix(sent, Blocks(p))
    ensures IsPrefix(sent, Blocks(p + x))
  {
    BlocksGrow(p, x);
  }

  lemma ShownGrows(payload: Bytes, p: Bytes, skip0: nat)
    ensures From(payload + p, skip0) == From(payload, skip0) + From(p, ToSkip(payload, skip0))
  {
  }
}
