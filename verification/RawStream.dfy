/** OPEN and READ of a raw session file (components/app/cmd/cmd.c): every request runs twice, a
    measuring pass and a printing pass, over a file that another task may be appending to. */
module RawStream {
  import opened Prelude
  import opened ChunkWriter

  const UNLIMITED: nat := 0xFFFF_FFFF

  /** How many bytes the first `k` reads brought. */
  function Total(gots: seq<nat>, k: nat): nat
    requires k <= |gots|
  {
    if k == 0 then 0 else Total(gots, k - 1) + gots[k - 1]
  }

  /** A pass over a file that ends up holding `content`: read number i brings `gots[i]` bytes from
      where the last one stopped, never more than are there or than the buffer holds; 0 is the end of
      the file as it then was, or a failed read. */
  predicate Reads(gots: seq<nat>, content: Bytes) {
    && |gots| == CMD_STREAM_MAX_CHUNKS + 1
    && (forall k :: 0 <= k <= |gots| ==> Total(gots, k) <= |content|)
    && (forall k :: 0 <= k < |gots| ==> gots[k] <= IO)
  }

  /** No read fails, or finds the end of the file, before `n` bytes have come. */
  predicate NoEarlyEnd(gots: seq<nat>, n: nat) {
    forall k :: 0 <= k < |gots| && Total(gots, k) < n ==> gots[k] > 0
  }

  /** Read number `k` is the first to bring nothing. */
  predicate EndsAt(gots: seq<nat>, k: nat) { k < |gots| && gots[k] == 0 && forall i :: 0 <= i < k ==> gots[i] > 0 }

  /** A pass stops at its limit, or where its reads came to an end. */
  predicate Stops(gots: seq<nat>, limit: nat, done: nat) {
    done == limit || exists k :: 0 <= k < |gots| && EndsAt(gots, k) && done == Total(gots, k)
  }

  /** The chunks of the first `n` bytes of a file from `offset` on, the checksum covering all `n`. */
  function StreamOf(f: Crc, content: Bytes, n: nat, offset: nat): seq<Chunk>
    requires n <= |content|
  {
    Whole(From(content[..n], offset), Le32(Sum(f, 0, content[..n])))
  }

  /** stream_raw's loop: the file is fed to the writer up to `limit`, the end of the file or the bound
      on reads. */
  method Pump(w: Writer, content: Bytes, gots: seq<nat>, limit: nat) returns (rc: int, done: nat)
    requires w.Valid() && w.payload == [] && Reads(gots, content)
    modifies w, w.buf
    ensures done <= limit && done <= |content|
    ensures rc == 0 ==> w.Valid() && w.payload == content[..done]
    ensures rc == 0 ==> Stops(gots, limit, done)
    ensures rc != 0 ==> w.failed || forall k :: 0 <= k < |gots| ==> gots[k] > 0
    ensures rc == 0 && limit <= |content| && NoEarlyEnd(gots, limit) ==> done == limit
  {
    hide Sum, From, Blocks, Rest, IsPrefix, ToSkip;
    done := 0;
    var chunks := 0;
    while done < limit && gots[chunks] > 0
      invariant chunks <= CMD_STREAM_MAX_CHUNKS && done <= limit && done <= |content|
      invariant done < limit ==> done == Total(gots, chunks)
      invariant w.Valid() && w.payload == content[..done]
      invariant forall k :: 0 <= k < chunks ==> gots[k] > 0
      decreases CMD_STREAM_MAX_CHUNKS - chunks
    {
      var got := gots[chunks];
      assert Total(gots, chunks + 1) <= |content|;
      chunks := chunks + 1;
      if chunks > CMD_STREAM_MAX_CHUNKS {
        return -1, done;
      }
      if got > limit - done {
        got := limit - done;
      }
      rc := Feed(w, content, done, got);
      if rc != 0 {
        return -1, done;
      }
      done := done + got;
    }
    assert done < limit ==> EndsAt(gots, chunks);
    rc := 0;
  }

  method Feed(w: Writer, content: Bytes, done: nat, got: nat) returns (rc: int)
    requires w.Valid() && done + got <= |content| && w.payload == content[..done]
    modifies w, w.buf
    ensures w.Valid() && w.payload == content[..done + got] && rc == (if w.failed then -1 else 0)
  {
    assert content[..done + got] == content[..done] + content[done..done + got];
    rc := w.Write(content[done..done + got]);
  }

  /** stream_raw once the file is open. */
  method StreamRaw(w: Writer, content: Bytes, gots: seq<nat>, limit: nat) returns (rc: int, done: nat)
    requires w.Valid() && w.payload == [] && w.tail && Reads(gots, content)
    modifies w, w.buf
    ensures done <= limit && done <= |content|
    ensures rc == 0 ==> w.sent == StreamOf(w.f, content, done, w.skip0) && Stops(gots, limit, done)
    ensures rc == 0 && limit <= |content| && NoEarlyEnd(gots, limit) ==> done == limit
  {
    rc, done := Pump(w, content, gots, limit);
    if rc == 0 {
      rc := w.Finish();
    }
  }

  datatype Memo = Memo(valid: bool, fmt: nat, id: string, offset: nat, limit: nat)

  predicate Matches(m: Memo, fmt: nat, id: string, offset: nat) {
    m.valid && m.fmt == fmt && m.offset == offset && m.id == id
  }

  class Exporter {
    var memo: Memo

    constructor ()
      ensures !memo.valid
    {
      memo := Memo(false, 0, "", 0, 0);
    }

    /** stream_by_fmt for the raw formats. A pass that matches the memo is the printing pass and stops
        where the measuring pass stopped; any pass uses the memo up, and a measuring pass that
        succeeded leaves a new one. */
    method Stream(f: Crc, id: string, fmt: nat, offset: nat, content: Bytes, gots: seq<nat>, room: Option<nat>)
      returns (rc: int, sent: seq<Chunk>, n: nat)
      requires (fmt == 3 || fmt == 4) && Reads(gots, content) && |content| < UNLIMITED
      modifies this
      ensures n <= |content| && (rc == 0 ==> sent == StreamOf(f, content, n, offset))
      ensures rc == 0 ==> Stops(gots, if old(Matches(memo, fmt, id, offset)) then old(memo.limit) else UNLIMITED, n)
      ensures var second := old(Matches(memo, fmt, id, offset));
              && (rc == 0 && second && old(memo.limit) <= |content| && NoEarlyEnd(gots, old(memo.limit)) ==> n == old(memo.limit))
              && (memo.valid <==> rc == 0 && !second)
              && (memo.valid ==> memo == Memo(true, fmt, id, offset, n))
    {
      var second := Matches(memo, fmt, id, offset);
      var limit := if second then memo.limit else UNLIMITED;
      memo := memo.(valid := false);
      var w := new Writer(f, offset, true, room);
      rc, n := StreamRaw(w, content, gots, limit);
      sent := w.sent;
      if !second && rc == 0 {
        memo := Memo(true, fmt, id, offset, n);
      }
    }
  }

  /** The two passes of one request over a file that only grows: if both succeed and the second one's
      reads do not fail, it repeats the first chunk for chunk, checksum and all. */
  method MeasureAndPrint(e: Exporter, f: Crc, id: string, fmt: nat, offset: nat,
                         content: Bytes, gots: seq<nat>, grown: Bytes, gots': seq<nat>,
                         room: Option<nat>, room': Option<nat>)
    returns (rc: int, measured: seq<Chunk>, n: nat, rc': int, printed: seq<Chunk>)
    requires (fmt == 3 || fmt == 4) && !Matches(e.memo, fmt, id, offset)
    requires content <= grown && |grown| < UNLIMITED && Reads(gots, content) && Reads(gots', grown)
    modifies e
    ensures rc == 0 ==> n <= |content| && measured == StreamOf(f, content, n, offset)
    ensures rc == 0 && rc' == 0 && NoEarlyEnd(gots', n) ==> printed == measured
  {
    rc, measured, n := e.Stream(f, id, fmt, offset, content, gots, room);
    var n';
    rc', printed, n' := e.Stream(f, id, fmt, offset, grown, gots', room');
    assert content[..n] == grown[..n];
  }

  lemma DataOfStream(f: Crc, content: Bytes, n: nat, offset: nat)
    requires n <= |content|
    ensures Data(StreamOf(f, content, n, offset)) == From(content[..n], offset) + Le32(Sum(f, 0, content[..n]))
  {
    WholeMeans(From(content[..n], offset), Le32(Sum(f, 0, content[..n])));
  }

  /** READ at `offset` sends the rest of what OPEN sends: joined to the first `offset` bytes it is the
      same bytes and the same checksum; past the end it sends the checksum alone. */
  lemma {:induction false} ReadResumes(f: Crc, content: Bytes, n: nat, offset: nat)
    requires n <= |content|
    ensures offset <= n ==> content[..offset] + Data(StreamOf(f, content, n, offset)) == Data(StreamOf(f, content, n, 0))
    ensures offset > n ==> Data(StreamOf(f, content, n, offset)) == Le32(Sum(f, 0, content[..n]))
  {
    DataOfStream(f, content, n, 0);
    DataOfStream(f, content, n, offset);
    JoinsUp(content[..n], offset, Le32(Sum(f, 0, content[..n])));
    if offset <= n {
      assert content[..n][..offset] == content[..offset];
    }
  }

  lemma JoinsUp(p: Bytes, offset: nat, t: Bytes)
    ensures offset <= |p| ==> p[..offset] + (From(p, offset) + t) == From(p, 0) + t
    ensures offset > |p| ==> From(p, offset) + t == t
  {
  }
}
