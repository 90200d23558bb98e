/** What each call of components/app/ota/ota.c takes to go through, and that a push which does everything
    right is applied. */
module OtaPush {
  import opened Prelude
  import opened SupPolicy
  import opened Ota

  // ---- one block ----

  /** The block declares the number of bytes already received, brings at least one, and no more than are
      still to come. */
  predicate Fits(m: Machine, p: seq<Byte>) {
    |p| > 4 && IsLe32(|m.hw.slot|, p) && |m.hw.slot| + |p| - 4 <= m.x.size
  }

  lemma FitsIsAccepted(m: Machine, b: Board, p: seq<Byte>)
    requires Receiving(m, b)
    ensures DataAccepted(m, p) <==> Fits(m, p)
  {
    if |p| >= 4 {
      RdU32LeMeans(p);
      if IsLe32(|m.hw.slot|, p) {
        Le32Unique(|m.hw.slot|, RdU32Le(p), p);
      }
    }
  }

  /** The target check is due with this block, and fails. */
  predicate TargetRefused(m: Machine, b: Board, d: DataArgs)
    requires |d.payload| > 4
  {
    var slot := m.hw.slot + d.payload[4..];
    |m.hw.slot| < 4096 <= |slot| && (!d.selfOk || !d.readOk || !TargetMatches(b, slot))
  }

  /** A block goes through exactly if it fits, can be written and does not complete the first 4096 bytes of
      an image for another unit; a block that does not fit changes nothing, and only the other two failures
      end the transfer. */
  lemma DataMeans(m: Machine, b: Board, d: DataArgs, us: nat)
    requires Quiet(m, b)
    ensures var (r, rc) := DataF(m, b, d, us);
            && (rc == Precond <==> m.st != Recv)
            && (m.st == Recv ==>
                  && (rc == Ok <==> Fits(m, d.payload) && d.writeOk && !TargetRefused(m, b, d))
                  && (rc == Ok ==> r.st == Recv && Quiet(r, b) && r.hw.slot == m.hw.slot + d.payload[4..]
                                   && r.x.size == m.x.size && r.x.shaWant == m.x.shaWant)
                  && (!Fits(m, d.payload) ==> r == m)
                  && (Fits(m, d.payload) && rc != Ok ==> r.st == Idle))
  {
    if m.st == Recv {
      FitsIsAccepted(m, b, d.payload);
      DataWriteKeepsReceiving(m.(st := Writing), b, d, us);
    }
  }

  // ---- the end ----

  /** Everything in the slot is as announced, and for this unit. */
  predicate Complete(m: Machine, b: Board) {
    |m.hw.slot| == m.x.size >= 4096 && b.sha256(m.hw.slot) == m.x.shaWant
  }

  /** An end call applies the update exactly if the transfer is complete, the battery holds, the signature is
      good and both writes succeed; otherwise it gives an open transfer up. */
  lemma EndMeans(m: Machine, b: Board, e: EndArgs, us: nat)
    requires Quiet(m, b)
    ensures var (r, rc) := EndF(m, b, e, us);
            && (rc == Precond <==> m.st != Recv || (Complete(m, b) && !e.batt))
            && (m.st == Recv ==>
                  && (rc == Ok <==>
                        Complete(m, b) && e.batt && e.endOk && b.signed(m.hw.slot) && e.flagOk && e.bootOk)
                  && (rc == HwidMismatch <==> |m.hw.slot| == m.x.size < 4096)
                  && (rc == BadSignature <==> Complete(m, b) && e.batt && (!e.endOk || !b.signed(m.hw.slot)))
                  && (if rc == Ok then r.st == Reboot && r.rebootAt == Some(us + 2000000) && r.hw.bootIsTarget && r.hw.flag
                      else r.st == Idle && r.hw.bootIsTarget == m.hw.bootIsTarget && !r.busy))
  {
    EndKeepsQuiet(m, b, e, us);
  }

  /** After an end that applied the update the reboot falls due two seconds later, and not before; any other
      end leaves none due. */
  lemma RebootFallsDue(m: Machine, b: Board, e: EndArgs, us: nat, now: nat)
    requires Quiet(m, b) && m.st == Recv
    ensures var (r, rc) := EndF(m, b, e, us); RebootDue(r, now) <==> rc == Ok && now >= us + 2000000
  {
    EndMeans(m, b, e, us);
  }

  // ---- a whole push ----

  /** A data call and its clock reading. */
  datatype Sent = Sent(d: DataArgs, us: nat)

  function Delivered(ds: seq<Sent>): seq<Byte>
    requires forall x <- ds :: |x.d.payload| > 4
  {
    if ds == [] then [] else Delivered(ds[..|ds| - 1]) + ds[|ds| - 1].d.payload[4..]
  }

  /** Blocks in order, each declaring how much came before it, with every storage call succeeding. */
  predicate InSequence(ds: seq<Sent>) {
    && (forall x <- ds :: |x.d.payload| > 4 && x.d.writeOk && x.d.selfOk && x.d.readOk)
    && forall i :: 0 <= i < |ds| ==> IsLe32(|Delivered(ds[..i])|, ds[i].d.payload)
  }

  function DataAll(m: Machine, b: Board, ds: seq<Sent>): Machine
    decreases |ds|
  {
    if ds == [] then m
    else var x := ds[|ds| - 1]; DataF(DataAll(m, b, ds[..|ds| - 1]), b, x.d, x.us).0
  }

  /** The first 4096 bytes decide the target check. */
  lemma PrefixMatches(b: Board, part: seq<Byte>, image: seq<Byte>)
    requires TargetMatches(b, image) && 4096 <= |part| <= |image| && part == image[..|part|]
    ensures TargetMatches(b, part)
  {
    assert part[IMG_DESC_OFF..IMG_HWID_OFF] == image[IMG_DESC_OFF..IMG_HWID_OFF];
    assert part[IMG_HWID_OFF..IMG_HWID_OFF + HWID_LEN] == image[IMG_HWID_OFF..IMG_HWID_OFF + HWID_LEN];
  }

  lemma {:induction false} BlocksArrive(m: Machine, b: Board, ds: seq<Sent>, image: seq<Byte>)
    requires Quiet(m, b) && m.st == Recv && m.hw.slot == [] && InSequence(ds)
    requires |Delivered(ds)| <= m.x.size && |Delivered(ds)| <= |image| && Delivered(ds) == image[..|Delivered(ds)|]
    requires TargetMatches(b, image)
    ensures var r := DataAll(m, b, ds);
            && r.st == Recv && Quiet(r, b) && r.hw.slot == Delivered(ds)
            && r.x.size == m.x.size && r.x.shaWant == m.x.shaWant
    decreases |ds|
  {
    if ds != [] {
      var most, x := ds[..|ds| - 1], ds[|ds| - 1];
      MostInSequence(ds);
      var before, all := Delivered(most), Delivered(ds);
      assert before == all[..|before|] == image[..|before|];
      BlocksArrive(m, b, most, image);
      var r := DataAll(m, b, most);
      if |all| >= 4096 {
        PrefixMatches(b, all, image);
      }
      DataMeans(r, b, x.d, x.us);
    }
  }

  lemma MostInSequence(ds: seq<Sent>)
    requires InSequence(ds) && ds != []
    ensures InSequence(ds[..|ds| - 1])
  {
    var most := ds[..|ds| - 1];
    assert forall x <- most :: x in ds;
    forall i | 0 <= i < |most| ensures IsLe32(|Delivered(most[..i])|, most[i].d.payload) {
      assert most[..i] == ds[..i];
    }
  }

  /** A begin command for `image`: its size, its hash, this unit's hardware id. */
  predicate BeginFor(a: BeginArgs, b: Board, image: seq<Byte>) {
    && |a.payload| >= 76 && IsLe32(|image|, a.payload) && a.payload[4..36] == b.sha256(image)
    && a.payload[52..76] == b.hwid && |image| <= OTA_MAX_IMG_BYTES
  }

  /** A push that does everything right is applied, however its image is cut into blocks: begun on an idle
      machine with every precondition met, the image's blocks in order, a good signature, every storage
      call succeeding. The slot then holds exactly the image. */
  lemma GoodPushIsApplied(m: Machine, b: Board, a: BeginArgs, start: nat, ds: seq<Sent>, e: EndArgs, us: nat)
    requires Quiet(m, b) && m.st == Idle && InSequence(ds)
    requires var image := Delivered(ds); BeginFor(a, b, image) && TargetMatches(b, image) && b.signed(image)
    requires a.stillMs >= OTA_STILL_MIN_MS && a.batt && !a.slotPending && a.closeAcked && a.targetFound && a.eraseOk
    requires e.batt && e.endOk && e.flagOk && e.bootOk
    ensures var open := BeginF(m, b, a, start);
            var full := DataAll(open.0, b, ds);
            var done := EndF(full, b, e, us);
            open.1 == Ok && full.hw.slot == Delivered(ds) && done.1 == Ok && done.0.st == Reboot && done.0.hw.slot == Delivered(ds)
  {
    var image := Delivered(ds);
    var open := BeginF(m, b, a, start).0;
    BeginMeans(m, b, a, start);
    BeginKeepsQuiet(m, b, a, start);
    assert IsLe32(|image|, a.payload);
    Le32Unique(|image|, open.x.size, a.payload);
    assert image[..|image|] == image;
    BlocksArrive(open, b, ds, image);
    var full := DataAll(open, b, ds);
    EndMeans(full, b, e, us);
    EndKeepsQuiet(full, b, e, us);
  }
}
