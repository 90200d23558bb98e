/** components/app/sys/sup_policy.c: the hardware-independent OTA decisions. */
module SupPolicy {
  import opened Prelude

  const OTA_MAX_IMG_BYTES: nat := 0x140000 - 4096
  const OTA_STILL_MIN_MS: nat := 30000

  datatype Verdict = PreOk | PreRefuse | PreCloseSession | PreClearStale
  datatype Why = WhyNone | WhyInFlight | WhySize | WhyStill | WhyBatt | WhySlotPending | WhyLen | WhyClose

  datatype Preconditions = Preconditions(
    stillMs: U32, size: U32, inFlight: bool, sessionOpen: bool,
    battOk: bool, flagPending: bool, slotPendingVerify: bool)

  /** The first failing cheap precondition, in the order the source tests them. */
  function RefusalReason(p: Preconditions): (w: Why)
  {
    if p.inFlight then WhyInFlight
    else if p.size == 0 || p.size > OTA_MAX_IMG_BYTES then WhySize
    else if p.stillMs < OTA_STILL_MIN_MS then WhyStill
    else if !p.battOk then WhyBatt
    else if p.slotPendingVerify then WhySlotPending
    else WhyNone
  }

  function OtaPrecondEval(p: Preconditions): (r: (Verdict, Why))
  {
    var why := RefusalReason(p);
    if why != WhyNone then (PreRefuse, why)
    else if p.sessionOpen then (PreCloseSession, WhyNone)
    else if p.flagPending then (PreClearStale, WhyNone)
    else (PreOk, WhyNone)
  }

  /** The persisted pending flag never decides between refusing and going ahead: two pushes that
      differ only in it are both refused, for the same reason, or both let through. */
  lemma FlagAloneNeverRefuses(p: Preconditions)
    ensures (OtaPrecondEval(p.(flagPending := true)).0 == PreRefuse) <==>
            (OtaPrecondEval(p.(flagPending := false)).0 == PreRefuse)
    ensures OtaPrecondEval(p.(flagPending := true)).1 == OtaPrecondEval(p.(flagPending := false)).1
    ensures OtaPrecondEval(p).0 == PreRefuse <==>
              (p.inFlight || p.size == 0 || p.size > OTA_MAX_IMG_BYTES || p.stillMs < OTA_STILL_MIN_MS
               || !p.battOk || p.slotPendingVerify)
  {
  }

  /** Closing the rider's session is asked for only when nothing else would refuse the push, and
      the evaluation after a close that was acknowledged can only let the push through. */
  lemma CloseIsAskedForLast(p: Preconditions)
    ensures OtaPrecondEval(p).0 == PreCloseSession ==>
              OtaPrecondEval(p.(sessionOpen := false)).0 in {PreOk, PreClearStale}
    ensures OtaPrecondEval(p).0 == PreRefuse ==>
              OtaPrecondEval(p.(sessionOpen := false)) == OtaPrecondEval(p)
  {
  }

  /** Receive timeout on wrapping millisecond stamps. A zero timeout disables it, and a timeout
      whose millisecond value would not fit 32 bits is refused by the source's own guard. */
  function OtaRecvStale(nowMs: U32, lastMs: U32, timeoutS: U32): (r: bool)
  {
    if timeoutS == 0 || timeoutS > 4000000 then false
    else (nowMs as int - lastMs as int) % TWO_32 >= timeoutS * 1000
  }

  /** The stamp arithmetic is modulo 2^32: with true clocks `now >= last` the answer is the true
      age reduced modulo 2^32, so a stamp younger than the limit is never stale. */
  lemma StaleMeansOld(now: nat, last: nat, timeoutS: U32)
    requires last <= now
    requires 0 < timeoutS <= 4000000
    ensures OtaRecvStale(now % TWO_32, last % TWO_32, timeoutS) <==>
              (now - last) % TWO_32 >= timeoutS * 1000
    ensures OtaRecvStale(now % TWO_32, last % TWO_32, timeoutS) ==> now - last >= timeoutS * 1000
    ensures now - last < TWO_32 && now - last >= timeoutS * 1000 ==>
              OtaRecvStale(now % TWO_32, last % TWO_32, timeoutS)
  {
    var a, b := now / TWO_32, last / TWO_32;
    assert now == a * TWO_32 + now % TWO_32;
    assert last == b * TWO_32 + last % TWO_32;
    var d := (now % TWO_32) as int - (last % TWO_32) as int;
    assert now - last == d + (a - b) * TWO_32;
    ModShift(d, a - b);
  }

  /** A limit of zero, or one whose milliseconds would not fit the stamps, never makes anything stale. */
  lemma NoLimitIsNeverStale(now: U32, last: U32, timeoutS: U32)
    ensures timeoutS == 0 || timeoutS > 4000000 ==> !OtaRecvStale(now, last, timeoutS)
    ensures 0 < timeoutS <= 4000000 ==> (OtaRecvStale(now, last, timeoutS) <==>
              (if now >= last then now - last else now - last + TWO_32) >= timeoutS * 1000)
  {
  }

  lemma ModShift(x: int, k: int)
    ensures (x + k * TWO_32) % TWO_32 == x % TWO_32
  {
    var q, r := x / TWO_32, x % TWO_32;
    assert x + k * TWO_32 == (q + k) * TWO_32 + r;
    assert (x + k * TWO_32) / TWO_32 == q + k;
  }
}
