/** The default retry delay of the job queue, in 64-bit arithmetic (queue/queue.go). */
module Backoff {
  import opened GoTypes
  import opened Powers

  /** 1 << k on a 64-bit integer. */
  function ShiftOne(k: nat): int { if k >= 64 then 0 else Wrap(Pow2(k)) }

  /** The delay before the next try, in nanoseconds, after `attempts` tries; without any the shift is
      out of range and gives zero. */
  function Delay(attempts: nat): int {
    var d := Wrap(SECOND * ShiftOne(if attempts == 0 then 64 else attempts - 1));
    if d > 30 * SECOND then 30 * SECOND else d
  }

  lemma Pow2Values()
    ensures Pow2(5) == 32 && Pow2(33) == 8_589_934_592 && Pow2(34) == 17_179_869_184
  {
    Pow2Of16();
    Pow2Of32();
    assert Pow2(33) == 2 * Pow2(32);
  }

  /** Up to the 34th failure the delay is 2^(attempts-1) seconds, capped at 30. */
  lemma DelayExact(attempts: nat)
    requires 1 <= attempts <= 34
    ensures Delay(attempts) == if attempts <= 5 then SECOND * Pow2(attempts - 1) else 30 * SECOND
    ensures SECOND <= Delay(attempts) <= 30 * SECOND
  {
    var k := attempts - 1;
    Pow2Values();
    Pow2Monotone(k, 33);
    Pow2Monotone(0, k);
    assert ShiftOne(k) == Pow2(k);
    if attempts <= 5 {
      Pow2Monotone(k, 4);
      assert Pow2(5) == 2 * Pow2(4);
    } else {
      Pow2Monotone(5, k);
    }
  }

  /** Delays never shrink from one failure to the next. */
  lemma DelayNonDecreasing(a: nat, b: nat)
    requires 1 <= a <= b <= 34
    ensures Delay(a) <= Delay(b)
  {
    DelayExact(a);
    DelayExact(b);
    if b <= 5 { Pow2Monotone(a - 1, b - 1); }
  }

  ghost predicate InRange(d: int) { SECOND <= d <= 30 * SECOND }

  /** All retry delays of a job lie between one and thirty seconds exactly if it is
      allowed at most 35 tries: the 35th failure overflows to a negative delay. */
  lemma DelaysInRangeIff(maxTries: nat)
    ensures (forall a :: 1 <= a < maxTries ==> InRange(Delay(a))) <==> maxTries <= 35
  {
    if maxTries <= 35 {
      forall a | 1 <= a < maxTries ensures InRange(Delay(a)) { DelayExact(a); }
    } else {
      Pow2Values();
      assert ShiftOne(34) == 17_179_869_184;
      assert Delay(35) < 0;
      assert !InRange(Delay(35));
    }
  }
}
