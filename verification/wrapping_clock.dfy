/** Deadlines on a millisecond clock that wraps at 32 bits. */
module WrappingClock {
  import opened Bytes

  function Wrap(t: nat): nat {
    t % TWO32
  }

  /** `(int32_t)(a - b)` for two 32-bit values. */
  function SignedDifference(a: nat, b: nat): int
    requires a < TWO32 && b < TWO32
  {
    var d := (a - b) % TWO32;
    if d > INT32_MAX then d - TWO32 else d
  }

  /** `(uint32_t)(a - b)` */
  function UnsignedDifference(a: nat, b: nat): nat
    requires a < TWO32 && b < TWO32
  {
    (a - b) % TWO32
  }

  /** The time left to a deadline, as a 32-bit clock tells it: none for 2^31 ms
      after it has passed, and then again the time to where the clock has it next. */
  function TimeLeft(deadline: nat, now: nat): nat {
    if now < deadline then deadline - now
    else
      var late := (now - deadline) % TWO32;
      if late <= 0x8000_0000 then 0 else TWO32 - late
  }

  /** A deadline less than 2^31 ms away reads exactly, and one that has passed reads
      as passed exactly for the first 2^31 ms of every turn of the clock. */
  lemma DeadlineReads(deadline: nat, now: nat)
    requires deadline <= now + INT32_MAX
    ensures var remain := SignedDifference(Wrap(deadline), Wrap(now));
            TimeLeft(deadline, now) == (if remain <= 0 then 0 else remain) && (remain <= 0 ==> deadline <= now)
    ensures now >= deadline ==>
              (SignedDifference(Wrap(deadline), Wrap(now)) <= 0 <==> (now - deadline) % TWO32 <= 0x8000_0000)
  {
    WrapDifference(deadline, now);
    if now >= deadline {
      NegativeModulo(now - deadline);
    }
  }

  lemma NegativeModulo(n: int)
    ensures (-n) % TWO32 == if n % TWO32 == 0 then 0 else TWO32 - n % TWO32
  {
    var q, r := n / TWO32, n % TWO32;
    assert -n == TWO32 * (-q - 1) + (TWO32 - r);
  }

  lemma WrapDifference(a: nat, b: nat)
    ensures (Wrap(a) - Wrap(b)) % TWO32 == (a - b) % TWO32
  {
    var qa, qb := a / TWO32, b / TWO32;
    assert a - b == Wrap(a) - Wrap(b) + TWO32 * (qa - qb);
  }

  lemma WrapSum(a: nat, b: nat)
    ensures (Wrap(a) + b) % TWO32 == Wrap(a + b)
  {
    assert a + b == Wrap(a) + b + TWO32 * (a / TWO32);
  }

  /** A 32-bit sum stands for the real one. */
  method Add(a: nat, b: nat, ghost full: nat) returns (sum: nat)
    requires a == Wrap(full)
    ensures sum == Wrap(full + b) && sum < TWO32
  {
    WrapSum(full, b);
    sum := (a + b) % TWO32;
  }

  /** An elapsed time as the program sees it is the real one without whole turns of
      the clock, and so never exceeds it. */
  lemma ElapsedReads(since: nat, now: nat)
    requires since <= now
    ensures UnsignedDifference(Wrap(now), Wrap(since)) == (now - since) % TWO32 <= now - since
  {
    WrapDifference(now, since);
  }
}
