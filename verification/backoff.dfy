/** The delay before a reconnect: 64-bit arithmetic, an up-only jitter and one
    clamp at the end (src/sse_client.c, fail_conn and prng_next). */
module Backoff {
  import opened Bytes

  newtype uint64 = x: int | 0 <= x < 0x1_0000_0000_0000_0000

  type uint32 = x: int | 0 <= x < 0x1_0000_0000
  type int32 = x: int | -0x8000_0000 <= x < 0x8000_0000
  type uint8 = x: int | 0 <= x < 256

  /** Doubling stops after this many failures. */
  const MAX_SHIFT: nat := 15

  function Pow2(n: nat): (p: nat)
    ensures p >= 1
  {
    if n == 0 then 1 else 2 * Pow2(n - 1)
  }

  lemma {:induction false} Pow2Grows(m: nat, n: nat)
    requires m <= n
    ensures Pow2(m) <= Pow2(n)
    decreases n
  {
    if m < n {
      Pow2Grows(m, n - 1);
    }
  }

  /** The delay before jitter: Retry-After in seconds, else the flat interval,
      else exponential backoff up to the cap. */
  function Nominal(base: nat, cap: nat, attempts: nat, retryAfter: int): nat {
    if retryAfter >= 0 then retryAfter * 1000
    else if cap == 0 then base
    else Min(base * Pow2(Doublings(attempts)), cap)
  }

  /** The law of the announced delay, for a nominal delay `d`. */
  predicate Announced(d: nat, jitter: nat, delay: nat) {
    && Min(d, INT32_MAX) <= delay <= Min(d + d * jitter / 100, INT32_MAX)
  }

  lemma MulGrows(a: nat, b: nat, c: nat)
    requires b <= c
    ensures a * b <= a * c
  {
    assert a * c == a * b + a * (c - b);
  }

  lemma JitterBound(d: nat, k: nat, jitter: nat)
    requires k <= jitter
    ensures d * k <= d * jitter && d * k / 100 <= d * jitter / 100
  {
    MulGrows(d, k, jitter);
  }

  /** With no jitter the delay is the nominal one, clamped. */
  lemma WithoutJitter(d: nat, delay: nat)
    ensures Announced(d, 0, delay) <==> delay == Min(d, INT32_MAX)
  {
    assert d * 0 / 100 == 0;
  }

  /** How often the delay has been doubled after so many failures. */
  function Doublings(attempts: nat): nat {
    Min(attempts, MAX_SHIFT)
  }

  /** More doublings would not make the delay longer. */
  predicate Flat(base: nat, cap: nat, attempts: nat) {
    cap == 0 || base == 0 || base * Pow2(Doublings(attempts)) >= Min(cap, INT32_MAX)
  }

  lemma {:induction false} Pow2GrowsStrictly(m: nat, n: nat)
    requires m < n
    ensures Pow2(m) < Pow2(n)
  {
    Pow2Grows(m, n - 1);
  }

  lemma MulGrowsStrictly(a: nat, b: nat, c: nat)
    requires a > 0 && b < c
    ensures a * b < a * c
  {
    MulGrows(a, b + 1, c);
    assert a * (b + 1) == a * b + a;
  }

  /** Without Retry-After the clamped delay is not shorter after `n` failures than
      after `m` exactly when it has not been doubled less often, or when doubling
      has no more effect. */
  lemma BackoffGrowsExactly(base: nat, cap: nat, m: nat, n: nat, r: int, s: int)
    requires r < 0 && s < 0
    ensures Min(Nominal(base, cap, m, r), INT32_MAX) <= Min(Nominal(base, cap, n, s), INT32_MAX) <==>
            Doublings(m) <= Doublings(n) || Flat(base, cap, n)
  {
    var p, q := Pow2(Doublings(m)), Pow2(Doublings(n));
    if Doublings(m) <= Doublings(n) {
      Pow2Grows(Doublings(m), Doublings(n));
      MulGrows(base, p, q);
    } else {
      Pow2GrowsStrictly(Doublings(n), Doublings(m));
      if base == 0 {
        assert base * p == 0 && base * q == 0;
      } else {
        MulGrowsStrictly(base, q, p);
      }
    }
  }

  /** Doubling, in numbers: without Retry-After the first delay is the base, each of
      the next fifteen is twice the one before, cut off at the cap, and then it stays. */
  lemma NominalDoubles(base: nat, cap: nat, n: nat, r: int)
    requires r < 0
    ensures cap == 0 ==> Nominal(base, cap, n, r) == base
    ensures cap > 0 ==> Nominal(base, cap, 0, r) == Min(base, cap)
    ensures cap > 0 && n < 15 ==> Nominal(base, cap, n + 1, r) == Min(2 * Nominal(base, cap, n, r), cap)
    ensures n >= 15 ==> Nominal(base, cap, n, r) == Nominal(base, cap, 15, r)
  {
    assert base * Pow2(0) == base;
    if cap > 0 && n < 15 {
      var p := Pow2(n);
      assert Pow2(n + 1) == 2 * p;
      assert base * (2 * p) == 2 * (base * p);
    }
  }

  /** A Retry-After in seconds fixes the delay in milliseconds. */
  lemma RetryAfterDelay(base: nat, cap: nat, n: nat, r: int)
    requires r >= 0
    ensures Nominal(base, cap, n, r) == r * 1000
  {
  }

  lemma ShiftFits(base: uint32, sh: nat)
    requires sh <= MAX_SHIFT
    ensures base * Pow2(sh) <= base * 0x8000
  {
    Pow2Grows(sh, MAX_SHIFT);
    assert Pow2(15) == 0x8000;
    MulGrows(base, Pow2(sh), 0x8000);
  }

  /** `base << sh` in 64 bits */
  method Shifted(base: uint32, sh: nat) returns (d: uint64)
    requires sh <= MAX_SHIFT
    ensures d as nat == base * Pow2(sh)
  {
    ShiftFits(base, sh);
    hide Pow2;
    var product: nat := base * Pow2(sh);
    d := product as uint64;
  }

  method NominalDelay(base: uint32, cap: uint32, attempts: uint32, retryAfter: int32) returns (delay64: uint64)
    ensures delay64 as nat == Nominal(base, cap, attempts, retryAfter) <= 0x7FFF_FFFF * 1000
  {
    hide Pow2;
    if retryAfter >= 0 {
      delay64 := retryAfter as uint64 * 1000;
    } else if cap == 0 {
      delay64 := base as uint64;
    } else {
      var sh := if attempts > MAX_SHIFT then MAX_SHIFT else attempts;
      var d := Shifted(base, sh);
      delay64 := if d > cap as uint64 then cap as uint64 else d;
    }
  }

  method PercentOf(nominal: uint64, share: nat) returns (extra: uint64)
    requires nominal as nat <= 0x7FFF_FFFF * 1000 && share <= 255
    ensures extra as nat == nominal as nat * share / 100
  {
    MulGrows(nominal as nat, share, 255);
    assert nominal as nat * share >= 0;
    extra := (nominal * share as uint64) / 100;
  }

  method AddJitter(nominal: uint64, jitter: uint8, random: nat) returns (delay64: uint64)
    requires nominal as nat <= 0x7FFF_FFFF * 1000
    ensures delay64 as nat == nominal as nat + nominal as nat * (random % (jitter + 1)) / 100
    ensures nominal <= delay64 && delay64 as nat <= nominal as nat + nominal as nat * jitter / 100
  {
    var share := random % (jitter + 1);
    var extra := PercentOf(nominal, share);
    JitterBound(nominal as nat, share, jitter);
    JitterBound(nominal as nat, jitter, 255);
    delay64 := nominal + extra;
  }

  /** No step overflows 64 bits, for any remotely supplied value. */
  method Delay(base: uint32, cap: uint32, jitter: uint8, attempts: uint32, retryAfter: int32, random: nat)
    returns (delay: uint32)
    ensures var d := Nominal(base, cap, attempts, retryAfter);
            && Announced(d, jitter, delay)
            && delay == Min(d + d * (random % (jitter + 1)) / 100, 2147483647)
  {
    var delay64 := NominalDelay(base, cap, attempts, retryAfter);
    if jitter != 0 {
      delay64 := AddJitter(delay64, jitter, random);
    } else {
      WithoutJitter(delay64 as nat, Min(delay64 as nat, INT32_MAX));
    }
    delay := if delay64 > INT32_MAX as uint64 then INT32_MAX else delay64 as uint32;
  }

  // ---- the jitter's random source ----

  function XorShift(x: bv32): bv32 {
    var a := x ^ (x << 13);
    var b := a ^ (a >> 17);
    b ^ (b << 5)
  }

  /** Two of its values, which its three shifts alone give. */
  lemma XorShiftValues()
    ensures XorShift(1) == 0x0004_2021
    ensures XorShift(0x0002_0000) == 0x4046_2021
  {
  }

  /** The generator's first state, from the clock. */
  method Seed(now: uint32) returns (x: bv32)
    ensures var mixed := (now as bv32) ^ 0xA5A5A5A5;
            x == (if mixed == 0 then 1 else mixed) != 0
  {
    x := (now as bv32) ^ 0xA5A5A5A5;
    if x == 0 {
      x := 1;
    }
  }

  method Draw(x: bv32) returns (next: bv32)
    requires x != 0
    ensures next == XorShift(x) != 0
  {
    XorShiftNeverZero(x);
    next := XorShift(x);
    if next == 0 {
      next := FALLBACK;
    }
  }

  const FALLBACK: bv32 := 0x9e3779b9

  /** The generator never reaches zero, where it would stay. */
  lemma XorShiftNeverZero(x: bv32)
    requires x != 0
    ensures XorShift(x) != 0
  {
    var a := x ^ (x << 13);
    assert a != 0;
    var b := a ^ (a >> 17);
    assert b != 0;
  }
}
