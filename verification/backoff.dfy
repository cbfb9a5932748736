/** The capped doubling shared by both stream clients: after a failed attempt
    the delay `d` becomes `min(2d, max)`, and a successful connection puts it
    back to the base delay.
 */
module Backoff {
  import Int32

  function Min(a: int, b: int): int {
    if a <= b then a else b
  }

  function Pow2(k: nat): (p: nat)
    ensures p >= 1
  {
    if k == 0 then 1 else 2 * Pow2(k - 1)
  }

  /** `Math.min(d * 2, max)` over unbounded integers. */
  function Next(d: nat, max: nat): (r: nat)
    ensures r <= max && r <= 2 * d
    ensures r == max || r == 2 * d
    ensures d <= max ==> d <= r
  {
    if 2 * d <= max then 2 * d else max
  }

  /** The delay after `k` failures in a row, starting from `base`. */
  function After(base: nat, max: nat, k: nat): nat {
    if k == 0 then base else Next(After(base, max, k - 1), max)
  }

  /** Once inside `[base, max]`, the delay never leaves it. */
  lemma {:induction false} AfterStaysInRange(base: nat, max: nat, k: nat)
    requires base <= max
    ensures base <= After(base, max, k) <= max
  {
    if k > 0 {
      AfterStaysInRange(base, max, k - 1);
    }
  }

  /** Closed form: after `k` failures the delay is `min(base * 2^k, max)`. */
  lemma {:induction false} AfterClosedForm(base: nat, max: nat, k: nat)
    requires base <= max
    ensures After(base, max, k) == Min(base * Pow2(k), max)
  {
    if k > 0 {
      AfterClosedForm(base, max, k - 1);
      var p := Pow2(k - 1);
      var q := base * p;
      assert base * Pow2(k) == 2 * q by {
        assert Pow2(k) == 2 * p;
        assert base * (2 * p) == 2 * (base * p);
      }
      assert After(base, max, k) == Next(Min(q, max), max);
    }
  }

  /** Counting the first doubling into the start value: `k + 1` failures
      from `base` are `k` failures from `Next(base)`. */
  lemma {:induction false} AfterShift(base: nat, max: nat, k: nat)
    ensures After(Next(base, max), max, k) == After(base, max, k + 1)
  {
    if k > 0 {
      AfterShift(base, max, k - 1);
    }
  }

  // ---------------------------------------------------------------------
  // The doubling as written with Java `int`s (AtomicInteger in the
  // openfeature stream client).
  // ---------------------------------------------------------------------

  /** `Math.min(d * 2, max)` where `d * 2` is a 32-bit multiplication. */
  function NextInt32(d: Int32.int32, max: Int32.int32): (r: Int32.int32)
    ensures r <= max
    ensures 0 <= d && 2 * d <= Int32.MAX && 0 <= max ==> r == Next(d, max)
  {
    Min(Int32.Wrap(d * 2), max)
  }

  /** When the maximum is 2^30 ms or more, the doubled delay can wrap to a
      negative number, which `Thread.sleep` rejects with
      IllegalArgumentException; that exception is not caught inside the
      connection loop. */
  lemma NextInt32WrapsNegative()
    ensures NextInt32(0x4000_0000, Int32.MAX) == Int32.MIN
    ensures Next(0x4000_0000, Int32.MAX) == Int32.MAX
  {
  }

  /** The wrap is reachable from the default base delay of 1000 ms with a
      maximum of `Integer.MAX_VALUE`: after 21 failures the delay is
      2,097,152,000 ms and the 22nd doubling yields -100,663,296. */
  lemma DefaultBaseReachesWrap()
    ensures After(1000, Int32.MAX, 21) == 2_097_152_000
    ensures NextInt32(2_097_152_000, Int32.MAX) == -100_663_296
  {
    AfterClosedForm(1000, Int32.MAX, 21);
    assert Pow2(5) == 32;
    assert Pow2(10) == 1024;
    assert Pow2(15) == 32768;
    assert Pow2(20) == 1048576;
    assert Pow2(21) == 2097152;
  }
}
