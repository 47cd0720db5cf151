/**
 The index of a percentile is `Math.floor(length * 0.95)` in binary floating point. Neither 0.95 nor 0.99 is a
 binary64 number and the product is rounded, but the index is that of the exact arithmetic.
*/
module FloatIndex {
  const TWO_TO_THE_53 := 9007199254740992.0

  /** The binary64 numbers nearest to 0.95 and 0.99. */
  const LITERAL_95 := 8556839292003942.0 / TWO_TO_THE_53
  const LITERAL_99 := 8917127262193582.0 / TWO_TO_THE_53

  /**
   What rounding to the nearest binary64 number does to numbers of at least a half: the relative error is at
   most 2^-53, and what is closer to an integer below 2^53 than half the distance to the next number becomes
   that integer.
  */
  ghost predicate Rounds(round: real -> real) {
    && (forall x: real :: x >= 0.5 ==> x - x / TWO_TO_THE_53 <= round(x) <= x + x / TWO_TO_THE_53)
    && (forall x: real, n: nat :: 0 < n && n as real < TWO_TO_THE_53 && Near(x, n) ==> round(x) == n as real)
  }

  /** Closer than half the distance from `n` to its neighbours. */
  predicate Near(x: real, n: nat) {
    && (n as real - x) * 2.0 * TWO_TO_THE_53 < n as real
    && (x - n as real) * 2.0 * TWO_TO_THE_53 < n as real
  }

  /** A product just below `hundredths / 100` is rounded to a number with the same integral part. */
  lemma FloorOfRounded(round: real -> real, x: real, hundredths: nat)
    requires Rounds(round) && 95 <= hundredths <= 1759218604441600
    requires var exact := hundredths as real / 100.0;
             x <= exact && (exact - x) * 2.0 * TWO_TO_THE_53 < exact
    ensures round(x).Floor == hundredths / 100
  {
    var exact, q := hundredths as real / 100.0, hundredths / 100;
    assert hundredths == 100 * q + hundredths % 100;
    assert x >= 0.5 && x - x / TWO_TO_THE_53 <= round(x) <= x + x / TWO_TO_THE_53;
    if hundredths % 100 == 0 {
      assert exact == q as real && Near(x, q);
    } else {
      assert q as real + 0.01 <= exact <= q as real + 0.99;
      assert x > q as real + 0.009;
      assert x / TWO_TO_THE_53 < 0.005;
    }
  }

  /** The index of the 95th percentile among `k` values. */
  lemma IndexOf95IsExact(round: real -> real, k: nat)
    requires Rounds(round) && 1 <= k <= 17592186044416
    ensures round(k as real * LITERAL_95).Floor == k * 95 / 100
  {
    FloorOfRounded(round, k as real * LITERAL_95, k * 95);
  }

  /** The index of the 99th percentile among `k` values. */
  lemma IndexOf99IsExact(round: real -> real, k: nat)
    requires Rounds(round) && 1 <= k <= 17592186044416
    ensures round(k as real * LITERAL_99).Floor == k * 99 / 100
  {
    FloorOfRounded(round, k as real * LITERAL_99, k * 99);
  }
}
