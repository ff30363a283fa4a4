/**
 A refresh rate on its way through Android: millihertz, decimal text, binary32,
 and millihertz again. Binary32 arithmetic appears only through the relative
 error of rounding to nearest (section 4.3.1 of IEEE 754-2019).
 */
module Refresh {
  const UNIT_ROUNDOFF := 1.0 / 16777216.0
  const DOUBLE_ROUNDOFF := 1.0 / 9007199254740992.0
  const EXACT_LIMIT := 4194304

  /** `y` may be the binary32 value that stands for the positive number `x`. */
  predicate Rounded(x: real, y: real)
  {
    x - x * UNIT_ROUNDOFF <= y <= x + x * UNIT_ROUNDOFF
  }

  predicate RoundedDouble(x: real, y: real)
  {
    x - x * DOUBLE_ROUNDOFF <= y <= x + x * DOUBLE_ROUNDOFF
  }

  /** The nearest integer, halves upwards. */
  function Nearest(z: real): (n: int)
    ensures n as real - 0.5 <= z < n as real + 0.5
  {
    (z + 0.5).Floor
  }

  lemma NearestUnique(z: real, n: int)
    requires n as real - 0.5 <= z < n as real + 0.5
    ensures Nearest(z) == n
  {
  }

  /** Three decimals of the double nearest to m / 1000 are exactly those of m. */
  lemma ThousandthsPrinted(m: nat, d: real)
    requires m < 0x1_0000_0000 && RoundedDouble(Hertz(m), d)
    ensures Nearest(1000.0 * d) == m
  {
    assert m as real <= 4294967296.0;
    NearestUnique(1000.0 * d, m);
  }

  function Hertz(m: int): real
  {
    m as real / 1000.0
  }

  /** `z` may be the outcome of reading `rate` as binary32 and multiplying by 1000. */
  predicate ReadsAs(rate: real, y: real, z: real)
  {
    Rounded(rate, y) && Rounded(1000.0 * y, z)
  }

  /** Read as binary32, multiplied by 1000 and rounded, the value is the same again. */
  lemma RefreshRoundTrip(m: nat, y: real, z: real)
    requires m < EXACT_LIMIT && ReadsAs(Hertz(m), y, z)
    ensures Nearest(z) == m
  {
    assert m as real <= 4194303.0;
    NearestUnique(z, m);
  }

  /** The error bound alone does not carry further: from 2^22 millihertz on, two
      roundings within it can end at the next integer. */
  lemma RoundTripLimit(m: nat)
    requires m >= EXACT_LIMIT
    ensures exists y, z :: ReadsAs(Hertz(m), y, z) && Nearest(z) != m
  {
    var x := Hertz(m);
    var y := x + x * UNIT_ROUNDOFF;
    var z := 1000.0 * y + 1000.0 * y * UNIT_ROUNDOFF;
    assert m as real >= 4194304.0;
    assert z >= m as real + 0.5;
    assert ReadsAs(x, y, z) && Nearest(z) != m;
  }

  /** A rate that is not a whole number of millihertz is journaled as a neighbour
      less than one millihertz away, and stays there when it is read back. */
  lemma SnapshotNeighbour(rate: real, y: real, z: real)
    requires 1.0 <= rate <= 4000.0 && ReadsAs(rate, y, z)
    ensures -1.0 < Nearest(z) as real - rate * 1000.0 < 1.0
    ensures forall v, w :: ReadsAs(Hertz(Nearest(z)), v, w) ==> Nearest(w) == Nearest(z)
  {
    var m := Nearest(z);
    assert 0.0 < m as real < 4194304.0;
    forall v, w | ReadsAs(Hertz(m), v, w)
      ensures Nearest(w) == m
    {
      RefreshRoundTrip(m, v, w);
    }
  }
}
