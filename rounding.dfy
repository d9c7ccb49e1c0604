/**
 * The machine's `truncate` helper: round half-up to a number of decimal
 * places by scaling, adding one half, taking the floor and scaling back.
 * Modelled over exact reals; the float artefacts it was written to hide are
 * not part of this model.
 */
module Rounding {

  function Pow10(decimals: nat): (p: nat)
    ensures p >= 1
  {
    if decimals == 0 then 1 else 10 * Pow10(decimals - 1)
  }

  /** The scale factor 10^decimals as a real. */
  function Scale(decimals: nat): (m: real)
    ensures m >= 1.0
  {
    Pow10(decimals) as real
  }

  /** The whole number of units 1 / 10^decimals that `n` rounds to. */
  function RoundedUnits(n: real, decimals: nat): (k: int) {
    (n * Scale(decimals) + 0.5).Floor
  }

  /** floor(n * 10^decimals + 1/2) / 10^decimals. */
  function Truncate(n: real, decimals: nat): (t: real) {
    RoundedUnits(n, decimals) as real / Scale(decimals)
  }

  /** A multiple of 1 / m rounds to itself. */
  lemma RoundAtScaleFixesGrid(k: int, m: real)
    requires m >= 1.0
    ensures ((k as real / m) * m + 0.5).Floor == k
  {
  }

  /**
   * Truncate rounds to the nearest grid point, ties going up: the result is
   * a whole number of units 1 / 10^decimals and lies in the half-open
   * interval (n - half, n + half], where half is half such a unit.
   */
  lemma TruncateRounds(n: real, decimals: nat)
    ensures Truncate(n, decimals) * Scale(decimals) == RoundedUnits(n, decimals) as real
    ensures n - 0.5 / Scale(decimals) < Truncate(n, decimals) <= n + 0.5 / Scale(decimals)
  {
  }

  /** A value already a whole number of units is left alone. */
  lemma TruncateFixesGrid(k: int, decimals: nat)
    ensures Truncate(k as real / Scale(decimals), decimals) == k as real / Scale(decimals)
  {
    var n := k as real / Scale(decimals);
    RoundAtScaleFixesGrid(k, Scale(decimals));
    assert RoundedUnits(n, decimals) == k;
  }

  /** Rounding twice is rounding once. */
  lemma TruncateIdempotent(n: real, decimals: nat)
    ensures Truncate(Truncate(n, decimals), decimals) == Truncate(n, decimals)
  {
    TruncateFixesGrid(RoundedUnits(n, decimals), decimals);
  }

  /**
   * A whole number of cents, written in units of 1.00, is unchanged by
   * two-decimal rounding: the machine's change arithmetic, done in cents,
   * never needs a rounding step.
   */
  lemma TruncateWholeCents(cents: int)
    ensures Truncate(cents as real / 100.0, 2) == cents as real / 100.0
  {
    assert Scale(2) == 100.0;
    TruncateFixesGrid(cents, 2);
  }

  /** Ties go up, not to even, also below zero. */
  lemma TruncateHalfUp()
    ensures Truncate(0.375, 2) == 0.38
    ensures Truncate(0.125, 2) == 0.13
    ensures Truncate(-0.125, 2) == -0.12
  {
  }
}
