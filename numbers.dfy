/** Python's numeric conversions on reals: `int(x)` on a float, which
    truncates toward zero, and `round(x, places)`. */
module Numbers {

  function Pow10(n: nat): (r: nat)
    ensures r >= 1
  {
    if n == 0 then 1 else 10 * Pow10(n - 1)
  }

  /** Python's `int(x)` for a float `x`: the integer part, truncated toward zero. */
  function Trunc(x: real): (r: int)
    ensures 0.0 <= x ==> 0 <= r && r as real <= x < r as real + 1.0
    ensures x < 0.0 ==> r <= 0 && r as real - 1.0 < x <= r as real
  {
    if x >= 0.0 then x.Floor else -((-x).Floor)
  }

  /** `x` scaled to units of 10^-places and rounded to the nearest unit, ties upward. */
  function Units(x: real, places: nat): int {
    (x * Pow10(places) as real + 0.5).Floor
  }

  /** `round(x, places)`: the multiple of 10^-places nearest to `x`, ties upward. */
  function Round(x: real, places: nat): real {
    Units(x, places) as real / Pow10(places) as real
  }

  /** Rounding moves a value by at most half a unit of the last place. */
  lemma RoundClose(x: real, places: nat)
    ensures x - 0.5 / Pow10(places) as real < Round(x, places) <= x + 0.5 / Pow10(places) as real
  {
    ScaledBounds(x, Pow10(places) as real, Units(x, places));
  }

  lemma ScaledBounds(x: real, m: real, f: int)
    requires m >= 1.0 && f == (x * m + 0.5).Floor
    ensures x - 0.5 / m < f as real / m <= x + 0.5 / m
  {
    assert f as real <= x * m + 0.5 < f as real + 1.0;
    assert f as real / m <= (x * m + 0.5) / m;
    assert (x * m + 0.5) / m == x + 0.5 / m;
    assert (f as real + 1.0) / m > (x * m + 0.5) / m;
    assert (f as real + 1.0) / m == f as real / m + 1.0 / m;
  }

  lemma MulMonotone(x: real, y: real, m: real)
    requires x <= y && m >= 0.0
    ensures x * m <= y * m
  {
    assert y * m - x * m == (y - x) * m;
  }

  lemma DivMonotone(a: real, b: real, m: real)
    requires a <= b && m > 0.0
    ensures a / m <= b / m
  {
    assert b / m - a / m == (b - a) / m;
  }

  lemma {:induction false} RoundMonotone(x: real, y: real, places: nat)
    requires x <= y
    ensures Round(x, places) <= Round(y, places)
  {
    var m := Pow10(places) as real;
    MulMonotone(x, y, m);
    assert Units(x, places) <= Units(y, places);
    DivMonotone(Units(x, places) as real, Units(y, places) as real, m);
  }

  lemma RoundNonNegative(x: real, places: nat)
    requires x >= 0.0
    ensures Round(x, places) >= 0.0
  {
    var m := Pow10(places) as real;
    MulMonotone(0.0, x, m);
    DivMonotone(0.0, Units(x, places) as real, m);
  }

  /** Rounding an already rounded value changes nothing. */
  lemma {:induction false} RoundIdempotent(x: real, places: nat)
    ensures Round(Round(x, places), places) == Round(x, places)
  {
    var m := Pow10(places) as real;
    var f := Units(x, places);
    var r := Round(x, places);
    assert r == f as real / m;
    DivTimes(f as real, m);
    assert Units(r, places) == f;
  }

  lemma DivTimes(a: real, m: real)
    requires m > 0.0
    ensures (a / m) * m == a
  {
  }
}
