/** Amounts are counted in paise. A paisa amount is a real number, because neither a catalogue row
    nor a stored order is guaranteed to hold a whole one. */
module Rounding {

  /** The nearest whole paisa, half up. */
  function Round2(x: real): (r: real)
    ensures x - 0.5 < r <= x + 0.5
    ensures Whole(r)
  {
    (x + 0.5).Floor as real
  }

  predicate Whole(x: real) {
    x == x.Floor as real
  }

  function Abs(x: real): real {
    if x < 0.0 then -x else x
  }

  function Max(x: real, y: real): real {
    if x < y then y else x
  }

  function Min(x: real, y: real): real {
    if x < y then x else y
  }

  /** `x` charged `q` times. */
  function Times(x: real, q: int): real {
    x * q as real
  }

  /** `pct` percent of `x`, before rounding. */
  function Percent(x: real, pct: real): real {
    x * pct / 100.0
  }

  lemma FloorIs(x: real, n: int)
    requires n as real <= x < n as real + 1.0
    ensures x.Floor == n
  {
  }

  lemma RoundWhole(x: real)
    requires Whole(x)
    ensures Round2(x) == x
  {
    FloorIs(x + 0.5, x.Floor);
  }

  lemma RoundMonotone(x: real, y: real)
    requires x <= y
    ensures Round2(x) <= Round2(y)
  {
    assert (x + 0.5).Floor <= (y + 0.5).Floor;
  }

  lemma WholeSum(x: real, y: real)
    requires Whole(x) && Whole(y)
    ensures Whole(x + y) && Whole(x - y)
  {
    var m, n := x.Floor, y.Floor;
    assert x + y == (m + n) as real;
    assert x - y == (m - n) as real;
    FloorIs(x + y, m + n);
    FloorIs(x - y, m - n);
  }

  lemma TimesAdds(x: real, y: real, q: int)
    ensures Times(x + y, q) == Times(x, q) + Times(y, q)
  {
  }

  lemma {:induction false} WholeTimes(x: real, q: int)
    requires Whole(x) && q >= 0
    ensures Whole(Times(x, q))
    decreases q
  {
    if q > 0 {
      WholeTimes(x, q - 1);
      assert Times(x, q) == Times(x, q - 1) + x;
      WholeSum(Times(x, q - 1), x);
    }
  }

  lemma TimesMonotone(x: real, y: real, q: int)
    requires x <= y && q >= 0
    ensures Times(x, q) <= Times(y, q)
  {
    assert Times(y, q) - Times(x, q) == (y - x) * q as real;
  }

  /** A percentage between nothing and all of a non-negative amount stays inside it. */
  lemma PercentWithin(x: real, pct: real)
    requires 0.0 <= x && 0.0 <= pct <= 100.0
    ensures 0.0 <= Percent(x, pct) <= x
  {
    assert x * pct >= 0.0;
    assert x * (100.0 - pct) >= 0.0;
    assert x * (100.0 - pct) == x * 100.0 - x * pct;
  }

  lemma PercentMonotone(x: real, y: real, pct: real)
    requires x <= y && 0.0 <= pct
    ensures Percent(x, pct) <= Percent(y, pct)
  {
    assert (y - x) * pct >= 0.0;
    assert (y - x) * pct == y * pct - x * pct;
  }

  lemma PercentAdds(x: real, y: real, pct: real)
    ensures Percent(x + y, pct) == Percent(x, pct) + Percent(y, pct)
    ensures Percent(x - y, pct) == Percent(x, pct) - Percent(y, pct)
  {
    assert (x + y) * pct == x * pct + y * pct;
    assert (x - y) * pct == x * pct - y * pct;
  }
}
