/** Rounding to a multiple of an increment, as `round_to` does it. */
module Rounding {

  /** C `round`: to the nearest integer, halves away from zero. */
  function Round(x: real): (n: int)
    ensures -0.5 <= n as real - x <= 0.5
  {
    if x >= 0.0 then (x + 0.5).Floor else -((-x + 0.5).Floor)
  }

  function RoundTo(value: real, target: real): real
    requires target > 0.0
  {
    Times(Round(value / target) as real, target)
  }

  /** The same for whole lots. */
  function RoundLots(volume: int, lot: int): int
    requires lot > 0
  {
    Round(volume as real / lot as real) * lot
  }

  // Products are kept apart from the linear arithmetic around them.
  function Times(a: real, b: real): real { a * b }

  /** The result is within half an increment of the value. */
  lemma RoundToNearest(value: real, target: real)
    requires target > 0.0
    ensures -target / 2.0 <= RoundTo(value, target) - value <= target / 2.0
  {
    var q, n := value / target, Round(value / target) as real;
    assert Times(q, target) == value;
    hide Times, Round;
    Apart(n, q, n - q, target);
    Scale(n - q, target);
  }

  function Multiple(k: int, target: real): real { Times(k as real, target) }

  /** The result is a multiple of the increment: the nearest, and of two equally near ones the one further from
      zero. */
  lemma RoundsAwayFromZero(value: real, target: real)
    requires target > 0.0
    ensures exists k :: RoundTo(value, target) == Multiple(k, target)
    ensures Round(-value) == -Round(value)
    ensures value >= 0.0 ==> Round(value.Floor as real + 0.5) == value.Floor + 1
  {
    assert RoundTo(value, target) == Multiple(Round(value / target), target);
    if value > 0.0 {
      assert -(-value) == value;
    }
  }

  /** The same for whole lots: a multiple of the lot, within half a lot of the volume, which is left alone when it
      is a multiple itself. */
  lemma LotsToNearest(volume: int, lot: int)
    requires lot > 0
    ensures RoundLots(volume, lot) % lot == 0
    ensures -lot <= 2 * (RoundLots(volume, lot) - volume) <= lot
    ensures volume % lot == 0 ==> RoundLots(volume, lot) == volume
  {
    var q, n := volume as real / lot as real, Round(volume as real / lot as real);
    assert Times(q, lot as real) == volume as real;
    assert Times(n as real, lot as real) == (n * lot) as real;
    hide Times, Round;
    Apart(n as real, q, n as real - q, lot as real);
    Scale(n as real - q, lot as real);
    WholeLots(n, lot, volume);
  }

  lemma WholeLots(n: int, lot: int, volume: int)
    requires lot > 0 && -lot <= 2 * (n * lot - volume) <= lot
    ensures (n * lot) % lot == 0
    ensures volume % lot == 0 ==> n * lot == volume
  {
    var k := volume / lot;
    assert volume == k * lot + volume % lot;
    if volume % lot == 0 { OnlyOneNear(n - k, lot); }
  }

  lemma OnlyOneNear(d: int, lot: int)
    requires lot > 0 && -lot <= 2 * (d * lot) <= lot
    ensures d == 0
  {
  }

  /** A multiple of the increment is left alone. */
  lemma MultiplesStay(k: int, target: real)
    requires target > 0.0
    ensures RoundTo(Times(k as real, target), target) == Times(k as real, target)
  {
    var value := Times(k as real, target);
    var q := value / target;
    assert Times(q, target) == value;
    hide Times;
    Apart(q, k as real, q - k as real, target);
    Cancel(q - k as real, target);
    RoundOfWhole(k);
  }

  lemma RoundOfWhole(k: int)
    ensures Round(k as real) == k
  {
    hide Round;
    var n := Round(k as real);
    assert (n - k) as real == n as real - k as real;
  }

  lemma Apart(a: real, b: real, d: real, target: real)
    requires d == a - b
    ensures Times(d, target) == Times(a, target) - Times(b, target)
  {
  }

  lemma Scale(d: real, target: real)
    requires target > 0.0 && -0.5 <= d <= 0.5
    ensures -target / 2.0 <= Times(d, target) <= target / 2.0
  {
    Sign(d + 0.5, target);
    Sign(0.5 - d, target);
    Apart(d, -0.5, d + 0.5, target);
    Apart(0.5, d, 0.5 - d, target);
  }

  lemma Sign(a: real, b: real)
    requires a >= 0.0 && b > 0.0
    ensures Times(a, b) >= 0.0
  {
  }

  lemma Cancel(d: real, target: real)
    requires target > 0.0 && Times(d, target) == 0.0
    ensures d == 0.0
  {
  }
}
