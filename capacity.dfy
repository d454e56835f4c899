/** The capacity bar: how full a sprint is, the colour band of the bar and
    its text, and the message under the bar. */
module CapacityBar {

  /** `percentage`: the committed share of the capacity in whole percent,
      never above 100. The share is rounded down, which keeps every
      comparison with a whole-number threshold exact. */
  function Percentage(committed: int, capacity: int): (p: int)
    requires capacity > 0
    ensures p <= 100
    ensures p == 100 <==> committed >= capacity
    ensures p < 100 ==> p * capacity <= 100 * committed < (p + 1) * capacity
    ensures committed >= 0 ==> p >= 0
  {
    var share := (100 * committed) / capacity;
    DivBounds(100 * committed, capacity);
    if share < 100 then share else 100
  }

  /** Euclidean division by a positive divisor brackets the dividend. */
  lemma DivBounds(n: int, d: int)
    requires d > 0
    ensures (n / d) * d <= n < (n / d + 1) * d
    ensures n / d >= 100 <==> n >= 100 * d
  {
    var q := n / d;
    assert n == q * d + n % d && 0 <= n % d < d;
    assert (q + 1) * d == q * d + d;
    if q >= 100 {
      MulMonotone(100, q, d);
    } else {
      MulMonotone(q + 1, 100, d);
    }
  }

  /** Multiplying by a positive number keeps the order. */
  lemma MulMonotone(a: int, b: int, d: int)
    requires a <= b && d > 0
    ensures a * d <= b * d
  {
    assert b * d - a * d == (b - a) * d;
  }

  /** `overCapacity`. */
  predicate OverCapacity(committed: int, capacity: int) {
    committed > capacity
  }

  /** The three colour bands shared by `getBarColor` and `getTextColor`:
      red, orange and green. */
  datatype Band = Over | Warning | Comfortable

  function BandRank(b: Band): int {
    match b
    case Comfortable => 0
    case Warning => 1
    case Over => 2
  }

  /** Red when over capacity, otherwise orange from 80 percent on, otherwise
      green. */
  function ColorBand(committed: int, capacity: int): (b: Band)
    requires capacity > 0
    ensures b == Over <==> committed > capacity
    ensures b == Warning <==> committed <= capacity && 100 * committed >= 80 * capacity
    ensures b == Comfortable <==> 100 * committed < 80 * capacity
  {
    PercentageThreshold(committed, capacity, 80);
    if OverCapacity(committed, capacity) then Over
    else if Percentage(committed, capacity) >= 80 then Warning
    else Comfortable
  }

  /** Comparing the rounded-down percentage with a whole threshold is
      comparing the exact share with it. */
  lemma PercentageThreshold(committed: int, capacity: int, t: int)
    requires capacity > 0 && t <= 100
    ensures Percentage(committed, capacity) >= t <==> 100 * committed >= t * capacity
  {
    var p := Percentage(committed, capacity);
    if p < 100 {
      if p >= t {
        assert t * capacity <= p * capacity;
      } else {
        assert (p + 1) * capacity <= t * capacity;
      }
    } else {
      assert committed >= capacity;
      assert t * capacity <= 100 * capacity;
    }
  }

  /** More committed work never moves the bar to a calmer colour. */
  lemma BandMonotone(a: int, b: int, capacity: int)
    requires capacity > 0 && a <= b
    ensures BandRank(ColorBand(a, capacity)) <= BandRank(ColorBand(b, capacity))
  {
  }

  /** The bar's width (`Math.min(percentage, 100)`) is the percentage
      itself, since the percentage is already capped. */
  function BarWidth(committed: int, capacity: int): (w: int)
    requires capacity > 0
    ensures w == Percentage(committed, capacity) && w <= 100
  {
    var p := Percentage(committed, capacity);
    if p < 100 then p else 100
  }

  /** The line under the bar. */
  datatype Message =
    | OverBy(amount: int)
    | Remaining(percent: int)
    | Available(percent: int)

  /** "Over capacity by N", "N% capacity remaining" from 80 percent on, or
      "N% capacity available". */
  function StatusMessage(committed: int, capacity: int): (m: Message)
    requires capacity > 0
    ensures m.OverBy? <==> OverCapacity(committed, capacity)
    ensures m.OverBy? ==> m.amount == committed - capacity && m.amount > 0
    ensures m.Remaining? <==> ColorBand(committed, capacity) == Warning
    ensures m.Available? <==> ColorBand(committed, capacity) == Comfortable
    ensures !m.OverBy? ==> m.percent == 100 - Percentage(committed, capacity)
    ensures m.Remaining? ==> 0 <= m.percent <= 20
    ensures m.Available? && committed >= 0 ==> 20 < m.percent <= 100
  {
    if OverCapacity(committed, capacity) then OverBy(committed - capacity)
    else
      var p := Percentage(committed, capacity);
      PercentageThreshold(committed, capacity, 80);
      if p >= 80 then Remaining(100 - p) else Available(100 - p)
  }

  /** At a capacity of 24 the bar turns orange at 20 and red above 24. */
  lemma ThresholdsAtTwentyFour(committed: int)
    ensures ColorBand(committed, 24) == Warning <==> 20 <= committed <= 24
    ensures ColorBand(committed, 24) == Over <==> committed >= 25
  {
  }
}
