/**
 * The storage card's availability badge (a colour and a label chosen by the
 * share of capacity still free) and its percentage-free figure.
 */
module StorageCard {
  import opened Wrappers
  import opened SeedData
  import Rounding

  datatype Level = High | Medium | Low

  /** The three badge colours, named after their theme entries. */
  datatype Colour = AvailabilityHigh | AvailabilityMedium | AvailabilityLow

  /**
   * The share `available / total` as the card computes it. A zero total makes
   * the share infinite for a positive numerator (so above every threshold)
   * and NaN or negative infinity otherwise (so below every threshold); this
   * function returns the level that follows in each case.
   */
  function LevelOf(available: int, total: int): Level {
    if total == 0 then (if available > 0 then High else Low)
    else
      var pct := available as real / total as real;
      if pct > 0.5 then High
      else if pct > 0.2 then Medium
      else Low
  }

  /**
   * `getAvailabilityColor`: the same thresholds as the label. For a zero total
   * the infinite share is stood in for by 1.0 and a NaN or negative one by 0.0,
   * which fall on the same sides of both thresholds.
   */
  function AvailabilityColor(available: int, total: int): Colour {
    var pct := if total == 0 then (if available > 0 then 1.0 else 0.0) else available as real / total as real;
    if pct > 0.5 then AvailabilityHigh
    else if pct > 0.2 then AvailabilityMedium
    else AvailabilityLow
  }

  /** `getAvailabilityLabel`: "High", "Medium" or "Low". */
  function AvailabilityLabel(available: int, total: int): string {
    match LevelOf(available, total)
    case High => "High"
    case Medium => "Medium"
    case Low => "Low"
  }

  function Rank(l: Level): nat {
    match l
    case Low => 0
    case Medium => 1
    case High => 2
  }

  lemma ShareAbove(available: int, total: int, num: int, den: int)
    requires total > 0 && den > 0
    ensures (available as real / total as real > num as real / den as real) <==> den * available > num * total
  {
    var a, t, n, d := available as real, total as real, num as real, den as real;
    assert a / t > n / d <==> a * d > n * t by {
      assert a / t * (t * d) == a * d;
      assert n / d * (t * d) == n * t;
    }
    assert (den * available) as real == d * a;
    assert (num * total) as real == n * t;
  }

  /**
   * For a positive total the buckets are integer thresholds: "High" exactly
   * when more than half is free, "Medium" when more than a fifth but at most
   * half, "Low" when at most a fifth.
   */
  lemma LevelThresholds(available: int, total: int)
    requires total > 0
    ensures LevelOf(available, total) == High <==> 2 * available > total
    ensures LevelOf(available, total) == Medium <==> 5 * available > total && 2 * available <= total
    ensures LevelOf(available, total) == Low <==> 5 * available <= total
  {
    ShareAbove(available, total, 1, 2);
    ShareAbove(available, total, 1, 5);
    assert 0.5 == 1 as real / 2 as real;
    assert 0.2 == 1 as real / 5 as real;
  }

  /** Each colour goes with exactly one label: both use the same thresholds. */
  lemma ColourMatchesLabel(available: int, total: int)
    ensures AvailabilityColor(available, total) == AvailabilityHigh <==> AvailabilityLabel(available, total) == "High"
    ensures AvailabilityColor(available, total) == AvailabilityMedium <==> AvailabilityLabel(available, total) == "Medium"
    ensures AvailabilityColor(available, total) == AvailabilityLow <==> AvailabilityLabel(available, total) == "Low"
  {
  }

  /** With the same non-negative total, more free capacity never gives a lower bucket. */
  lemma LevelMonotone(a1: int, a2: int, total: int)
    requires a1 <= a2 && total >= 0
    ensures Rank(LevelOf(a1, total)) <= Rank(LevelOf(a2, total))
  {
    if total > 0 {
      LevelThresholds(a1, total);
      LevelThresholds(a2, total);
    }
  }

  /** The percentage free, `round(available / total * 100)`; `None` for a zero total. */
  function PercentFree(f: StorageFacility): Option<int> {
    Rounding.RoundedPercent(f.availableCapacity, f.totalCapacity)
  }

  /**
   * Within the capacity invariant the percentage lies in [0, 100], and it
   * agrees with the badge: "High" shows at least 50 and "Low" at most 20.
   */
  lemma PercentAgreesWithLevel(f: StorageFacility)
    requires CapacityInBounds(f) && f.totalCapacity > 0
    ensures PercentFree(f).Some? && 0 <= PercentFree(f).value <= 100
    ensures LevelOf(f.availableCapacity, f.totalCapacity) == High ==> PercentFree(f).value >= 50
    ensures LevelOf(f.availableCapacity, f.totalCapacity) == Low ==> PercentFree(f).value <= 20
  {
    var a, t := f.availableCapacity, f.totalCapacity;
    Rounding.RoundedPercentInRange(a, t);
    LevelThresholds(a, t);
    var r := PercentFree(f).value;
    assert t * (2 * r - 1) <= 200 * a < t * (2 * r + 1);
    Rounding.MulMonotone(t, 2 * r + 1, 99);
    Rounding.MulMonotone(t, 41, 2 * r - 1);
  }
}
