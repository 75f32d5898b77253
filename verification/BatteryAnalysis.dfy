/** Battery wear and its classification: core/battery_analysis.py. */
module BatteryAnalysis {
  import opened Common
  import opened IsoDates
  import opened WearHistory

  datatype Battery = Battery(name: string, full: Option<int>, design: Option<int>, cycles: Option<int>)

  datatype HealthClass = Good | Fair | Poor | UnknownHealth

  /** Wear in percent of the design capacity; a pack that reads above design counts as unworn. */
  function WearPercent(full: Option<int>, design: Option<int>): (wear: Option<real>)
    ensures wear.Some? <==> full.Some? && design.Some? && design.value > 0
    ensures wear.Some? ==> wear.value >= 0.0
  {
    if full.None? || design.None? || design.value <= 0 then None
    else
      var w := (1.0 - full.value as real / design.value as real) * 100.0;
      Some(if w > 0.0 then w else 0.0)
  }

  function ClassifyWear(wear: Option<real>): HealthClass {
    match wear
    case None => UnknownHealth
    case Some(w) => if w < 15.0 then Good else if w < 30.0 then Fair else Poor
  }

  /** The classes in the capacities themselves: Good above 85% of design, Poor at 70% or less. */
  lemma ClassesByCapacity(full: int, design: int)
    requires design > 0
    ensures var c := ClassifyWear(WearPercent(Some(full), Some(design)));
            && (c == Good <==> 100 * full > 85 * design)
            && (c == Poor <==> 100 * full <= 70 * design)
            && c != UnknownHealth
  {
    QuotientOrder(full as real, design as real, 0.85);
    QuotientOrder(full as real, design as real, 0.70);
  }

  lemma QuotientOrder(f: real, d: real, b: real)
    requires d > 0.0
    ensures f / d > b <==> f > b * d
  {
    var r := f / d;
    assert r * d == f;
    if r > b {
      assert (r - b) * d > 0.0;
    } else {
      assert (b - r) * d >= 0.0;
    }
  }

  /** The wear itself, in the capacities: 100 percent of what is lost of the design capacity, never below 0. */
  lemma WearByCapacity(full: int, design: int)
    requires design > 0
    ensures WearPercent(Some(full), Some(design)).value * design as real
         == if full < design then 100.0 * (design - full) as real else 0.0
  {
    var f, d := full as real, design as real;
    assert f / d * d == f;
    assert (1.0 - f / d) * 100.0 * d == 100.0 * (d - f);
    QuotientOrder(f, d, 1.0);
  }

  /** Percentages of a positive whole keep their order when scaled by it. */
  lemma ScaledOrder(x: real, y: real, whole: real)
    requires whole > 0.0
    ensures x < y <==> x * whole < y * whole
  {
    if x < y {
      assert (y - x) * whole > 0.0;
    } else {
      assert (x - y) * whole >= 0.0;
    }
  }

  /** A percentage compared without dividing. */
  lemma PercentageOf(part: real, whole: real, pct: real)
    requires whole > 0.0
    ensures part / whole * 100.0 * whole == 100.0 * part
    ensures part / whole * 100.0 < pct <==> 100.0 * part < pct * whole
  {
    var q := part / whole;
    assert q * whole == part;
    assert q * 100.0 * whole == 100.0 * (q * whole);
    ScaledOrder(q * 100.0, pct, whole);
  }

  function SnapshotOf(b: Battery, today: Date): Snapshot {
    Snapshot(Iso(today), b.name, WearPercent(b.full, b.design), b.cycles, b.full, b.design)
  }
}
