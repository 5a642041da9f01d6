/** The funnel table of the scenario-planning app: its rows, the fixed starting
    table, the price per order, the "vs. previous" ratio and the row-by-row
    recalculation that both update handlers run over the table. */
module Funnel {
  import opened Rounding

  datatype Option<T> = None | Some(value: T)

  /** One row of the table. `percentage` is the row's share of the entry row,
      in percent. `vsPrevious` is the ratio to the previous row computed by the
      last recalculation; the starting table has none. */
  datatype Step = Step(name: string, value: int, percentage: real, vsPrevious: Option<real>)

  /** What the app keeps between events: the table and the revenue target. */
  datatype State = State(data: seq<Step>, revenueTarget: real)

  /** Revenue per order. */
  const PRICE: int := 55

  /** The table the app starts from, and the one `updateScenario` always
      recomputes from. */
  const InitialData: seq<Step> := [
    Step("Start creating", 69825, 100.0, None),
    Step("Generate print", 33393, 47.82, None),
    Step("Generate print success", 29312, 41.98, None),
    Step("Customize band", 12864, 18.42, None),
    Step("Choose sizes", 10099, 14.46, None),
    Step("Order your set", 3896, 5.58, None),
    Step("Secure your set", 1757, 2.52, None),
    Step("Orders", 412, 0.59, None)
  ]

  const InitialState: State := State(InitialData, 22660.0)

  /** The exact, unrounded value of a row with this percentage when the entry
      row holds `start`. */
  function Share(start: int, percentage: real): real {
    start as real * (percentage / 100.0)
  }

  /** `calculateVsPrevious`: the current value as a percentage of the previous
      one, or 100 when there is no previous value or it is zero. */
  function VsPrevious(current: int, previous: Option<int>): (r: real)
    ensures previous.None? || previous.value == 0 ==> r == 100.0
    ensures previous.Some? && previous.value != 0 ==>
              r * previous.value as real == current as real * 100.0
  {
    if previous.None? || previous.value == 0 then 100.0
    else
      var ratio := current as real / previous.value as real;
      assert ratio * previous.value as real == current as real;
      ratio * 100.0
  }

  /** The row the recalculation produces at position `i`: the value is `start`
      scaled by the row's percentage and rounded, and the ratio is taken
      against the value the previous row had in `items`, before this pass. */
  function RecalculateAt(items: seq<Step>, start: int, i: int): Step
    requires 0 <= i < |items|
  {
    var value := Round(Share(start, items[i].percentage));
    var previous := if i > 0 then Some(items[i - 1].value) else None;
    items[i].(value := value, vsPrevious := Some(VsPrevious(value, previous)))
  }

  /** The `.map` pass both handlers run: every row keeps its name and
      percentage, its value becomes the percentage of `start`, and its ratio is
      taken against the previous row of the INPUT list. */
  function Recalculate(items: seq<Step>, start: int): (r: seq<Step>)
    ensures |r| == |items|
    ensures forall i :: 0 <= i < |items| ==>
              r[i].name == items[i].name && r[i].percentage == items[i].percentage
    ensures forall i :: 0 <= i < |items| ==>
              Share(start, items[i].percentage) - 0.5 < r[i].value as real <= Share(start, items[i].percentage) + 0.5
    ensures |items| > 0 ==> r[0].vsPrevious == Some(100.0)
    ensures forall i :: 0 < i < |items| ==>
              r[i].vsPrevious == Some(VsPrevious(r[i].value, Some(items[i - 1].value)))
  {
    seq(|items|, i requires 0 <= i < |items| => RecalculateAt(items, start, i))
  }

  /** Every row's value is the rounded percentage of the entry row's value, and
      the entry row is 100%. */
  predicate Consistent(data: seq<Step>) {
    && |data| > 0
    && data[0].percentage == 100.0
    && forall i :: 0 <= i < |data| ==> data[i].value == Round(Share(data[0].value, data[i].percentage))
  }

  predicate PercentagesNonIncreasing(data: seq<Step>) {
    forall i, j :: 0 <= i <= j < |data| ==> data[j].percentage <= data[i].percentage
  }

  predicate ValuesNonIncreasing(data: seq<Step>) {
    forall i, j :: 0 <= i <= j < |data| ==> data[j].value <= data[i].value
  }

  /** The starting table narrows from step to step. */
  lemma InitialDataIsFunnel()
    ensures PercentagesNonIncreasing(InitialData)
    ensures ValuesNonIncreasing(InitialData)
  {
  }

  /** The recalculation with entry share 100% puts `start` itself in the entry
      row and leaves a table in which every row is the rounded share of it. */
  lemma RecalculateIsConsistent(items: seq<Step>, start: int)
    requires |items| > 0 && items[0].percentage == 100.0
    ensures Recalculate(items, start)[0].value == start
    ensures Consistent(Recalculate(items, start))
  {
    var r := Recalculate(items, start);
    assert r[0].value == start by {
      assert Share(start, items[0].percentage) == start as real;
      RoundIsNearest(start as real, r[0].value);
    }
    forall i | 0 <= i < |items|
      ensures r[i].value == Round(Share(start, r[i].percentage))
    {
      RecalculateRowIsRounded(items, start, i);
    }
  }

  /** One row of the recalculation is the rounded share of `start`. */
  lemma RecalculateRowIsRounded(items: seq<Step>, start: int, i: int)
    requires 0 <= i < |items|
    ensures Recalculate(items, start)[i].value == Round(Share(start, items[i].percentage))
  {
    RoundIsNearest(Share(start, items[i].percentage), Recalculate(items, start)[i].value);
  }

  /** A larger percentage is a larger share of a non-negative entry value. */
  lemma ShareMonotone(start: int, lo: real, hi: real)
    requires start >= 0
    requires lo <= hi
    ensures Share(start, lo) <= Share(start, hi)
  {
    MultiplyMonotone(lo / 100.0, hi / 100.0, start as real);
  }

  /** A table whose percentages never grow, recalculated from a non-negative
      entry value, has values that never grow either. */
  lemma RecalculateKeepsFunnelShape(items: seq<Step>, start: int)
    requires PercentagesNonIncreasing(items)
    requires start >= 0
    ensures ValuesNonIncreasing(Recalculate(items, start))
  {
    var r := Recalculate(items, start);
    forall i, j | 0 <= i <= j < |r|
      ensures r[j].value <= r[i].value
    {
      ShareMonotone(start, items[j].percentage, items[i].percentage);
      RoundIsNearest(Share(start, items[j].percentage), r[j].value);
      RoundIsNearest(Share(start, items[i].percentage), r[i].value);
      RoundMonotone(Share(start, items[j].percentage), Share(start, items[i].percentage));
    }
  }
}
