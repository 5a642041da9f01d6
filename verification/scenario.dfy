/** The two event handlers of the scenario-planning app, written as pure
    functions from the old state (and the event's inputs) to the new state:
    `updateScenario` back-solves the table from the revenue target, and
    `updateStep` edits one row's percentage and recomputes the table. */
module Scenario {
  import opened Rounding
  import opened Funnel

  /** The number of orders the revenue target needs: the least integer whose
      revenue reaches the target. */
  function Orders(revenueTarget: real): (n: int)
    ensures n as real * PRICE as real >= revenueTarget
    ensures (n - 1) as real * PRICE as real < revenueTarget
  {
    CeilOfQuotient(revenueTarget, PRICE as real);
    Ceil(revenueTarget / PRICE as real)
  }

  /** The entry count back-solved from `orders` through the last row's
      percentage: the least integer whose share reaches `orders`. */
  function StartFor(orders: int, lastPercentage: real): (n: int)
    requires lastPercentage > 0.0
    ensures n as real * (lastPercentage / 100.0) >= orders as real
    ensures (n - 1) as real * (lastPercentage / 100.0) < orders as real
  {
    CeilOfQuotient(orders as real, lastPercentage / 100.0);
    Ceil(orders as real / (lastPercentage / 100.0))
  }

  /** The entry count `updateScenario` back-solves from a target: the orders
      the target needs, divided through the starting table's last percentage. */
  function StartForTarget(revenueTarget: real): int {
    StartFor(Orders(revenueTarget), InitialData[|InitialData| - 1].percentage)
  }

  /** The revenue of a table: its last row's value at the order price. */
  function Revenue(data: seq<Step>): int
    requires |data| > 0
  {
    data[|data| - 1].value * PRICE
  }

  /** `updateScenario`: the table is rebuilt from the starting table, never
      from the current one, so that the entry row holds the least count whose
      last row reaches the orders the target needs. The target is kept. */
  function UpdateScenario(s: State): (r: State)
    ensures r.revenueTarget == s.revenueTarget
    ensures |r.data| == |InitialData|
    ensures forall i :: 0 <= i < |InitialData| ==>
              r.data[i].name == InitialData[i].name && r.data[i].percentage == InitialData[i].percentage
    ensures Consistent(r.data)
    ensures r.data[0].value == StartForTarget(s.revenueTarget)
    ensures Share(r.data[0].value, InitialData[|InitialData| - 1].percentage) >= Orders(s.revenueTarget) as real
    ensures Share(r.data[0].value - 1, InitialData[|InitialData| - 1].percentage) < Orders(s.revenueTarget) as real
    ensures r.data[|r.data| - 1].value == Orders(s.revenueTarget)
    ensures Revenue(r.data) as real >= s.revenueTarget
    ensures r.data[0].vsPrevious == Some(100.0)
    ensures forall i :: 0 < i < |InitialData| ==>
              r.data[i].vsPrevious == Some(VsPrevious(r.data[i].value, Some(InitialData[i - 1].value)))
  {
    var orders := Orders(s.revenueTarget);
    var start := StartForTarget(s.revenueTarget);
    RecalculateIsConsistent(InitialData, start);
    LastRowHitsOrders(orders, InitialData[|InitialData| - 1]);
    s.(data := Recalculate(InitialData, start))
  }

  /** The last row recalculated from the back-solved entry count holds at least
      `orders`, and exactly `orders` when its percentage is at most 50. */
  lemma LastRowHitsOrders(orders: int, last: Step)
    requires last.percentage > 0.0
    ensures orders <= Round(Share(StartFor(orders, last.percentage), last.percentage))
    ensures last.percentage <= 50.0 ==> Round(Share(StartFor(orders, last.percentage), last.percentage)) == orders
  {
    var n := StartFor(orders, last.percentage);
    var f := last.percentage / 100.0;
    RoundBetween(Share(n, last.percentage), orders);
    if last.percentage <= 50.0 {
      assert (n - 1) as real * f == n as real * f - f;
      assert Share(n, last.percentage) < orders as real + 0.5;
    }
  }

  /** `updateStep`'s guard: the handler does nothing unless a step is selected
      and the percentage input is not empty. */
  predicate IsNoOp(selectedStep: string, newPercentage: Option<real>) {
    selectedStep == "" || newPercentage.None?
  }

  /** The first pass of `updateStep`: every row named `selectedStep` gets the
      new percentage, and nothing else about any row changes. */
  function ApplyEdit(data: seq<Step>, selectedStep: string, percentage: real): (r: seq<Step>)
    ensures |r| == |data|
    ensures forall i :: 0 <= i < |data| ==>
              r[i].name == data[i].name && r[i].value == data[i].value && r[i].vsPrevious == data[i].vsPrevious
    ensures forall i :: 0 <= i < |data| ==>
              r[i].percentage == (if data[i].name == selectedStep then percentage else data[i].percentage)
  {
    seq(|data|, i requires 0 <= i < |data| =>
      if data[i].name == selectedStep then data[i].(percentage := percentage) else data[i])
  }

  /** `updateStep`: unless the guard stops it, the selected rows take the new
      percentage, every row is recomputed from the entry value the table had
      BEFORE the edit, each ratio is taken against the previous row's old value,
      and the revenue target is overwritten with the new table's revenue. */
  function UpdateStep(s: State, selectedStep: string, newPercentage: Option<real>): (r: State)
    requires !IsNoOp(selectedStep, newPercentage) ==> |s.data| > 0
    ensures IsNoOp(selectedStep, newPercentage) ==> r == s
    ensures |r.data| == |s.data|
    ensures forall i :: 0 <= i < |s.data| ==> r.data[i].name == s.data[i].name
    ensures !IsNoOp(selectedStep, newPercentage) ==>
              && (forall i :: 0 <= i < |s.data| ==>
                    r.data[i].percentage == (if s.data[i].name == selectedStep then newPercentage.value else s.data[i].percentage))
              && (forall i :: 0 <= i < |s.data| ==>
                    Share(s.data[0].value, r.data[i].percentage) - 0.5 < r.data[i].value as real <= Share(s.data[0].value, r.data[i].percentage) + 0.5)
              && r.data[0].vsPrevious == Some(100.0)
              && (forall i :: 0 < i < |s.data| ==>
                    r.data[i].vsPrevious == Some(VsPrevious(r.data[i].value, Some(s.data[i - 1].value))))
              && r.revenueTarget == Revenue(r.data) as real
  {
    if IsNoOp(selectedStep, newPercentage) then s
    else
      var updated := ApplyEdit(s.data, selectedStep, newPercentage.value);
      var finalData := Recalculate(updated, updated[0].value);
      State(finalData, Revenue(finalData) as real)
  }

  /** Whatever the current table holds, `updateScenario` gives the same result
      for the same target: edits made with `updateStep` are discarded. */
  lemma UpdateScenarioIgnoresTable(s1: State, s2: State)
    requires s1.revenueTarget == s2.revenueTarget
    ensures UpdateScenario(s1) == UpdateScenario(s2)
  {
  }

  /** Running `updateScenario` twice gives the same state as running it once. */
  lemma UpdateScenarioIdempotent(s: State)
    ensures UpdateScenario(UpdateScenario(s)) == UpdateScenario(s)
  {
  }

  /** The revenue `updateScenario` reaches is the least multiple of the price
      that is not below the target. */
  lemma UpdateScenarioRevenueIsLeast(s: State)
    ensures Revenue(UpdateScenario(s).data) as real >= s.revenueTarget
    ensures (Revenue(UpdateScenario(s).data) - PRICE) as real < s.revenueTarget
  {
  }

  /** For a non-negative target the recomputed table narrows from step to
      step, as the starting table does. */
  lemma UpdateScenarioIsFunnel(s: State)
    requires s.revenueTarget >= 0.0
    ensures ValuesNonIncreasing(UpdateScenario(s).data)
  {
    var start := StartForTarget(s.revenueTarget);
    InitialDataIsFunnel();
    RecalculateKeepsFunnelShape(InitialData, start);
  }

  /** A revenue written by `updateStep` is a whole number of orders, and
      `Orders` reads that number back. */
  lemma OrdersOfRevenue(k: int)
    ensures Orders((k * PRICE) as real) == k
  {
  }

  /** After a step edit, `updateScenario` reproduces the edited table's last
      row: the target `updateStep` wrote back asks for exactly that many
      orders. */
  lemma UpdateStepThenScenario(s: State, selectedStep: string, newPercentage: Option<real>)
    requires |s.data| > 0
    requires !IsNoOp(selectedStep, newPercentage)
    ensures
      var edited := UpdateStep(s, selectedStep, newPercentage);
      UpdateScenario(edited).data[|InitialData| - 1].value == edited.data[|edited.data| - 1].value
  {
    var edited := UpdateStep(s, selectedStep, newPercentage);
    OrdersOfRevenue(edited.data[|edited.data| - 1].value);
  }

  /** A selected name that matches no row changes no percentage. */
  lemma ApplyEditUnknownName(data: seq<Step>, selectedStep: string, percentage: real)
    requires forall i :: 0 <= i < |data| ==> data[i].name != selectedStep
    ensures ApplyEdit(data, selectedStep, percentage) == data
  {
  }

  /** Editing a consistent table anywhere but the entry row leaves the entry
      value and every row not named by the edit as they were, so only the
      edited rows move and the table stays consistent. */
  lemma UpdateStepIsLocal(s: State, selectedStep: string, newPercentage: Option<real>)
    requires Consistent(s.data)
    requires !IsNoOp(selectedStep, newPercentage)
    requires s.data[0].name != selectedStep
    ensures
      var r := UpdateStep(s, selectedStep, newPercentage);
      && r.data[0].value == s.data[0].value
      && (forall i :: 0 <= i < |s.data| && s.data[i].name != selectedStep ==> r.data[i].value == s.data[i].value)
      && Consistent(r.data)
  {
    var updated := ApplyEdit(s.data, selectedStep, newPercentage.value);
    var start := s.data[0].value;
    RecalculateIsConsistent(updated, start);
    var r := UpdateStep(s, selectedStep, newPercentage);
    assert r.data == Recalculate(updated, start);
    forall i | 0 <= i < |s.data| && s.data[i].name != selectedStep
      ensures r.data[i].value == s.data[i].value
    {
      RecalculateRowIsRounded(updated, start, i);
      assert updated[i] == s.data[i];
    }
  }

  /** A selected name that matches no row changes no percentage, yet the
      handler still runs: on a consistent table it keeps every value and
      re-synchronises the revenue target with the table's revenue. */
  lemma UpdateStepUnknownName(s: State, selectedStep: string, newPercentage: Option<real>)
    requires |s.data| > 0
    requires !IsNoOp(selectedStep, newPercentage)
    requires forall i :: 0 <= i < |s.data| ==> s.data[i].name != selectedStep
    ensures
      var r := UpdateStep(s, selectedStep, newPercentage);
      && (forall i :: 0 <= i < |s.data| ==> r.data[i].percentage == s.data[i].percentage)
      && (Consistent(s.data) ==>
            (forall i :: 0 <= i < |s.data| ==> r.data[i].value == s.data[i].value)
            && r.revenueTarget == Revenue(s.data) as real)
  {
    if Consistent(s.data) {
      UpdateStepIsLocal(s, selectedStep, newPercentage);
    }
  }
}
