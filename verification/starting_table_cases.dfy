/** Worked scenarios on the app's own starting table: what the two handlers
    produce for the starting target, and three behaviours of the handlers that
    a reader of the table might not expect. */
module StartingTableCases {
  import opened Rounding
  import opened Funnel
  import opened Scenario

  /** The starting target is exactly the starting table's revenue. */
  lemma InitialTargetIsInitialRevenue()
    ensures Revenue(InitialState.data) as real == InitialState.revenueTarget
  {
  }

  /** For the starting target of 22660 the handler needs 412 orders and 69831
      entries, and rebuilds the table as
      69831, 33393, 29315, 12863, 10098, 3897, 1760, 412. */
  lemma ScenarioForInitialTarget()
    ensures Orders(InitialState.revenueTarget) == 412
    ensures StartForTarget(InitialState.revenueTarget) == 69831
    ensures
      var d := UpdateScenario(InitialState).data;
      && d[0].value == 69831 && d[1].value == 33393 && d[2].value == 29315 && d[3].value == 12863
      && d[4].value == 10098 && d[5].value == 3897 && d[6].value == 1760 && d[7].value == 412
    ensures Revenue(UpdateScenario(InitialState).data) == 22660
  {
    var d := UpdateScenario(InitialState).data;
    assert d[0].value == 69831;
    RoundIsNearest(Share(69831, 47.82), 33393);
    RoundIsNearest(Share(69831, 41.98), 29315);
    RoundIsNearest(Share(69831, 18.42), 12863);
    RoundIsNearest(Share(69831, 14.46), 10098);
    RoundIsNearest(Share(69831, 5.58), 3897);
    RoundIsNearest(Share(69831, 2.52), 1760);
  }

  /** The "vs. previous" ratio is taken against the starting table's previous
      row, not the recomputed one: doubling the target to 45320 shows about
      95.65% for "Generate print" although that row is still under 48% of the
      recomputed entry row. */
  lemma RatioUsesStaleRow()
    ensures
      var d := UpdateScenario(State(InitialData, 45320.0)).data;
      && d[0].value == 139662
      && d[1].value == 66786
      && d[1].vsPrevious.Some? && d[1].vsPrevious.value > 95.0
      && d[1].value * 100 < 48 * d[0].value
  {
    var d := UpdateScenario(State(InitialData, 45320.0)).data;
    assert Orders(45320.0) == 824;
    assert d[0].value == 139662;
    RoundIsNearest(Share(139662, 47.82), 66786);
  }

  /** Editing "Customize band" to 50% on a table `updateScenario` produced
      moves that row alone: the later rows keep
      their values because every percentage is a share of the entry row, so the
      target written back is unchanged. The next row's ratio is still taken
      against the old "Customize band" value, 78.5% rather than 28.9%. */
  lemma EditMovesOnlyThatRow()
    ensures
      var before := UpdateScenario(InitialState);
      var after := UpdateStep(before, "Customize band", Some(50.0));
      && after.data[3].value == 34916
      && (forall i :: 0 <= i < 8 && i != 3 ==> after.data[i].value == before.data[i].value)
      && after.revenueTarget == 22660.0
      && after.data[4].vsPrevious.Some? && after.data[4].vsPrevious.value > 78.0
      && after.data[4].value * 100 < 30 * after.data[3].value
  {
    var before := UpdateScenario(InitialState);
    ScenarioForInitialTarget();
    UpdateStepIsLocal(before, "Customize band", Some(50.0));
    var after := UpdateStep(before, "Customize band", Some(50.0));
    RoundIsNearest(Share(69831, 50.0), 34916);
    assert after.data[3].value == 34916;
  }

  /** Editing the entry row of a table `updateScenario` produced rescales only
      the entry row, since the other rows are recomputed from the entry value
      before the edit: at 40% the
      entry row drops below the next row and the table stops narrowing. */
  lemma EntryEditBreaksFunnel()
    ensures
      var after := UpdateStep(UpdateScenario(InitialState), "Start creating", Some(40.0));
      && after.data[0].value == 27932
      && after.data[1].value == 33393
      && !ValuesNonIncreasing(after.data)
  {
    var before := UpdateScenario(InitialState);
    ScenarioForInitialTarget();
    var after := UpdateStep(before, "Start creating", Some(40.0));
    RoundIsNearest(Share(69831, 40.0), 27932);
    RoundIsNearest(Share(69831, 47.82), 33393);
    assert after.data[0].value == 27932;
    assert after.data[1].value == 33393;
  }

  /** The starting table is not consistent: its rows are not the rounded shares
      of its entry row (69825 × 47.82% rounds to 33390, not 33393). So the first
      edit after the app loads moves rows other than the edited one: setting
      "Customize band" to 50% also shifts "Generate print", "Generate print
      success", "Choose sizes" and "Secure your set" by a few units. */
  lemma EditOnStartingTableMovesOtherRows()
    ensures !Consistent(InitialData)
    ensures
      var after := UpdateStep(InitialState, "Customize band", Some(50.0));
      && after.data[0].value == 69825
      && after.data[1].value == 33390
      && after.data[2].value == 29313
      && after.data[3].value == 34913
      && after.data[4].value == 10097
      && after.data[5].value == 3896
      && after.data[6].value == 1760
      && after.data[7].value == 412
      && after.revenueTarget == 22660.0
  {
    RoundIsNearest(Share(69825, 47.82), 33390);
    assert InitialData[1].value != Round(Share(InitialData[0].value, InitialData[1].percentage));
    RoundIsNearest(Share(69825, 41.98), 29313);
    RoundIsNearest(Share(69825, 50.0), 34913);
    RoundIsNearest(Share(69825, 14.46), 10097);
    RoundIsNearest(Share(69825, 5.58), 3896);
    RoundIsNearest(Share(69825, 2.52), 1760);
    RoundIsNearest(Share(69825, 0.59), 412);
    RoundIsNearest(Share(69825, 100.0), 69825);
  }
}
