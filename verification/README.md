# Scenario planning funnel — Dafny model

This project models the recalculation arithmetic of the "Scenario Planning
Mini-App", a React component (`src/ScenarioPlanningApp.js`). The app shows a
conversion funnel: an ordered table of eight steps, from "Start creating" to
"Orders". Each row holds a count (`value`) and a `percentage`, which is the
row's share of the **entry row** in percent. Orders sell at `PRICE = 55`.
The component has two handlers:

- **`updateScenario`** back-solves the table from the revenue target.
  It computes `orders = ceil(target / 55)`.
  It then computes `start = ceil(orders / (0.59 / 100))`, where 0.59 is the last row's percentage.
  Finally it sets every row of the fixed starting table to `round(start × percentage / 100)`.
  It always starts from the starting table and never from the current one.
- **`updateStep`** edits one step's percentage.
  It does nothing unless a step is selected and the percentage input is non-empty.
  Otherwise it writes the new percentage into every row with the selected name.
  It recomputes every row from the entry value the table had before the edit.
  It then overwrites the revenue target with `last.value × 55`.

Both handlers also store a "vs. previous" ratio on each row (`calculateVsPrevious`).
That ratio is computed against the previous row of the table the pass *reads*.
It is not computed against the freshly recomputed row.

The model keeps the app's state as an explicit value `State(data, revenueTarget)`.
Each handler is a pure function from the old state and its inputs to the new state.

Modules:

- `Rounding` (`rounding.dfy`) holds `Math.round` and `Math.ceil` on exact rationals.
  Round is `Floor(x + 1/2)` and Ceil is `-Floor(-x)`.
  The module also holds the window, monotonicity and ceiling-division facts about them.
- `Funnel` (`funnel.dfy`) holds the data model.
  This includes the step row, the state, `PRICE`, the starting table and `calculateVsPrevious`.
  It also holds the `.map` pass that both handlers run (`Recalculate`) and the facts about it.
- `Scenario` (`scenario.dfy`) holds the two handlers and their properties.
- `StartingTableCases` (`starting_table_cases.dfy`) holds worked cases on the app's own starting table.

Percentages and the revenue target are Dafny `real`s, which are exact rationals.
Counts are unbounded `int`s.

### Behaviour worth knowing

- Every percentage is a share of the entry row, not of the previous row.
- The "vs. previous" ratio is display-only: no computation reads it back.
- An edit recomputes every row from the entry value before the edit and overwrites the revenue target.
- On a table `updateScenario` produced, an edit to the entry row is applied, but it rescales only the entry row (`StartingTableCases.EntryEditBreaksFunnel`).
- On a table `updateScenario` produced, an edit to any other row moves only that row (`Scenario.UpdateStepIsLocal`).
- The starting table is not consistent: 69825 × 47.82% rounds to 33390, but the table stores 33393. So the first edit after the app loads shifts several other rows by a few units (`StartingTableCases.EditOnStartingTableMovesOtherRows`).
- A selected name that matches no row still recomputes the table and resets the target (`Scenario.UpdateStepUnknownName`).
- For the target 22660 the entry count is `ceil(412 / 0.0059) = 69831` (`StartingTableCases.ScenarioForInitialTarget`).

## Model

| member | source | states |
|---|---|---|
| Rounding.Round | src/ScenarioPlanningApp.js:31 | `Math.round(x)` is the integer in the half-open window `(x - 1/2, x + 1/2]`, so ties go up |
| Rounding.Ceil | src/ScenarioPlanningApp.js:27-28 | `Math.ceil(x)` is an integer in `[x, x + 1)` |
| Rounding.RoundIsNearest | src/ScenarioPlanningApp.js:49 | an integer is the rounding of `x` if and only if it lies in that window |
| Rounding.CeilIsLeast | src/ScenarioPlanningApp.js:27 | `Math.ceil(x) <= n` if and only if `x <= n`, so it is the least integer not below `x` |
| Rounding.RoundMonotone | src/ScenarioPlanningApp.js:31 | rounding preserves order |
| Rounding.RoundBetween | src/ScenarioPlanningApp.js:31 | a value at least `n` rounds to at least `n`; a value below `n + 1/2` rounds to at most `n` |
| Rounding.CeilOfQuotient | src/ScenarioPlanningApp.js:27-28 | for a positive divisor `d`, `ceil(a / d)` is the least integer `q` with `q × d >= a` |
| Funnel.VsPrevious | src/ScenarioPlanningApp.js:22-24 | 100 when the previous value is absent or 0; otherwise the ratio `r` with `r × previous = current × 100`; never a division by zero |
| Funnel.Recalculate | src/ScenarioPlanningApp.js:30-35 | the `.map` pass (one row of it is the helper `Funnel.RecalculateAt`, lines 31-34 and 49-52) keeps length, names, percentages and order; each value rounds `start × percentage / 100` (the helper `Funnel.Share`, lines 31 and 49); row 0's ratio is 100; row i's ratio is against row i-1 of the input list |
| Funnel.InitialDataIsFunnel | src/ScenarioPlanningApp.js:3-12 | the starting table's percentages and values never grow from row to row |
| Funnel.RecalculateIsConsistent | src/ScenarioPlanningApp.js:48-49 | with entry percentage 100 the entry row gets exactly `start`, and every row is the rounded share of the entry row |
| Funnel.RecalculateRowIsRounded | src/ScenarioPlanningApp.js:49 | one recomputed row is `Round(start × percentage / 100)` |
| Funnel.ShareMonotone | src/ScenarioPlanningApp.js:31 | for a non-negative entry value, a larger percentage is a larger share |
| Funnel.RecalculateKeepsFunnelShape | src/ScenarioPlanningApp.js:48-53 | if percentages never grow and the entry value is non-negative, the recomputed values never grow |
| Scenario.Orders | src/ScenarioPlanningApp.js:27 | `orders` is the least integer with `orders × 55 >= revenueTarget` |
| Scenario.StartFor | src/ScenarioPlanningApp.js:28 | for a positive last percentage `p`, `start` is the least integer with `start × p / 100 >= orders` |
| Scenario.LastRowHitsOrders | src/ScenarioPlanningApp.js:27-31 | the back-solved last row holds at least `orders`, and exactly `orders` when its percentage is at most 50 |
| Scenario.UpdateScenario | src/ScenarioPlanningApp.js:26-38 | same names, percentages and order as the starting table, and every row is the rounded share of the entry row; the entry is the least count reaching `orders` (the helper `Scenario.StartForTarget`, lines 27-28); the last row equals `orders` so revenue reaches the target; ratios are against the starting table's rows; the target is kept |
| Scenario.UpdateScenarioIgnoresTable | src/ScenarioPlanningApp.js:30 | the result depends only on the target, so earlier step edits are discarded |
| Scenario.UpdateScenarioIdempotent | src/ScenarioPlanningApp.js:26-38 | running the handler twice gives the same state as once |
| Scenario.UpdateScenarioRevenueIsLeast | src/ScenarioPlanningApp.js:27-31 | the new revenue is the least multiple of 55 not below the target |
| Scenario.UpdateScenarioIsFunnel | src/ScenarioPlanningApp.js:28-35 | for a non-negative target the recomputed values never grow from row to row |
| Scenario.ApplyEdit | src/ScenarioPlanningApp.js:43-45 | exactly the rows named `selectedStep` take the new percentage; names, values, ratios and positions stay the same |
| Scenario.ApplyEditUnknownName | src/ScenarioPlanningApp.js:43-45 | a name that matches no row leaves the table unchanged |
| Scenario.UpdateStep | src/ScenarioPlanningApp.js:40-57 | no-op on an empty selection or empty input (the guard of line 41, helper `Scenario.IsNoOp`); otherwise length, names and order are kept and only matching rows change percentage; every value rounds `oldEntryValue × percentage / 100`; ratios are against the old previous values; the target becomes `last.value × 55` (helper `Scenario.Revenue`, line 56) |
| Scenario.UpdateStepIsLocal | src/ScenarioPlanningApp.js:47-53 | on a consistent table, an edit away from the entry row keeps the entry value and every non-edited row's value, and the table stays consistent |
| Scenario.UpdateStepUnknownName | src/ScenarioPlanningApp.js:41-56 | an unknown name changes no percentage; on a consistent table it keeps every value and resets the target to the table's revenue |
| Scenario.OrdersOfRevenue | src/ScenarioPlanningApp.js:56 | the revenue `updateStep` writes, `k × 55`, asks for exactly `k` orders |
| Scenario.UpdateStepThenScenario | src/ScenarioPlanningApp.js:56 | after an edit, `updateScenario` on the written-back target gives a last row equal to the edited table's last row |
| StartingTableCases.InitialTargetIsInitialRevenue | src/ScenarioPlanningApp.js:11-18 | the starting target 22660 is the starting table's revenue, 412 × 55 |
| StartingTableCases.ScenarioForInitialTarget | src/ScenarioPlanningApp.js:26-35 | target 22660 gives 412 orders, entry 69831, and the table 69831, 33393, 29315, 12863, 10098, 3897, 1760, 412 |
| StartingTableCases.RatioUsesStaleRow | src/ScenarioPlanningApp.js:32-33 | with target 45320 the "Generate print" ratio shows above 95% although the row is under 48% of the new entry row |
| StartingTableCases.EditMovesOnlyThatRow | src/ScenarioPlanningApp.js:43-53 | on the table `updateScenario` builds for 22660, setting "Customize band" to 50% moves only that row, to 34916; the target stays 22660; the next row's ratio uses the old value |
| StartingTableCases.EntryEditBreaksFunnel | src/ScenarioPlanningApp.js:47-50 | on the table `updateScenario` builds for 22660, setting the entry row to 40% drops it to 27932 while the next row stays 33393 |
| StartingTableCases.EditOnStartingTableMovesOtherRows | src/ScenarioPlanningApp.js:3-12 | the starting table is not consistent, so setting "Customize band" to 50% right after load also moves rows 1, 2, 4 and 6 (33393 to 33390, 29312 to 29313, 10099 to 10097, 1757 to 1760); the target stays 22660 |

## Left out

- React state hooks, `useCallback` memoisation and the input handlers are left out. State is an explicit value passed in and returned.
- JSX rendering, `toLocaleString` and `toFixed` are left out because they are presentation only.
- `parseFloat` of the percentage input and `Number(...)` of the target input are left out. The percentage arrives parsed as `Option<real>`, where `None` stands for the empty input string that the guard on line 41 rejects. NaN and other unparsable inputs are not modelled.
- IEEE-754 doubles are replaced by exact rationals. At rounding boundaries the app's floating-point results may differ from the model's by one unit.
- Scenario.UpdateStep: requires a non-empty table once past the guard of line 41. The source reads `updatedData[0]` at line 47 and would throw on an empty table there; on an empty table the guarded no-op is modelled. The app's table always has eight rows, and both handlers preserve the length.
