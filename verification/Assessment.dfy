/** The verdict of the performance gate (`assess`): per case and metric, is the A/A noise
    acceptable, and does the candidate stay within its budgets? */
module Assessment {
  import opened Wrappers
  import opened Ordering
  import opened Statistics

  /** The validated measurements of one sample, by metric name. */
  type Metrics = map<string, real>

  /** One paired observation: the base run and the candidate run. */
  datatype Pair = Pair(left: Metrics, right: Metrics)

  datatype Budget = Budget(absolute: real, relative: real, limit: real)

  datatype Result = Noisy | Calibrated | Pass | OverBudget | Regressed {
    predicate Failing() { this == Noisy || this == OverBudget || this == Regressed }
  }

  datatype Comparison = Comparison(
    baseline: real, candidate: real, difference: real, lower: real, threshold: real)

  datatype Calibration = Calibration(noise: real, noiseP90: real, noiseLimit: real)

  datatype Row = Row(
    case_: string, metric: string, calibration: Calibration, comparison: Option<Comparison>, result: Result)

  // ----- the columns of a list of pairs -----

  ghost predicate Measured(pairs: seq<Pair>, metric: string) {
    && pairs != []
    && forall i :: 0 <= i < |pairs| ==> metric in pairs[i].left && metric in pairs[i].right
  }

  function Lefts(pairs: seq<Pair>, metric: string): (s: seq<real>)
    requires Measured(pairs, metric)
    ensures |s| == |pairs| && forall i :: 0 <= i < |s| ==> s[i] == pairs[i].left[metric]
  {
    seq(|pairs|, i requires 0 <= i < |pairs| => pairs[i].left[metric])
  }

  function Rights(pairs: seq<Pair>, metric: string): (s: seq<real>)
    requires Measured(pairs, metric)
    ensures |s| == |pairs| && forall i :: 0 <= i < |s| ==> s[i] == pairs[i].right[metric]
  {
    seq(|pairs|, i requires 0 <= i < |pairs| => pairs[i].right[metric])
  }

  function Differences(pairs: seq<Pair>, metric: string): (s: seq<real>)
    requires Measured(pairs, metric)
    ensures |s| == |pairs| && forall i :: 0 <= i < |s| ==> s[i] == pairs[i].right[metric] - pairs[i].left[metric]
  {
    seq(|pairs|, i requires 0 <= i < |pairs| => pairs[i].right[metric] - pairs[i].left[metric])
  }

  function Abs(x: real): real { if x < 0.0 then -x else x }

  function Deviations(pairs: seq<Pair>, metric: string): (s: seq<real>)
    requires Measured(pairs, metric)
    ensures |s| == |pairs|
    ensures forall i :: 0 <= i < |s| ==> s[i] == Abs(pairs[i].right[metric] - pairs[i].left[metric])
  {
    seq(|pairs|, i requires 0 <= i < |pairs| => Abs(pairs[i].right[metric] - pairs[i].left[metric]))
  }

  /** `[value for pair in calibration for value in pair]`. */
  function Flattened(pairs: seq<Pair>, metric: string): (s: seq<real>)
    requires forall i :: 0 <= i < |pairs| ==> metric in pairs[i].left && metric in pairs[i].right
    ensures |s| == 2 * |pairs|
    ensures forall i :: 0 <= i < |pairs| ==> s[2 * i] == pairs[i].left[metric] && s[2 * i + 1] == pairs[i].right[metric]
  {
    if pairs == [] then []
    else [pairs[0].left[metric], pairs[0].right[metric]] + Flattened(pairs[1..], metric)
  }

  function Larger(a: real, b: real): real { if b > a then b else a }

  lemma {:induction false} BeyondLarger(x: real, a: real, b: real)
    ensures x > Larger(a, b) <==> x > a && x > b
  {
  }

  // ----- one row -----

  function CompareColumns(draws: Draws, budget: Budget, lefts: seq<real>, rights: seq<real>,
                          differences: seq<real>): Comparison
    requires ValidDraws(draws) && lefts != [] && rights != [] && differences != []
  {
    Comparison(Median(lefts), Median(rights), Median(differences), ConfidenceLower(draws, differences),
               Larger(budget.absolute, budget.relative * Median(lefts)))
  }

  function CompareOne(draws: Draws, budget: Budget, pairs: seq<Pair>, metric: string): Comparison
    requires ValidDraws(draws) && Measured(pairs, metric)
  {
    CompareColumns(draws, budget, Lefts(pairs, metric), Rights(pairs, metric), Differences(pairs, metric))
  }

  function Judge(budget: Budget, c: Comparison): Result {
    if c.candidate > budget.limit then OverBudget
    else if c.lower > c.threshold then Regressed
    else Pass
  }

  function CalibrateFrom(budget: Budget, deviations: seq<real>, values: seq<real>): Calibration
    requires deviations != [] && values != []
  {
    Calibration(Median(deviations), Quantile(deviations, 0.9),
                Larger(budget.absolute, budget.relative * Median(values)))
  }

  function Calibrate(budget: Budget, controls: seq<Pair>, metric: string): Calibration
    requires Measured(controls, metric)
  {
    CalibrateFrom(budget, Deviations(controls, metric), Flattened(controls, metric))
  }

  function AssessOne(draws: Draws, budget: Budget, controls: seq<Pair>, comparisons: Option<seq<Pair>>,
                     case_: string, metric: string): Row
    requires ValidDraws(draws) && Measured(controls, metric)
    requires comparisons.Some? ==> Measured(comparisons.value, metric)
  {
    var calibration := Calibrate(budget, controls, metric);
    if calibration.noise > calibration.noiseLimit then Row(case_, metric, calibration, None, Noisy)
    else if comparisons.None? then Row(case_, metric, calibration, None, Calibrated)
    else
      var c := CompareOne(draws, budget, comparisons.value, metric);
      Row(case_, metric, calibration, Some(c), Judge(budget, c))
  }

  // ----- what decides a row -----

  /** The controls vary too much: their median deviation exceeds both allowances. */
  ghost predicate TooNoisy(budget: Budget, controls: seq<Pair>, metric: string)
    requires Measured(controls, metric)
  {
    var noise := Median(Deviations(controls, metric));
    noise > budget.absolute && noise > budget.relative * Median(Flattened(controls, metric))
  }

  /** The candidate is slower by more than both allowances, with confidence. */
  ghost predicate Slowed(draws: Draws, budget: Budget, pairs: seq<Pair>, metric: string)
    requires ValidDraws(draws) && Measured(pairs, metric)
  {
    var lower := ConfidenceLower(draws, Differences(pairs, metric));
    lower > budget.absolute && lower > budget.relative * Median(Lefts(pairs, metric))
  }

  lemma {:induction false} CalibrationVerdict(draws: Draws, budget: Budget, controls: seq<Pair>, case_: string, metric: string)
    requires ValidDraws(draws) && Measured(controls, metric)
    ensures var row := AssessOne(draws, budget, controls, None, case_, metric);
      && row.result == (if TooNoisy(budget, controls, metric) then Noisy else Calibrated)
      && row.calibration.noise == Median(Deviations(controls, metric))
      && row.calibration.noiseP90 == Quantile(Deviations(controls, metric), 0.9)
  {
    BeyondLarger(Median(Deviations(controls, metric)), budget.absolute,
                 budget.relative * Median(Flattened(controls, metric)));
  }

  lemma {:induction false} PairedVerdict(draws: Draws, budget: Budget, pairs: seq<Pair>, metric: string)
    requires ValidDraws(draws) && Measured(pairs, metric)
    ensures Judge(budget, CompareOne(draws, budget, pairs, metric)) ==
      if Median(Rights(pairs, metric)) > budget.limit then OverBudget
      else if Slowed(draws, budget, pairs, metric) then Regressed else Pass
  {
    BeyondLarger(ConfidenceLower(draws, Differences(pairs, metric)), budget.absolute,
                 budget.relative * Median(Lefts(pairs, metric)));
  }

  /** Noise comes first, then the fixed budget of the candidate, then the paired increase. */
  lemma {:induction false} ComparisonVerdict(draws: Draws, budget: Budget, controls: seq<Pair>, pairs: seq<Pair>,
                                             case_: string, metric: string)
    requires ValidDraws(draws) && Measured(controls, metric) && Measured(pairs, metric)
    ensures var result := AssessOne(draws, budget, controls, Some(pairs), case_, metric).result;
      var over := Median(Rights(pairs, metric)) > budget.limit;
      && (result == Noisy <==> TooNoisy(budget, controls, metric))
      && (result == OverBudget <==> result != Noisy && over)
      && (result == Regressed <==> result != Noisy && !over && Slowed(draws, budget, pairs, metric))
      && (result == Pass <==> result != Noisy && !over && !Slowed(draws, budget, pairs, metric))
  {
    BeyondLarger(Median(Deviations(controls, metric)), budget.absolute,
                 budget.relative * Median(Flattened(controls, metric)));
    PairedVerdict(draws, budget, pairs, metric);
  }

  lemma {:induction false} RowReports(draws: Draws, budget: Budget, controls: seq<Pair>, pairs: seq<Pair>,
                                      case_: string, metric: string)
    requires ValidDraws(draws) && Measured(controls, metric) && Measured(pairs, metric)
    requires !TooNoisy(budget, controls, metric)
    ensures var comparison := AssessOne(draws, budget, controls, Some(pairs), case_, metric).comparison;
      && comparison.Some?
      && comparison.value.baseline == Median(Lefts(pairs, metric))
      && comparison.value.candidate == Median(Rights(pairs, metric))
      && comparison.value.difference == Median(Differences(pairs, metric))
      && comparison.value.lower == ConfidenceLower(draws, Differences(pairs, metric))
  {
    BeyondLarger(Median(Deviations(controls, metric)), budget.absolute,
                 budget.relative * Median(Flattened(controls, metric)));
  }

  /** Candidate runs all within the limit are never over budget; all beyond it, they are. */
  lemma {:induction false} LimitDecides(draws: Draws, budget: Budget, controls: seq<Pair>, pairs: seq<Pair>,
                                        case_: string, metric: string)
    requires ValidDraws(draws) && Measured(controls, metric) && Measured(pairs, metric)
    ensures var result := AssessOne(draws, budget, controls, Some(pairs), case_, metric).result;
      && ((forall i :: 0 <= i < |pairs| ==> pairs[i].right[metric] <= budget.limit) ==> result != OverBudget)
      && ((forall i :: 0 <= i < |pairs| ==> pairs[i].right[metric] > budget.limit) ==>
            result == OverBudget || result == Noisy)
  {
    var rights := Rights(pairs, metric);
    var low, high := Ascending(rights)[0], Ascending(rights)[|rights| - 1];
    ComparisonVerdict(draws, budget, controls, pairs, case_, metric);
    forall i | 0 <= i < |rights| ensures low <= rights[i] <= high {
      Extremes(rights, i);
    }
    MedianBounds(rights, low, high);
    RankIsValue(rights, 0);
    RankIsValue(rights, |rights| - 1);
  }

  /** Controls whose runs differ by no more than the absolute allowance are never noisy. */
  lemma {:induction false} QuietControls(draws: Draws, budget: Budget, controls: seq<Pair>, pairs: Option<seq<Pair>>,
                                         case_: string, metric: string)
    requires ValidDraws(draws) && Measured(controls, metric) && (pairs.Some? ==> Measured(pairs.value, metric))
    requires forall i :: 0 <= i < |controls| ==>
      -budget.absolute <= controls[i].right[metric] - controls[i].left[metric] <= budget.absolute
    ensures AssessOne(draws, budget, controls, pairs, case_, metric).result != Noisy
  {
    var deviations := Deviations(controls, metric);
    MedianBounds(deviations, 0.0, budget.absolute);
    CalibrationVerdict(draws, budget, controls, case_, metric);
  }

  // ----- all rows -----

  /** What is judged: the budget of every metric, the judged metrics of every case in the
      order of the report, and the fixed draws of the bootstrap. */
  datatype Policy = Policy(budgets: map<string, Budget>, judged: map<string, seq<string>>, draws: Draws)

  type Observations = map<string, seq<Pair>>

  datatype Cell = Cell(case_: string, metric: string)

  function CaseCells(case_: string, metrics: seq<string>): (cells: seq<Cell>)
    ensures |cells| == |metrics| && forall i :: 0 <= i < |cells| ==> cells[i] == Cell(case_, metrics[i])
  {
    seq(|metrics|, i requires 0 <= i < |metrics| => Cell(case_, metrics[i]))
  }

  /** Every (case, metric) that is judged, in report order. */
  function Cells(policy: Policy, cases: seq<string>): seq<Cell>
    requires forall c :: 0 <= c < |cases| ==> cases[c] in policy.judged
  {
    if cases == [] then [] else
      var n := |cases| - 1;
      assert forall c :: 0 <= c < n ==> cases[..n][c] == cases[c];
      Cells(policy, cases[..n]) + CaseCells(cases[n], policy.judged[cases[n]])
  }

  ghost predicate HasCell(pairs: Observations, cell: Cell) {
    cell.case_ in pairs && Measured(pairs[cell.case_], cell.metric)
  }

  ghost predicate Judgeable(policy: Policy, cell: Cell, controls: Observations, comparisons: Option<Observations>) {
    && ValidDraws(policy.draws) && cell.metric in policy.budgets
    && HasCell(controls, cell) && (comparisons.Some? ==> HasCell(comparisons.value, cell))
  }

  ghost predicate AllJudgeable(policy: Policy, cells: seq<Cell>, controls: Observations,
                               comparisons: Option<Observations>) {
    forall i :: 0 <= i < |cells| ==> Judgeable(policy, cells[i], controls, comparisons)
  }

  ghost predicate Ready(policy: Policy, cases: seq<string>, controls: Observations,
                        comparisons: Option<Observations>) {
    && (forall c :: 0 <= c < |cases| ==> cases[c] in policy.judged)
    && AllJudgeable(policy, Cells(policy, cases), controls, comparisons)
  }

  function CellRow(policy: Policy, cell: Cell, controls: Observations, comparisons: Option<Observations>): Row
    requires Judgeable(policy, cell, controls, comparisons)
  {
    AssessOne(policy.draws, policy.budgets[cell.metric], controls[cell.case_],
              if comparisons.None? then None else Some(comparisons.value[cell.case_]), cell.case_, cell.metric)
  }

  function Rows(policy: Policy, cells: seq<Cell>, controls: Observations,
                comparisons: Option<Observations>): (rows: seq<Row>)
    requires AllJudgeable(policy, cells, controls, comparisons)
    ensures |rows| == |cells|
    ensures forall i :: 0 <= i < |cells| ==> rows[i] == CellRow(policy, cells[i], controls, comparisons)
  {
    seq(|cells|, i requires 0 <= i < |cells| => CellRow(policy, cells[i], controls, comparisons))
  }

  function Failing(rows: seq<Row>): seq<Row> {
    if rows == [] then [] else
      Failing(rows[..|rows| - 1]) + if rows[|rows| - 1].result.Failing() then [rows[|rows| - 1]] else []
  }

  function IfFailing(row: Row): seq<Row> { if row.result.Failing() then [row] else [] }

  lemma {:induction false} FailingLast(rows: seq<Row>, row: Row)
    ensures Failing(rows + [row]) == Failing(rows) + IfFailing(row)
  {
    assert (rows + [row])[..|rows|] == rows;
  }

  lemma {:induction false} FailingConcat(a: seq<Row>, b: seq<Row>)
    ensures Failing(a + b) == Failing(a) + Failing(b)
  {
    if b == [] {
      assert a + b == a;
    } else {
      var n: nat :| |b| == n + 1;
      var init, last := b[..n], b[n];
      FailingConcat(a, init);
      FailingLast(init, last);
      FailingLast(a + init, last);
      assert b == init + [last] && a + b == (a + init) + [last];
      Associative(Failing(a), Failing(init), IfFailing(last));
    }
  }

  lemma {:induction false} RowsConcat(policy: Policy, a: seq<Cell>, b: seq<Cell>, controls: Observations,
                                      comparisons: Option<Observations>)
    requires AllJudgeable(policy, a, controls, comparisons) && AllJudgeable(policy, b, controls, comparisons)
    ensures AllJudgeable(policy, a + b, controls, comparisons)
    ensures Rows(policy, a + b, controls, comparisons)
         == Rows(policy, a, controls, comparisons) + Rows(policy, b, controls, comparisons)
  {
  }

  lemma {:induction false} Judged(policy: Policy, cells: seq<Cell>, cell: Cell, controls: Observations,
                                  comparisons: Option<Observations>)
    requires AllJudgeable(policy, cells, controls, comparisons) && Judgeable(policy, cell, controls, comparisons)
    ensures AllJudgeable(policy, cells + [cell], controls, comparisons)
    ensures var row := CellRow(policy, cell, controls, comparisons);
      var rows := Rows(policy, cells, controls, comparisons);
      && Rows(policy, cells + [cell], controls, comparisons) == rows + [row]
      && Failing(rows + [row]) == Failing(rows) + if row.result.Failing() then [row] else []
  {
    RowsConcat(policy, cells, [cell], controls, comparisons);
    var rows := Rows(policy, cells, controls, comparisons);
    assert Rows(policy, [cell], controls, comparisons) == [CellRow(policy, cell, controls, comparisons)];
    FailingConcat(rows, [CellRow(policy, cell, controls, comparisons)]);
  }

  /** The inner loop of `assess`, over the metrics of one case. */
  method AssessCase(policy: Policy, case_: string, metrics: seq<string>, controls: Observations,
                    comparisons: Option<Observations>)
    returns (rows: seq<Row>, failures: seq<Row>)
    requires AllJudgeable(policy, CaseCells(case_, metrics), controls, comparisons)
    ensures rows == Rows(policy, CaseCells(case_, metrics), controls, comparisons)
    ensures failures == Failing(rows)
  {
    rows, failures := [], [];
    ghost var cells := CaseCells(case_, metrics);
    for m := 0 to |metrics|
      invariant AllJudgeable(policy, cells[..m], controls, comparisons)
      invariant rows == Rows(policy, cells[..m], controls, comparisons)
      invariant failures == Failing(rows)
    {
      assert Judgeable(policy, cells[m], controls, comparisons);
      var row := CellRow(policy, Cell(case_, metrics[m]), controls, comparisons);
      PrefixStep(cells, m);
      Judged(policy, cells[..m], cells[m], controls, comparisons);
      rows := rows + [row];
      if row.result.Failing() {
        failures := failures + [row];
      }
    }
    assert cells[..|cells|] == cells;
  }

  lemma {:induction false} JudgeableParts(policy: Policy, a: seq<Cell>, b: seq<Cell>, cells: seq<Cell>,
                                          controls: Observations, comparisons: Option<Observations>)
    requires AllJudgeable(policy, cells, controls, comparisons) && a + b <= cells
    ensures AllJudgeable(policy, a, controls, comparisons) && AllJudgeable(policy, b, controls, comparisons)
  {
    forall i | 0 <= i < |a| ensures Judgeable(policy, a[i], controls, comparisons) {
      assert a[i] == (a + b)[i] == cells[i];
    }
    forall i | 0 <= i < |b| ensures Judgeable(policy, b[i], controls, comparisons) {
      assert b[i] == (a + b)[|a| + i] == cells[|a| + i];
    }
  }

  lemma {:induction false} ReadyCase(policy: Policy, cases: seq<string>, c: nat, controls: Observations,
                                     comparisons: Option<Observations>)
    requires Ready(policy, cases, controls, comparisons) && c < |cases|
    ensures var mine := CaseCells(cases[c], policy.judged[cases[c]]);
      && Cells(policy, cases[..c + 1]) == Cells(policy, cases[..c]) + mine
      && AllJudgeable(policy, mine, controls, comparisons)
      && AllJudgeable(policy, Cells(policy, cases[..c]), controls, comparisons)
  {
    CellsPrefix(policy, cases, c + 1);
    assert cases[..c + 1][..c] == cases[..c];
    JudgeableParts(policy, Cells(policy, cases[..c]), CaseCells(cases[c], policy.judged[cases[c]]),
                   Cells(policy, cases), controls, comparisons);
  }

  /** `assess`: the rows of the report, and those among them that fail. */
  method Assess(policy: Policy, cases: seq<string>, controls: Observations, comparisons: Option<Observations>)
    returns (rows: seq<Row>, failures: seq<Row>)
    requires Ready(policy, cases, controls, comparisons)
    ensures rows == Rows(policy, Cells(policy, cases), controls, comparisons)
    ensures failures == Failing(rows)
  {
    rows, failures := [], [];
    for c := 0 to |cases|
      invariant AllJudgeable(policy, Cells(policy, cases[..c]), controls, comparisons)
      invariant rows == Rows(policy, Cells(policy, cases[..c]), controls, comparisons)
      invariant failures == Failing(rows)
    {
      ReadyCase(policy, cases, c, controls, comparisons);
      var more, failed := AssessCase(policy, cases[c], policy.judged[cases[c]], controls, comparisons);
      RowsConcat(policy, Cells(policy, cases[..c]), CaseCells(cases[c], policy.judged[cases[c]]), controls, comparisons);
      FailingConcat(rows, more);
      rows, failures := rows + more, failures + failed;
    }
    assert cases[..|cases|] == cases;
  }

  lemma {:induction false} CellsPrefix(policy: Policy, cases: seq<string>, n: nat)
    requires n <= |cases| && forall c :: 0 <= c < |cases| ==> cases[c] in policy.judged
    ensures Cells(policy, cases[..n]) <= Cells(policy, cases)
    decreases |cases|
  {
    if n == |cases| {
      assert cases[..n] == cases;
    } else {
      CellsPrefix(policy, cases[..|cases| - 1], n);
      assert cases[..|cases| - 1][..n] == cases[..n];
    }
  }

  // ----- what a verdict means -----

  /** The cells are the judged metrics of the cases, all of them and no others. */
  lemma {:induction false} CellsExact(policy: Policy, cases: seq<string>, cell: Cell)
    requires forall c :: 0 <= c < |cases| ==> cases[c] in policy.judged
    ensures cell in Cells(policy, cases) <==> cell.case_ in cases && cell.metric in policy.judged[cell.case_]
  {
    if cases != [] {
      var n: nat :| |cases| == n + 1;
      var mine := CaseCells(cases[n], policy.judged[cases[n]]);
      CellsExact(policy, cases[..n], cell);
      assert Cells(policy, cases) == Cells(policy, cases[..n]) + mine;
      assert cases == cases[..n] + [cases[n]];
      CaseCellsExact(cases[n], policy.judged[cases[n]], cell);
    }
  }

  lemma {:induction false} CaseCellsExact(case_: string, metrics: seq<string>, cell: Cell)
    ensures cell in CaseCells(case_, metrics) <==> cell.case_ == case_ && cell.metric in metrics
  {
    var cells := CaseCells(case_, metrics);
    if cell.case_ == case_ && cell.metric in metrics {
      var i :| 0 <= i < |metrics| && metrics[i] == cell.metric;
      assert cells[i] == cell;
    }
  }

  /** No failure is reported exactly when no row fails. */
  lemma {:induction false} PassesIffNoFailingRow(rows: seq<Row>)
    ensures Failing(rows) == [] <==> forall i :: 0 <= i < |rows| ==> !rows[i].result.Failing()
  {
    if rows != [] {
      PassesIffNoFailingRow(rows[..|rows| - 1]);
    }
  }

  /** The same base runs, and candidate runs that are pointwise no faster. */
  ghost predicate Raised(pairs: seq<Pair>, worse: seq<Pair>, metric: string)
    requires Measured(pairs, metric) && Measured(worse, metric)
  {
    && |pairs| == |worse|
    && forall i :: 0 <= i < |pairs| ==>
         pairs[i].left[metric] == worse[i].left[metric] && pairs[i].right[metric] <= worse[i].right[metric]
  }

  lemma {:induction false} ColumnsRaised(pairs: seq<Pair>, worse: seq<Pair>, metric: string)
    requires Measured(pairs, metric) && Measured(worse, metric) && Raised(pairs, worse, metric)
    ensures Lefts(pairs, metric) == Lefts(worse, metric)
    ensures PointwiseAtMost(Rights(pairs, metric), Rights(worse, metric))
    ensures PointwiseAtMost(Differences(pairs, metric), Differences(worse, metric))
  {
  }

  lemma {:induction false} ColumnsMonotone(draws: Draws, budget: Budget, lefts: seq<real>, rights: seq<real>,
                                           differences: seq<real>, rights': seq<real>, differences': seq<real>)
    requires ValidDraws(draws) && lefts != [] && rights != [] && differences != []
    requires PointwiseAtMost(rights, rights') && PointwiseAtMost(differences, differences')
    ensures var c := CompareColumns(draws, budget, lefts, rights, differences);
      var c' := CompareColumns(draws, budget, lefts, rights', differences');
      c.candidate <= c'.candidate && c.lower <= c'.lower && c.threshold == c'.threshold
  {
    MedianMonotone(rights, rights');
    ConfidenceMonotone(draws, differences, differences');
  }

  /** Slower candidates never make a failing row pass. */
  lemma {:induction false} RowMonotone(draws: Draws, budget: Budget, controls: seq<Pair>, pairs: seq<Pair>,
                                       worse: seq<Pair>, case_: string, metric: string)
    requires ValidDraws(draws) && Measured(controls, metric) && Measured(pairs, metric) && Measured(worse, metric)
    requires Raised(pairs, worse, metric)
    ensures AssessOne(draws, budget, controls, Some(pairs), case_, metric).result.Failing() ==>
            AssessOne(draws, budget, controls, Some(worse), case_, metric).result.Failing()
  {
    ColumnsRaised(pairs, worse, metric);
    ColumnsMonotone(draws, budget, Lefts(pairs, metric), Rights(pairs, metric), Differences(pairs, metric),
                    Rights(worse, metric), Differences(worse, metric));
  }

  /** The cell has the same base runs in both, and candidate runs that are pointwise no faster. */
  ghost predicate RaisedCell(cell: Cell, comparisons: Observations, worse: Observations) {
    && HasCell(comparisons, cell) && HasCell(worse, cell)
    && Raised(comparisons[cell.case_], worse[cell.case_], cell.metric)
  }

  lemma {:induction false} CellMonotone(policy: Policy, cell: Cell, controls: Observations, comparisons: Observations,
                                        worse: Observations)
    requires Judgeable(policy, cell, controls, Some(comparisons)) && Judgeable(policy, cell, controls, Some(worse))
    requires RaisedCell(cell, comparisons, worse)
    ensures CellRow(policy, cell, controls, Some(comparisons)).result.Failing() ==>
            CellRow(policy, cell, controls, Some(worse)).result.Failing()
  {
    RowMonotone(policy.draws, policy.budgets[cell.metric], controls[cell.case_], comparisons[cell.case_],
                worse[cell.case_], cell.case_, cell.metric);
  }

  /** Raising candidate measurements, with controls and baselines fixed, never turns a
      failing verdict into a passing one. */
  lemma {:induction false} VerdictMonotone(policy: Policy, cells: seq<Cell>, controls: Observations,
                                           comparisons: Observations, worse: Observations)
    requires AllJudgeable(policy, cells, controls, Some(comparisons))
    requires AllJudgeable(policy, cells, controls, Some(worse))
    requires forall i :: 0 <= i < |cells| ==> RaisedCell(cells[i], comparisons, worse)
    ensures Failing(Rows(policy, cells, controls, Some(comparisons))) != [] ==>
            Failing(Rows(policy, cells, controls, Some(worse))) != []
  {
    var rows, rows' := Rows(policy, cells, controls, Some(comparisons)), Rows(policy, cells, controls, Some(worse));
    forall i | 0 <= i < |cells| ensures rows[i].result.Failing() ==> rows'[i].result.Failing() {
      CellMonotone(policy, cells[i], controls, comparisons, worse);
    }
    PassesIffNoFailingRow(rows);
    PassesIffNoFailingRow(rows');
  }

  /** Differences all within the threshold are never called a regression; differences all
      beyond it never pass. */
  lemma {:induction false} ThresholdDecides(draws: Draws, budget: Budget, controls: seq<Pair>, pairs: seq<Pair>,
                                            case_: string, metric: string)
    requires ValidDraws(draws) && Measured(controls, metric) && Measured(pairs, metric)
    ensures var row := AssessOne(draws, budget, controls, Some(pairs), case_, metric);
      var threshold := CompareOne(draws, budget, pairs, metric).threshold;
      var differences := Differences(pairs, metric);
      && ((forall i :: 0 <= i < |differences| ==> differences[i] <= threshold) ==> row.result != Regressed)
      && ((forall i :: 0 <= i < |differences| ==> differences[i] > threshold) ==> row.result.Failing())
  {
    var threshold := CompareOne(draws, budget, pairs, metric).threshold;
    var differences := Differences(pairs, metric);
    var low, high := Ascending(differences)[0], Ascending(differences)[|differences| - 1];
    forall i | 0 <= i < |differences| ensures low <= differences[i] <= high {
      Extremes(differences, i);
    }
    ConfidenceBounds(draws, differences, low, high);
    RankIsValue(differences, 0);
    RankIsValue(differences, |differences| - 1);
  }

  // ----- the A/A stage does not depend on which side is which -----

  ghost predicate SwappedSides(controls: seq<Pair>, swapped: seq<Pair>) {
    && |controls| == |swapped|
    && forall i :: 0 <= i < |controls| ==>
         swapped[i] == controls[i] || swapped[i] == Pair(controls[i].right, controls[i].left)
  }

  lemma {:induction false} FlattenedSwapped(controls: seq<Pair>, swapped: seq<Pair>, metric: string)
    requires SwappedSides(controls, swapped)
    requires forall i :: 0 <= i < |controls| ==> metric in controls[i].left && metric in controls[i].right
    ensures multiset(Flattened(controls, metric)) == multiset(Flattened(swapped, metric))
  {
    if controls != [] {
      FlattenedSwapped(controls[1..], swapped[1..], metric);
    }
  }

  lemma {:induction false} CalibrateFromMultiset(budget: Budget, deviations: seq<real>, a: seq<real>, b: seq<real>)
    requires deviations != [] && a != [] && b != [] && multiset(a) == multiset(b)
    ensures CalibrateFrom(budget, deviations, a) == CalibrateFrom(budget, deviations, b)
  {
    MedianOfMultiset(a, b);
  }

  lemma {:induction false} CalibrationSymmetric(budget: Budget, controls: seq<Pair>, swapped: seq<Pair>, metric: string)
    requires Measured(controls, metric) && Measured(swapped, metric) && SwappedSides(controls, swapped)
    ensures Calibrate(budget, controls, metric) == Calibrate(budget, swapped, metric)
  {
    var deviations := Deviations(controls, metric);
    assert Deviations(swapped, metric) == deviations;
    FlattenedSwapped(controls, swapped, metric);
    CalibrateFromMultiset(budget, deviations, Flattened(controls, metric), Flattened(swapped, metric));
  }

  /** Exchanging the two runs of any A/A pair changes no row. */
  lemma {:induction false} NoiseSymmetric(draws: Draws, budget: Budget, controls: seq<Pair>, swapped: seq<Pair>,
                                          comparisons: Option<seq<Pair>>, case_: string, metric: string)
    requires ValidDraws(draws) && Measured(controls, metric) && Measured(swapped, metric)
    requires comparisons.Some? ==> Measured(comparisons.value, metric)
    requires SwappedSides(controls, swapped)
    ensures AssessOne(draws, budget, controls, comparisons, case_, metric)
         == AssessOne(draws, budget, swapped, comparisons, case_, metric)
  {
    CalibrationSymmetric(budget, controls, swapped, metric);
  }
}
