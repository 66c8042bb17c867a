/** One run of the performance gate: measure the calibration stage, judge its noise, measure
    the comparison stage, judge it. Any measurement may fail and end the run. */
module MeasurementRun {
  import opened Wrappers
  import opened Ordering
  import opened Statistics
  import opened Assessment
  import opened Schedule

  datatype Binary = BaseBinary | CandidateBinary

  /** What a fresh process reports for a turn, or None if the workload or its validation
      fails. Each turn is measured at most once, so a function loses nothing. */
  type Measure = (Binary, Turn) -> Option<Metrics>

  datatype Record = Record(turn: Turn, data: Metrics)

  datatype Verdict = Invalid | NoisyRun | FailedRun | PassedRun

  /** Calibration runs the base binary on both sides. */
  function BinaryFor(slot: Slot): Binary {
    if slot.stage.AA? || slot.side.Base? then BaseBinary else CandidateBinary
  }

  function Outcome(measure: Measure, turn: Turn): Option<Metrics> { measure(BinaryFor(turn.slot), turn) }

  ghost predicate Succeeds(measure: Measure, turns: seq<Turn>) {
    forall i :: 0 <= i < |turns| ==> Outcome(measure, turns[i]).Some?
  }

  /** The records of the turns up to the first that fails. */
  function Executed(measure: Measure, turns: seq<Turn>): seq<Record> {
    if turns == [] || Outcome(measure, turns[0]).None? then []
    else [Record(turns[0], Outcome(measure, turns[0]).value)] + Executed(measure, turns[1..])
  }

  lemma {:induction false} SucceedsConcat(measure: Measure, a: seq<Turn>, b: seq<Turn>)
    ensures Succeeds(measure, a + b) <==> Succeeds(measure, a) && Succeeds(measure, b)
  {
    assert forall i :: 0 <= i < |a| ==> (a + b)[i] == a[i];
    assert forall i :: 0 <= i < |b| ==> (a + b)[|a| + i] == b[i];
  }

  lemma {:induction false} ExecutedStep(measure: Measure, turns: seq<Turn>)
    requires turns != []
    ensures var first := Outcome(measure, turns[0]);
      && (Succeeds(measure, turns) <==> first.Some? && Succeeds(measure, turns[1..]))
      && Executed(measure, turns)
           == if first.Some? then [Record(turns[0], first.value)] + Executed(measure, turns[1..]) else []
  {
    SucceedsConcat(measure, [turns[0]], turns[1..]);
    assert [turns[0]] + turns[1..] == turns;
    assert Succeeds(measure, [turns[0]]) <==> Outcome(measure, [turns[0]][0]).Some?;
  }

  /** What is recorded before `tail`, then what `tail` adds if all before succeeded. */
  function Continued(records: seq<Record>, ok: bool, tail: seq<Record>): seq<Record> {
    if ok then records + tail else records
  }

  lemma {:induction false} ContinuedOnce(first: Record, records: seq<Record>, ok: bool, tail: seq<Record>)
    ensures [first] + Continued(records, ok, tail) == Continued([first] + records, ok, tail)
  {
    Associative([first], records, tail);
  }

  /** Executing two lists in turn: the second runs only if the first succeeded. */
  lemma {:induction false} ExecutedConcat(measure: Measure, a: seq<Turn>, b: seq<Turn>)
    ensures Executed(measure, a + b) == Continued(Executed(measure, a), Succeeds(measure, a), Executed(measure, b))
  {
    if a == [] {
      assert a + b == b && Executed(measure, a) == [];
    } else {
      assert (a + b)[0] == a[0] && (a + b)[1..] == a[1..] + b;
      ExecutedConcat(measure, a[1..], b);
      ExecutedStep(measure, a);
      ExecutedStep(measure, a + b);
      if Outcome(measure, a[0]).Some? {
        ContinuedOnce(Record(a[0], Outcome(measure, a[0]).value), Executed(measure, a[1..]),
                      Succeeds(measure, a[1..]), Executed(measure, b));
      }
    }
  }

  /** What has been recorded, and whether all of it succeeded. */
  ghost predicate Ran(measure: Measure, before: seq<Record>, turns: seq<Turn>, samples: seq<Record>, ok: bool) {
    samples == before + Executed(measure, turns) && (ok <==> Succeeds(measure, turns))
  }

  lemma {:induction false} RanThen(measure: Measure, before: seq<Record>, a: seq<Turn>, middle: seq<Record>,
                                   b: seq<Turn>, samples: seq<Record>, ok: bool)
    requires Ran(measure, before, a, middle, true) && Ran(measure, middle, b, samples, ok)
    ensures Ran(measure, before, a + b, samples, ok)
  {
    ExecutedConcat(measure, a, b);
    SucceedsConcat(measure, a, b);
    Associative(before, Executed(measure, a), Executed(measure, b));
  }

  lemma {:induction false} RanShort(measure: Measure, before: seq<Record>, a: seq<Turn>, b: seq<Turn>,
                                    samples: seq<Record>)
    requires Ran(measure, before, a, samples, false)
    ensures Ran(measure, before, a + b, samples, false)
  {
    ExecutedConcat(measure, a, b);
    SucceedsConcat(measure, a, b);
  }

  function TurnsOfRecords(records: seq<Record>): seq<Turn> {
    seq(|records|, i requires 0 <= i < |records| => records[i].turn)
  }

  lemma {:induction false} ExecutedWhole(measure: Measure, turns: seq<Turn>)
    requires Succeeds(measure, turns)
    ensures TurnsOfRecords(Executed(measure, turns)) == turns
  {
    if turns != [] {
      ExecutedWhole(measure, turns[1..]);
      assert forall i :: 0 <= i < |turns| - 1 ==> TurnsOfRecords(Executed(measure, turns))[i + 1] == turns[1..][i];
    }
  }

  // ----- the collected pairs -----

  function Data(value: Option<Metrics>): Metrics { if value.Some? then value.value else map[] }

  function PairOf(measure: Measure, stage: Stage, number: nat, case_: string): Pair {
    Pair(Data(Outcome(measure, Turn(case_, Slot(stage, number, Base)))),
         Data(Outcome(measure, Turn(case_, Slot(stage, number, Candidate)))))
  }

  function Collected(measure: Measure, stage: Stage, case_: string, n: nat): (pairs: seq<Pair>)
    ensures |pairs| == n
  {
    if n == 0 then [] else Collected(measure, stage, case_, n - 1) + [PairOf(measure, stage, n - 1, case_)]
  }

  function AfterCase(measure: Measure, plan: Plan, stage: Stage, number: nat, case_: string,
                     pairs: Observations): Observations {
    if case_ !in plan || number >= plan[case_].Of(stage) || case_ !in pairs then pairs
    else pairs[case_ := pairs[case_] + [PairOf(measure, stage, number, case_)]]
  }

  function AfterRound(measure: Measure, plan: Plan, stage: Stage, number: nat, order: seq<string>,
                      pairs: Observations): Observations {
    if order == [] then pairs else
      var n := |order| - 1;
      AfterCase(measure, plan, stage, number, order[n], AfterRound(measure, plan, stage, number, order[..n], pairs))
  }

  function AfterStage(measure: Measure, plan: Plan, stage: Stage, n: nat, cases: seq<string>,
                      pairs: Observations): Observations {
    if n == 0 then pairs else
      AfterRound(measure, plan, stage, n - 1, RoundOrder(cases, n - 1),
                 AfterStage(measure, plan, stage, n - 1, cases, pairs))
  }

  function AfterWholeStage(measure: Measure, plan: Plan, stage: Stage, cases: seq<string>,
                           pairs: Observations): Observations
    requires Planned(plan, cases)
  {
    AfterStage(measure, plan, stage, MostRounds(plan, cases, stage), cases, pairs)
  }

  function NoPairs(cases: seq<string>): Observations { map c | c in cases :: [] }

  lemma {:induction false} AfterRoundAt(measure: Measure, plan: Plan, stage: Stage, number: nat, order: seq<string>,
                                        pairs: Observations, case_: string)
    requires Distinct(order) && case_ in plan && case_ in pairs
    ensures var after := AfterRound(measure, plan, stage, number, order, pairs);
      && after.Keys == pairs.Keys
      && after[case_] == pairs[case_]
         + if case_ in order && number < plan[case_].Of(stage) then [PairOf(measure, stage, number, case_)] else []
  {
    if order != [] {
      var n := |order| - 1;
      AfterRoundAt(measure, plan, stage, number, order[..n], pairs, case_);
      LastCase(order, case_);
    }
  }

  lemma {:induction false} AfterOrderedRound(measure: Measure, plan: Plan, stage: Stage, number: nat,
                                             cases: seq<string>, pairs: Observations, case_: string)
    requires Distinct(cases) && case_ in cases && case_ in plan && case_ in pairs
    ensures var after := AfterRound(measure, plan, stage, number, RoundOrder(cases, number), pairs);
      && after.Keys == pairs.Keys
      && after[case_] == pairs[case_]
         + if number < plan[case_].Of(stage) then [PairOf(measure, stage, number, case_)] else []
  {
    RoundOrderCases(cases, number);
    AfterRoundAt(measure, plan, stage, number, RoundOrder(cases, number), pairs, case_);
  }

  lemma {:induction false} CollectedStep(measure: Measure, stage: Stage, case_: string, n: nat, declared: nat)
    ensures Collected(measure, stage, case_, Min(n + 1, declared))
         == Collected(measure, stage, case_, Min(n, declared))
            + if n < declared then [PairOf(measure, stage, n, case_)] else []
  {
  }

  lemma {:induction false} AfterStageNext(measure: Measure, plan: Plan, stage: Stage, n: nat, cases: seq<string>,
                                          case_: string)
    requires Distinct(cases) && case_ in cases && case_ in plan
    requires var before := AfterStage(measure, plan, stage, n, cases, NoPairs(cases));
      && before.Keys == NoPairs(cases).Keys
      && before[case_] == Collected(measure, stage, case_, Min(n, plan[case_].Of(stage)))
    ensures var after := AfterStage(measure, plan, stage, n + 1, cases, NoPairs(cases));
      && after.Keys == NoPairs(cases).Keys
      && after[case_] == Collected(measure, stage, case_, Min(n + 1, plan[case_].Of(stage)))
  {
    CollectedStep(measure, stage, case_, n, plan[case_].Of(stage));
    AfterOrderedRound(measure, plan, stage, n, cases, AfterStage(measure, plan, stage, n, cases, NoPairs(cases)), case_);
  }

  /** After a whole stage every case has its declared pairs, base first, whatever the order
      the two binaries ran in. */
  lemma {:induction false} AfterStageAt(measure: Measure, plan: Plan, stage: Stage, n: nat, cases: seq<string>,
                                        case_: string)
    requires Distinct(cases) && case_ in cases && case_ in plan
    ensures var after := AfterStage(measure, plan, stage, n, cases, NoPairs(cases));
      && after.Keys == NoPairs(cases).Keys
      && after[case_] == Collected(measure, stage, case_, Min(n, plan[case_].Of(stage)))
  {
    if n > 0 {
      var m: nat :| n == m + 1;
      AfterStageAt(measure, plan, stage, m, cases, case_);
      AfterStageNext(measure, plan, stage, m, cases, case_);
    }
  }

  // ----- the run -----

  class Session {
    const measure: Measure
    const plan: Plan
    const cases: seq<string>
    var samples: seq<Record>
    var controls: Observations
    var comparisons: Observations

    constructor (measure: Measure, plan: Plan, cases: seq<string>)
      ensures this.measure == measure && this.plan == plan && this.cases == cases
      ensures samples == [] && controls == NoPairs(cases) && comparisons == NoPairs(cases)
    {
      this.measure, this.plan, this.cases := measure, plan, cases;
      samples, controls, comparisons := [], NoPairs(cases), NoPairs(cases);
    }

    function Collection(stage: Stage): Observations
      reads this
    {
      if stage.AA? then controls else comparisons
    }

    function Other(stage: Stage): Observations
      reads this
    {
      if stage.AA? then comparisons else controls
    }

    method Sample(turn: Turn) returns (value: Option<Metrics>)
      modifies this`samples
      ensures value == Outcome(measure, turn)
      ensures samples == old(samples) + Executed(measure, [turn])
    {
      value := Outcome(measure, turn);
      if value.Some? {
        samples := samples + [Record(turn, value.value)];
      }
    }

    /** Both sides of one case in one round. */
    method RunPair(stage: Stage, number: nat, case_: string) returns (ok: bool)
      modifies this
      ensures Ran(measure, old(samples), CaseTurns(plan, stage, number, case_), samples, ok)
      ensures Other(stage) == old(Other(stage))
      ensures ok ==> Collection(stage) == AfterCase(measure, plan, stage, number, case_, old(Collection(stage)))
    {
      if case_ !in plan || number >= plan[case_].Of(stage) {
        return true;
      }
      var slots := RoundSlots(stage, number);
      ghost var a, b := [Turn(case_, slots[0])], [Turn(case_, slots[1])];
      assert CaseTurns(plan, stage, number, case_) == a + b;
      var first := Sample(Turn(case_, slots[0]));
      assert Ran(measure, old(samples), a, samples, first.Some?);
      if first.None? {
        RanShort(measure, old(samples), a, b, samples);
        return false;
      }
      ghost var middle := samples;
      var second := Sample(Turn(case_, slots[1]));
      assert Ran(measure, middle, b, samples, second.Some?);
      RanThen(measure, old(samples), a, middle, b, samples, second.Some?);
      if second.None? {
        return false;
      }
      var pair := if slots[0].side.Base? then Pair(first.value, second.value) else Pair(second.value, first.value);
      if stage.AA? && case_ in controls {
        controls := controls[case_ := controls[case_] + [pair]];
      } else if stage.AB? && case_ in comparisons {
        comparisons := comparisons[case_ := comparisons[case_] + [pair]];
      }
      return true;
    }

    /** One round over all cases. */
    method RunRound(stage: Stage, number: nat, order: seq<string>) returns (ok: bool)
      modifies this
      ensures Ran(measure, old(samples), RoundTurns(plan, stage, number, order), samples, ok)
      ensures Other(stage) == old(Other(stage))
      ensures ok ==> Collection(stage) == AfterRound(measure, plan, stage, number, order, old(Collection(stage)))
    {
      ghost var start, pairs := samples, Collection(stage);
      for c := 0 to |order|
        invariant Ran(measure, start, RoundTurns(plan, stage, number, order[..c]), samples, true)
        invariant Other(stage) == old(Other(stage))
        invariant Collection(stage) == AfterRound(measure, plan, stage, number, order[..c], pairs)
      {
        PrefixStep(order, c);
        ghost var middle := samples;
        ok := RunPair(stage, number, order[c]);
        RanThen(measure, start, RoundTurns(plan, stage, number, order[..c]), middle,
                CaseTurns(plan, stage, number, order[c]), samples, ok);
        if !ok {
          RoundCutShort(measure, plan, stage, number, order, c + 1, start, samples);
          return;
        }
      }
      assert order[..|order|] == order;
      return true;
    }

    /** The rounds of one stage, the order of the cases alternating. */
    method RunStage(stage: Stage) returns (ok: bool)
      requires Planned(plan, cases)
      modifies this
      ensures Ran(measure, old(samples), WholeStage(plan, cases, stage), samples, ok)
      ensures Other(stage) == old(Other(stage))
      ensures ok ==>
        Collection(stage) == AfterWholeStage(measure, plan, stage, cases, old(Collection(stage)))
    {
      ghost var start, pairs := samples, Collection(stage);
      var most, number := MostRounds(plan, cases, stage), 0;
      ok := true;
      while ok && number < most
        invariant number <= most
        invariant RoundsDone(measure, plan, cases, stage, number, start, pairs, samples, Collection(stage), ok)
        invariant Other(stage) == old(Other(stage))
      {
        ghost var middle, now := samples, Collection(stage);
        ok := RunRound(stage, number, RoundOrder(cases, number));
        OneMoreRound(measure, plan, cases, stage, number, start, pairs, middle, now, samples, Collection(stage), ok);
        number := number + 1;
      }
      if !ok {
        StagePrefix(plan, cases, stage, number, most);
        RanShorter(measure, start, StageTurns(plan, cases, stage, number), StageTurns(plan, cases, stage, most), samples);
      }
    }

    /** The calibration stage and its noise verdict. */
    method Calibrate(policy: Policy) returns (ok: bool, failures: seq<Row>)
      requires Planned(plan, cases) && Distinct(cases) && Gated(policy, measure, plan, cases)
      requires samples == [] && controls == NoPairs(cases) && comparisons == NoPairs(cases)
      modifies this
      ensures Ran(measure, [], WholeStage(plan, cases, AA), samples, ok)
      ensures comparisons == NoPairs(cases)
      ensures failures == CalibrationFailures(policy, measure, plan, cases)
      ensures ok ==> controls == StagePairs(measure, plan, cases, AA)
    {
      ok := RunStage(AA);
      if !ok {
        return false, [];
      }
      CalibrationReady(policy, measure, plan, cases);
      var rows;
      rows, failures := Assess(policy, cases, controls, None);
    }

    /** The comparison stage, the check of the record, and the final verdict. */
    method Compare(policy: Policy) returns (ok: bool, failures: seq<Row>)
      requires Planned(plan, cases) && Distinct(cases) && Gated(policy, measure, plan, cases)
      requires Ran(measure, [], WholeStage(plan, cases, AA), samples, true)
      requires controls == StagePairs(measure, plan, cases, AA) && comparisons == NoPairs(cases)
      modifies this
      ensures Ran(measure, [], WholePlan(plan, cases), samples, ok)
      ensures ok ==> Complete(measure, plan, cases, samples, controls, comparisons)
      ensures ok ==> failures == ComparisonFailures(policy, measure, plan, cases)
    {
      ghost var middle := samples;
      ok := RunStage(AB);
      RanThen(measure, [], WholeStage(plan, cases, AA), middle, WholeStage(plan, cases, AB), samples, ok);
      if !ok {
        return false, [];
      }
      CompleteRun(measure, plan, cases, samples);
      for c := 0 to |cases| {
        // The check of the source, that each case was observed as planned, never fires.
        assert CompleteCase(measure, plan, TurnsOfRecords(samples), controls, comparisons, cases[c]);
        assert Project(TurnsOfRecords(samples), cases[c]) == PairedSamples(plan[cases[c]]);
      }
      ComparisonReady(policy, measure, plan, cases);
      var rows;
      rows, failures := Assess(policy, cases, controls, Some(comparisons));
    }

    /** The whole run, from a fresh session. */
    method Evaluate(policy: Policy) returns (verdict: Verdict, failures: seq<Row>)
      requires Planned(plan, cases) && Distinct(cases) && Gated(policy, measure, plan, cases)
      requires samples == [] && controls == NoPairs(cases) && comparisons == NoPairs(cases)
      modifies this
      ensures verdict == NoisyRun <==>
        Succeeds(measure, WholeStage(plan, cases, AA)) && CalibrationFailures(policy, measure, plan, cases) != []
      ensures verdict == NoisyRun ==> failures == CalibrationFailures(policy, measure, plan, cases)
      ensures verdict == PassedRun || verdict == FailedRun <==>
        Succeeds(measure, WholePlan(plan, cases)) && CalibrationFailures(policy, measure, plan, cases) == []
      ensures verdict == PassedRun || verdict == FailedRun ==>
        && Complete(measure, plan, cases, samples, controls, comparisons)
        && Succeeds(measure, WholePlan(plan, cases))
        && failures == ComparisonFailures(policy, measure, plan, cases)
        && (verdict == PassedRun <==> failures == [])
    {
      WholeStages(measure, plan, cases);
      var ok;
      ok, failures := Calibrate(policy);
      if !ok {
        return Invalid, [];
      }
      if failures != [] {
        return NoisyRun, failures;
      }
      ok, failures := Compare(policy);
      if !ok {
        return Invalid, [];
      }
      verdict := if failures == [] then PassedRun else FailedRun;
    }
  }

  // ----- what the run is judged on -----

  /** Controls or comparisons after the whole of a stage succeeded. */
  function StagePairs(measure: Measure, plan: Plan, cases: seq<string>, stage: Stage): Observations
    requires Planned(plan, cases)
  {
    AfterWholeStage(measure, plan, stage, cases, NoPairs(cases))
  }

  /** What planning and validation guarantee: a budget for every judged metric, at least one
      round of each stage, and every judged metric in every accepted measurement. */
  ghost predicate Gated(policy: Policy, measure: Measure, plan: Plan, cases: seq<string>) {
    && ValidDraws(policy.draws)
    && forall c :: c in cases ==>
         && c in plan && plan[c].calibration > 0 && plan[c].comparison > 0
         && c in policy.judged
         && forall m :: m in policy.judged[c] ==>
              && m in policy.budgets
              && forall slot :: var data := Outcome(measure, Turn(c, slot)); data.Some? ==> m in data.value
  }

  ghost function CalibrationFailures(policy: Policy, measure: Measure, plan: Plan, cases: seq<string>): seq<Row>
    requires Planned(plan, cases) && Distinct(cases) && Gated(policy, measure, plan, cases)
  {
    if !Succeeds(measure, WholeStage(plan, cases, AA)) then [] else
      CalibrationReady(policy, measure, plan, cases);
      Failing(Rows(policy, Cells(policy, cases), StagePairs(measure, plan, cases, AA), None))
  }

  ghost function ComparisonFailures(policy: Policy, measure: Measure, plan: Plan, cases: seq<string>): seq<Row>
    requires Planned(plan, cases) && Distinct(cases) && Gated(policy, measure, plan, cases)
    requires Succeeds(measure, WholePlan(plan, cases))
  {
    ComparisonReady(policy, measure, plan, cases);
    Failing(Rows(policy, Cells(policy, cases), StagePairs(measure, plan, cases, AA),
                 Some(StagePairs(measure, plan, cases, AB))))
  }

  lemma {:induction false} WholeStages(measure: Measure, plan: Plan, cases: seq<string>)
    requires Planned(plan, cases)
    ensures Succeeds(measure, WholePlan(plan, cases)) <==>
      Succeeds(measure, WholeStage(plan, cases, AA)) && Succeeds(measure, WholeStage(plan, cases, AB))
  {
    SucceedsConcat(measure, WholeStage(plan, cases, AA), WholeStage(plan, cases, AB));
  }

  lemma {:induction false} ProjectMember(turns: seq<Turn>, case_: string, slot: Slot)
    requires slot in Project(turns, case_)
    ensures Turn(case_, slot) in turns
  {
    if turns != [] {
      var n := |turns| - 1;
      if !(turns[n].case_ == case_ && turns[n].slot == slot) {
        ProjectMember(turns[..n], case_, slot);
      }
    }
  }

  lemma {:induction false} SlotDeclared(stage: Stage, n: nat, r: nat, side: Side)
    requires r < n
    ensures Slot(stage, r, side) in StageSlots(stage, n)
  {
    if r < n - 1 {
      SlotDeclared(stage, n - 1, r, side);
    } else {
      assert Slot(stage, r, side) in RoundSlots(stage, r);
    }
  }

  lemma {:induction false} TurnMeasured(measure: Measure, plan: Plan, cases: seq<string>, stage: Stage, case_: string,
                                        r: nat, side: Side)
    requires Planned(plan, cases) && Distinct(cases) && case_ in cases && r < plan[case_].Of(stage)
    requires Succeeds(measure, WholeStage(plan, cases, stage))
    ensures Outcome(measure, Turn(case_, Slot(stage, r, side))).Some?
  {
    ProjectStage(plan, cases, stage, MostRounds(plan, cases, stage), case_);
    SlotDeclared(stage, plan[case_].Of(stage), r, side);
    ProjectMember(WholeStage(plan, cases, stage), case_, Slot(stage, r, side));
  }

  lemma {:induction false} CollectedAt(measure: Measure, stage: Stage, case_: string, n: nat, r: nat)
    requires r < n
    ensures Collected(measure, stage, case_, n)[r] == PairOf(measure, stage, r, case_)
  {
    if r < n - 1 {
      CollectedAt(measure, stage, case_, n - 1, r);
    }
  }

  /** A judged cell has its metric in every pair of a stage that succeeded. */
  lemma {:induction false} CellMeasured(policy: Policy, measure: Measure, plan: Plan, cases: seq<string>, stage: Stage,
                                        case_: string, metric: string)
    requires Planned(plan, cases) && Distinct(cases) && Gated(policy, measure, plan, cases)
    requires Succeeds(measure, WholeStage(plan, cases, stage))
    requires case_ in cases && metric in policy.judged[case_]
    ensures HasCell(StagePairs(measure, plan, cases, stage), Cell(case_, metric))
    ensures StagePairs(measure, plan, cases, stage)[case_] == Collected(measure, stage, case_, plan[case_].Of(stage))
  {
    var n := plan[case_].Of(stage);
    AfterStageAt(measure, plan, stage, MostRounds(plan, cases, stage), cases, case_);
    var pairs := Collected(measure, stage, case_, n);
    forall r | 0 <= r < n ensures metric in pairs[r].left && metric in pairs[r].right {
      CollectedAt(measure, stage, case_, n, r);
      TurnMeasured(measure, plan, cases, stage, case_, r, Base);
      TurnMeasured(measure, plan, cases, stage, case_, r, Candidate);
    }
  }

  ghost predicate CellOf(policy: Policy, cases: seq<string>, cell: Cell) {
    cell.case_ in cases && cell.case_ in policy.judged && cell.metric in policy.judged[cell.case_]
  }

  lemma {:induction false} CellsOfCases(policy: Policy, cases: seq<string>)
    requires forall c :: 0 <= c < |cases| ==> cases[c] in policy.judged
    ensures forall i :: 0 <= i < |Cells(policy, cases)| ==> CellOf(policy, cases, Cells(policy, cases)[i])
  {
    if cases != [] {
      var n := |cases| - 1;
      assert forall c :: 0 <= c < n ==> cases[..n][c] == cases[c];
      CellsOfCases(policy, cases[..n]);
      var first, last := Cells(policy, cases[..n]), CaseCells(cases[n], policy.judged[cases[n]]);
      forall i | 0 <= i < |first + last| ensures CellOf(policy, cases, (first + last)[i]) {
        if i < |first| {
          assert CellOf(policy, cases[..n], first[i]);
        } else {
          assert (first + last)[i] == last[i - |first|];
        }
      }
    }
  }

  lemma {:induction false} CalibrationReady(policy: Policy, measure: Measure, plan: Plan, cases: seq<string>)
    requires Planned(plan, cases) && Distinct(cases) && Gated(policy, measure, plan, cases)
    requires Succeeds(measure, WholeStage(plan, cases, AA))
    ensures Ready(policy, cases, StagePairs(measure, plan, cases, AA), None)
  {
    CellsOfCases(policy, cases);
    var cells := Cells(policy, cases);
    forall i | 0 <= i < |cells| ensures Judgeable(policy, cells[i], StagePairs(measure, plan, cases, AA), None) {
      assert CellOf(policy, cases, cells[i]);
      CellMeasured(policy, measure, plan, cases, AA, cells[i].case_, cells[i].metric);
    }
  }

  lemma {:induction false} ComparisonReady(policy: Policy, measure: Measure, plan: Plan, cases: seq<string>)
    requires Planned(plan, cases) && Distinct(cases) && Gated(policy, measure, plan, cases)
    requires Succeeds(measure, WholePlan(plan, cases))
    ensures Ready(policy, cases, StagePairs(measure, plan, cases, AA), Some(StagePairs(measure, plan, cases, AB)))
  {
    WholeStages(measure, plan, cases);
    CellsOfCases(policy, cases);
    var cells := Cells(policy, cases);
    var controls, comparisons := StagePairs(measure, plan, cases, AA), StagePairs(measure, plan, cases, AB);
    forall i | 0 <= i < |cells| ensures Judgeable(policy, cells[i], controls, Some(comparisons)) {
      assert CellOf(policy, cases, cells[i]);
      CellMeasured(policy, measure, plan, cases, AA, cells[i].case_, cells[i].metric);
      CellMeasured(policy, measure, plan, cases, AB, cells[i].case_, cells[i].metric);
    }
  }

  ghost predicate CompleteCase(measure: Measure, plan: Plan, turns: seq<Turn>, controls: Observations,
                               comparisons: Observations, c: string)
    requires c in plan
  {
    && Project(turns, c) == PairedSamples(plan[c])
    && c in controls && controls[c] == Collected(measure, AA, c, plan[c].calibration)
    && c in comparisons && comparisons[c] == Collected(measure, AB, c, plan[c].comparison)
  }

  /** The record of a complete run: the declared plan, no more and no less, and for every case
      its declared pairs. */
  ghost predicate Complete(measure: Measure, plan: Plan, cases: seq<string>, samples: seq<Record>,
                           controls: Observations, comparisons: Observations)
    requires Planned(plan, cases)
  {
    && TurnsOfRecords(samples) == WholePlan(plan, cases)
    && |samples| == TotalSamples(plan, cases)
    && forall c :: c in cases ==>
         CompleteCase(measure, plan, TurnsOfRecords(samples), controls, comparisons, c)
  }

  lemma {:induction false} WholeCase(measure: Measure, plan: Plan, cases: seq<string>, c: string)
    requires Planned(plan, cases) && Distinct(cases) && c in cases
    ensures CompleteCase(measure, plan, WholePlan(plan, cases), StagePairs(measure, plan, cases, AA),
                         StagePairs(measure, plan, cases, AB), c)
  {
    ScheduleProjects(plan, cases, c);
    AfterStageAt(measure, plan, AA, MostRounds(plan, cases, AA), cases, c);
    AfterStageAt(measure, plan, AB, MostRounds(plan, cases, AB), cases, c);
  }

  lemma {:induction false} CompleteRun(measure: Measure, plan: Plan, cases: seq<string>, samples: seq<Record>)
    requires Planned(plan, cases) && Distinct(cases)
    requires Ran(measure, [], WholePlan(plan, cases), samples, true)
    ensures Complete(measure, plan, cases, samples, StagePairs(measure, plan, cases, AA),
                     StagePairs(measure, plan, cases, AB))
  {
    ExecutedWhole(measure, WholePlan(plan, cases));
    ScheduleTotal(plan, cases);
    assert samples == Executed(measure, WholePlan(plan, cases));
    forall c | c in cases
      ensures CompleteCase(measure, plan, TurnsOfRecords(samples), StagePairs(measure, plan, cases, AA),
                           StagePairs(measure, plan, cases, AB), c)
    {
      WholeCase(measure, plan, cases, c);
    }
  }

  // ----- a slower candidate never passes where a faster one failed -----

  /** Which binary a pair was measured with: the base binary on either side of a control and on the
      left of a comparison, the candidate on the right of a comparison. */
  lemma {:induction false} PairsMeasured(measure: Measure, plan: Plan, cases: seq<string>, stage: Stage, c: string, r: nat)
    requires Planned(plan, cases) && Distinct(cases) && c in cases && r < plan[c].Of(stage)
    requires Succeeds(measure, WholeStage(plan, cases, stage))
    ensures var pairs := StagePairs(measure, plan, cases, stage);
      var left := measure(BaseBinary, Turn(c, Slot(stage, r, Base)));
      var right := measure(if stage.AA? then BaseBinary else CandidateBinary, Turn(c, Slot(stage, r, Candidate)));
      && c in pairs && |pairs[c]| == plan[c].Of(stage)
      && left.Some? && right.Some? && pairs[c][r] == Pair(left.value, right.value)
  {
    var n := plan[c].Of(stage);
    AfterStageAt(measure, plan, stage, MostRounds(plan, cases, stage), cases, c);
    CollectedAt(measure, stage, c, n, r);
    TurnMeasured(measure, plan, cases, stage, c, r, Base);
    TurnMeasured(measure, plan, cases, stage, c, r, Candidate);
  }

  /** The same binary on the base side and in calibration; no metric of the candidate lower. */
  ghost predicate Slower(measure: Measure, slower: Measure, policy: Policy, cases: seq<string>) {
    && (forall turn :: measure(BaseBinary, turn) == slower(BaseBinary, turn))
    && forall c, slot, m :: c in cases && c in policy.judged && m in policy.judged[c] ==>
         var a, b := measure(CandidateBinary, Turn(c, slot)), slower(CandidateBinary, Turn(c, slot));
         a.Some? && b.Some? && m in a.value && m in b.value ==> a.value[m] <= b.value[m]
  }

  lemma {:induction false} SameControls(measure: Measure, slower: Measure, plan: Plan, case_: string, n: nat)
    requires forall turn :: measure(BaseBinary, turn) == slower(BaseBinary, turn)
    ensures Collected(measure, AA, case_, n) == Collected(slower, AA, case_, n)
  {
    if n > 0 {
      SameControls(measure, slower, plan, case_, n - 1);
    }
  }

  lemma {:induction false} SlowerRaises(policy: Policy, measure: Measure, slower: Measure, plan: Plan,
                                        cases: seq<string>, case_: string, metric: string)
    requires Planned(plan, cases) && Distinct(cases) && case_ in cases
    requires Gated(policy, measure, plan, cases) && Gated(policy, slower, plan, cases)
    requires Succeeds(measure, WholeStage(plan, cases, AB)) && Succeeds(slower, WholeStage(plan, cases, AB))
    requires Slower(measure, slower, policy, cases) && metric in policy.judged[case_]
    ensures var pairs, worse := StagePairs(measure, plan, cases, AB), StagePairs(slower, plan, cases, AB);
      && HasCell(pairs, Cell(case_, metric)) && HasCell(worse, Cell(case_, metric))
      && Raised(pairs[case_], worse[case_], metric)
  {
    CellMeasured(policy, measure, plan, cases, AB, case_, metric);
    CellMeasured(policy, slower, plan, cases, AB, case_, metric);
    var n := plan[case_].comparison;
    forall r | 0 <= r < n
      ensures var a, b := Collected(measure, AB, case_, n)[r], Collected(slower, AB, case_, n)[r];
        a.left[metric] == b.left[metric] && a.right[metric] <= b.right[metric]
    {
      CollectedAt(measure, AB, case_, n, r);
      CollectedAt(slower, AB, case_, n, r);
      TurnMeasured(measure, plan, cases, AB, case_, r, Candidate);
      TurnMeasured(slower, plan, cases, AB, case_, r, Candidate);
    }
  }

  /** Of two complete runs with equal base measurements, if the one with the slower candidate
      passes then so does the other. */
  lemma {:induction false} SlowerNeverPasses(policy: Policy, measure: Measure, slower: Measure, plan: Plan,
                                             cases: seq<string>)
    requires Planned(plan, cases) && Distinct(cases)
    requires Gated(policy, measure, plan, cases) && Gated(policy, slower, plan, cases)
    requires Succeeds(measure, WholePlan(plan, cases)) && Succeeds(slower, WholePlan(plan, cases))
    requires Slower(measure, slower, policy, cases)
    ensures ComparisonFailures(policy, measure, plan, cases) != [] ==>
            ComparisonFailures(policy, slower, plan, cases) != []
  {
    WholeStages(measure, plan, cases);
    WholeStages(slower, plan, cases);
    ComparisonReady(policy, measure, plan, cases);
    ComparisonReady(policy, slower, plan, cases);
    CellsOfCases(policy, cases);
    var cells := Cells(policy, cases);
    var controls, controls' := StagePairs(measure, plan, cases, AA), StagePairs(slower, plan, cases, AA);
    SameControlMaps(measure, slower, plan, cases);
    forall i | 0 <= i < |cells|
      ensures RaisedCell(cells[i], StagePairs(measure, plan, cases, AB), StagePairs(slower, plan, cases, AB))
    {
      assert CellOf(policy, cases, cells[i]);
      SlowerRaises(policy, measure, slower, plan, cases, cells[i].case_, cells[i].metric);
    }
    VerdictMonotone(policy, cells, controls, StagePairs(measure, plan, cases, AB), StagePairs(slower, plan, cases, AB));
  }

  lemma {:induction false} SameControlMaps(measure: Measure, slower: Measure, plan: Plan, cases: seq<string>)
    requires Planned(plan, cases) && Distinct(cases)
    requires forall turn :: measure(BaseBinary, turn) == slower(BaseBinary, turn)
    ensures StagePairs(measure, plan, cases, AA) == StagePairs(slower, plan, cases, AA)
  {
    var a, b := StagePairs(measure, plan, cases, AA), StagePairs(slower, plan, cases, AA);
    forall c | c in cases ensures c in a && c in b && a[c] == b[c] {
      AfterStageAt(measure, plan, AA, MostRounds(plan, cases, AA), cases, c);
      AfterStageAt(slower, plan, AA, MostRounds(plan, cases, AA), cases, c);
      SameControls(measure, slower, plan, c, plan[c].calibration);
    }
    if cases != [] {
      AfterStageAt(measure, plan, AA, MostRounds(plan, cases, AA), cases, cases[0]);
      AfterStageAt(slower, plan, AA, MostRounds(plan, cases, AA), cases, cases[0]);
      assert a.Keys == b.Keys == NoPairs(cases).Keys;
    } else {
      NoCases(measure, plan, MostRounds(plan, cases, AA));
      NoCases(slower, plan, MostRounds(plan, cases, AA));
    }
  }

  lemma {:induction false} NoCases(measure: Measure, plan: Plan, n: nat)
    ensures AfterStage(measure, plan, AA, n, [], NoPairs([])) == map[]
  {
    if n > 0 {
      NoCases(measure, plan, n - 1);
    }
  }

  ghost predicate RoundsDone(measure: Measure, plan: Plan, cases: seq<string>, stage: Stage, n: nat, start: seq<Record>,
                             pairs: Observations, samples: seq<Record>, now: Observations, ok: bool) {
    && Ran(measure, start, StageTurns(plan, cases, stage, n), samples, ok)
    && (ok ==> now == AfterStage(measure, plan, stage, n, cases, pairs))
  }

  lemma {:induction false} OneMoreRound(measure: Measure, plan: Plan, cases: seq<string>, stage: Stage, n: nat,
                                        start: seq<Record>, pairs: Observations, middle: seq<Record>, now: Observations,
                                        samples: seq<Record>, later: Observations, ok: bool)
    requires RoundsDone(measure, plan, cases, stage, n, start, pairs, middle, now, true)
    requires Ran(measure, middle, RoundTurns(plan, stage, n, RoundOrder(cases, n)), samples, ok)
    requires ok ==> later == AfterRound(measure, plan, stage, n, RoundOrder(cases, n), now)
    ensures RoundsDone(measure, plan, cases, stage, n + 1, start, pairs, samples, later, ok)
  {
    RanThen(measure, start, StageTurns(plan, cases, stage, n), middle,
            RoundTurns(plan, stage, n, RoundOrder(cases, n)), samples, ok);
  }

  lemma {:induction false} RanShorter(measure: Measure, before: seq<Record>, part: seq<Turn>, whole: seq<Turn>,
                                      samples: seq<Record>)
    requires part <= whole && Ran(measure, before, part, samples, false)
    ensures Ran(measure, before, whole, samples, false)
  {
    assert whole == part + whole[|part|..];
    RanShort(measure, before, part, whole[|part|..], samples);
  }

  lemma {:induction false} RoundCutShort(measure: Measure, plan: Plan, stage: Stage, number: nat, order: seq<string>,
                                         c: nat, before: seq<Record>, samples: seq<Record>)
    requires c <= |order| && Ran(measure, before, RoundTurns(plan, stage, number, order[..c]), samples, false)
    ensures Ran(measure, before, RoundTurns(plan, stage, number, order), samples, false)
    decreases |order|
  {
    if c == |order| {
      assert order[..c] == order;
    } else {
      var n := |order| - 1;
      assert order[..n][..c] == order[..c];
      RoundCutShort(measure, plan, stage, number, order[..n], c, before, samples);
      RanShort(measure, before, RoundTurns(plan, stage, number, order[..n]),
               CaseTurns(plan, stage, number, order[n]), samples);
    }
  }
}
