/** The measurement schedule of the performance gate: rounds interleave the cases, reverse
    their order and the order of the two binaries, and skip cases that are done. */
module Schedule {
  datatype Stage = AA | AB

  datatype Side = Base | Candidate

  datatype Rounds = Rounds(calibration: nat, comparison: nat) {
    function Of(stage: Stage): nat { if stage.AA? then calibration else comparison }
  }

  datatype Slot = Slot(stage: Stage, round: nat, side: Side)

  /** One measurement: which case, and which slot of that case. */
  datatype Turn = Turn(case_: string, slot: Slot)

  type Plan = map<string, Rounds>

  // ----- the declared plan of one case -----

  function RoundSlots(stage: Stage, number: nat): seq<Slot> {
    if number % 2 == 0 then [Slot(stage, number, Base), Slot(stage, number, Candidate)]
    else [Slot(stage, number, Candidate), Slot(stage, number, Base)]
  }

  function StageSlots(stage: Stage, n: nat): (s: seq<Slot>)
    ensures |s| == 2 * n
  {
    if n == 0 then [] else StageSlots(stage, n - 1) + RoundSlots(stage, n - 1)
  }

  /** `paired_samples`: every judged observation of a case. */
  function PairedSamples(rounds: Rounds): seq<Slot> {
    StageSlots(AA, rounds.calibration) + StageSlots(AB, rounds.comparison)
  }

  // ----- the interleaved plan of all cases -----

  function Reverse(s: seq<string>): seq<string> {
    if s == [] then [] else [s[|s| - 1]] + Reverse(s[..|s| - 1])
  }

  function RoundOrder(cases: seq<string>, number: nat): seq<string> {
    if number % 2 == 0 then cases else Reverse(cases)
  }

  /** The two turns of a case in one round, or none if the case is done. */
  function CaseTurns(plan: Plan, stage: Stage, number: nat, case_: string): seq<Turn> {
    if case_ !in plan || number >= plan[case_].Of(stage) then [] else
      var slots := RoundSlots(stage, number);
      [Turn(case_, slots[0]), Turn(case_, slots[1])]
  }

  ghost predicate Planned(plan: Plan, cases: seq<string>) {
    forall c :: 0 <= c < |cases| ==> cases[c] in plan
  }

  function RoundTurns(plan: Plan, stage: Stage, number: nat, order: seq<string>): seq<Turn> {
    if order == [] then [] else
      RoundTurns(plan, stage, number, order[..|order| - 1]) + CaseTurns(plan, stage, number, order[|order| - 1])
  }

  function StageTurns(plan: Plan, cases: seq<string>, stage: Stage, n: nat): seq<Turn> {
    if n == 0 then [] else
      StageTurns(plan, cases, stage, n - 1) + RoundTurns(plan, stage, n - 1, RoundOrder(cases, n - 1))
  }

  /** `max(rounds[key] for rounds in rounds_by_case.values())`. */
  function MostRounds(plan: Plan, cases: seq<string>, stage: Stage): (n: nat)
    requires Planned(plan, cases)
    ensures forall c :: 0 <= c < |cases| ==> plan[cases[c]].Of(stage) <= n
  {
    if cases == [] then 0 else
      var n, m := plan[cases[0]].Of(stage), MostRounds(plan, cases[1..], stage);
      if m > n then m else n
  }

  function WholeStage(plan: Plan, cases: seq<string>, stage: Stage): seq<Turn>
    requires Planned(plan, cases)
  {
    StageTurns(plan, cases, stage, MostRounds(plan, cases, stage))
  }

  function WholePlan(plan: Plan, cases: seq<string>): seq<Turn>
    requires Planned(plan, cases)
  {
    WholeStage(plan, cases, AA) + WholeStage(plan, cases, AB)
  }

  lemma {:induction false} StagePrefix(plan: Plan, cases: seq<string>, stage: Stage, m: nat, n: nat)
    requires m <= n
    ensures StageTurns(plan, cases, stage, m) <= StageTurns(plan, cases, stage, n)
    decreases n
  {
    if m < n {
      var k: nat :| n == k + 1;
      StagePrefix(plan, cases, stage, m, k);
    }
  }

  ghost predicate Distinct(cases: seq<string>) {
    forall i, j :: 0 <= i < j < |cases| ==> cases[i] != cases[j]
  }

  lemma {:induction false} ReverseMeaning(s: seq<string>)
    ensures |Reverse(s)| == |s| && forall i :: 0 <= i < |s| ==> Reverse(s)[i] == s[|s| - 1 - i]
  {
    if s != [] {
      ReverseMeaning(s[..|s| - 1]);
    }
  }

  // ----- one case seen in the interleaved plan -----

  /** What a sequence of turns does to one case, in order. */
  function Project(turns: seq<Turn>, case_: string): seq<Slot> {
    if turns == [] then [] else
      var n := |turns| - 1;
      Project(turns[..n], case_) + if turns[n].case_ == case_ then [turns[n].slot] else []
  }

  lemma {:induction false} ProjectConcat(a: seq<Turn>, b: seq<Turn>, case_: string)
    ensures Project(a + b, case_) == Project(a, case_) + Project(b, case_)
  {
    if b == [] {
      assert a + b == a;
    } else {
      ProjectConcat(a, b[..|b| - 1], case_);
      assert (a + b)[..|a + b| - 1] == a + b[..|b| - 1];
    }
  }

  lemma {:induction false} ProjectCase(plan: Plan, stage: Stage, number: nat, owner: string, case_: string)
    requires case_ in plan
    ensures Project(CaseTurns(plan, stage, number, owner), case_)
         == if owner == case_ && number < plan[case_].Of(stage) then RoundSlots(stage, number) else []
  {
    var turns := CaseTurns(plan, stage, number, owner);
    if turns != [] {
      assert turns == [turns[0]] + [turns[1]];
      ProjectConcat([turns[0]], [turns[1]], case_);
      assert RoundSlots(stage, number) == [turns[0].slot] + [turns[1].slot];
    }
  }

  lemma {:induction false} LastCase(order: seq<string>, case_: string)
    requires order != []
    ensures case_ in order <==> case_ in order[..|order| - 1] || case_ == order[|order| - 1]
  {
    assert order == order[..|order| - 1] + [order[|order| - 1]];
  }

  lemma {:induction false} ProjectRound(plan: Plan, stage: Stage, number: nat, order: seq<string>, case_: string)
    requires Distinct(order) && case_ in plan
    ensures Project(RoundTurns(plan, stage, number, order), case_)
         == if case_ in order && number < plan[case_].Of(stage) then RoundSlots(stage, number) else []
  {
    if order != [] {
      var n := |order| - 1;
      ProjectRound(plan, stage, number, order[..n], case_);
      ProjectConcat(RoundTurns(plan, stage, number, order[..n]), CaseTurns(plan, stage, number, order[n]), case_);
      ProjectCase(plan, stage, number, order[n], case_);
      LastCase(order, case_);
    }
  }

  function Min(a: nat, b: nat): nat { if a < b then a else b }

  lemma {:induction false} RoundOrderCases(cases: seq<string>, number: nat)
    requires Distinct(cases)
    ensures var order := RoundOrder(cases, number);
      Distinct(order) && forall c :: c in order <==> c in cases
  {
    ReverseMeaning(cases);
    var order := RoundOrder(cases, number);
    if number % 2 == 1 {
      forall c | c in cases ensures c in order {
        var i :| 0 <= i < |cases| && cases[i] == c;
        assert order[|cases| - 1 - i] == c;
      }
    }
  }

  /** What one round of the interleaved schedule means for one case. */
  lemma {:induction false} ProjectOrdered(plan: Plan, cases: seq<string>, stage: Stage, number: nat, case_: string)
    requires Planned(plan, cases) && Distinct(cases) && case_ in cases
    ensures Project(RoundTurns(plan, stage, number, RoundOrder(cases, number)), case_)
         == if number < plan[case_].Of(stage) then RoundSlots(stage, number) else []
  {
    RoundOrderCases(cases, number);
    ProjectRound(plan, stage, number, RoundOrder(cases, number), case_);
  }

  lemma {:induction false} StageSlotsStep(stage: Stage, n: nat, declared: nat)
    ensures StageSlots(stage, Min(n + 1, declared))
         == StageSlots(stage, Min(n, declared)) + if n < declared then RoundSlots(stage, n) else []
  {
  }

  lemma {:induction false} ProjectStageStep(plan: Plan, cases: seq<string>, stage: Stage, n: nat, case_: string)
    requires Planned(plan, cases) && Distinct(cases) && case_ in cases
    ensures Project(StageTurns(plan, cases, stage, n + 1), case_)
         == Project(StageTurns(plan, cases, stage, n), case_)
            + if n < plan[case_].Of(stage) then RoundSlots(stage, n) else []
  {
    ProjectOrdered(plan, cases, stage, n, case_);
    ProjectConcat(StageTurns(plan, cases, stage, n), RoundTurns(plan, stage, n, RoundOrder(cases, n)), case_);
  }

  lemma {:induction false} ProjectStageNext(plan: Plan, cases: seq<string>, stage: Stage, n: nat, case_: string)
    requires Planned(plan, cases) && Distinct(cases) && case_ in cases
    requires Project(StageTurns(plan, cases, stage, n), case_) == StageSlots(stage, Min(n, plan[case_].Of(stage)))
    ensures Project(StageTurns(plan, cases, stage, n + 1), case_)
         == StageSlots(stage, Min(n + 1, plan[case_].Of(stage)))
  {
    ProjectStageStep(plan, cases, stage, n, case_);
    StageSlotsStep(stage, n, plan[case_].Of(stage));
  }

  lemma {:induction false} ProjectStage(plan: Plan, cases: seq<string>, stage: Stage, n: nat, case_: string)
    requires Planned(plan, cases) && Distinct(cases) && case_ in cases
    ensures Project(StageTurns(plan, cases, stage, n), case_) == StageSlots(stage, Min(n, plan[case_].Of(stage)))
  {
    if n > 0 {
      var m: nat :| n == m + 1;
      ProjectStage(plan, cases, stage, m, case_);
      ProjectStageNext(plan, cases, stage, m, case_);
    }
  }

  /** The interleaved schedule gives every case exactly its declared observations, in
      their declared order. */
  lemma {:induction false} ScheduleProjects(plan: Plan, cases: seq<string>, case_: string)
    requires Planned(plan, cases) && Distinct(cases) && case_ in cases
    ensures Project(WholePlan(plan, cases), case_) == PairedSamples(plan[case_])
  {
    ProjectStage(plan, cases, AA, MostRounds(plan, cases, AA), case_);
    ProjectStage(plan, cases, AB, MostRounds(plan, cases, AB), case_);
    ProjectConcat(WholeStage(plan, cases, AA), WholeStage(plan, cases, AB), case_);
  }

  // ----- the total -----

  /** `total_samples`: the declared observations of all cases. */
  function TotalSamples(plan: Plan, cases: seq<string>): nat
    requires Planned(plan, cases)
  {
    if cases == [] then 0 else |PairedSamples(plan[cases[0]])| + TotalSamples(plan, cases[1..])
  }

  function ProjectedTotal(turns: seq<Turn>, cases: seq<string>): nat {
    if cases == [] then 0 else |Project(turns, cases[0])| + ProjectedTotal(turns, cases[1..])
  }

  lemma {:induction false} ProjectedTotalStep(turns: seq<Turn>, turn: Turn, cases: seq<string>)
    requires Distinct(cases)
    ensures ProjectedTotal(turns + [turn], cases)
         == ProjectedTotal(turns, cases) + if turn.case_ in cases then 1 else 0
  {
    assert (turns + [turn])[..|turns|] == turns;
    if cases != [] {
      ProjectedTotalStep(turns, turn, cases[1..]);
      assert turn.case_ in cases <==> turn.case_ == cases[0] || turn.case_ in cases[1..];
    }
  }

  ghost predicate TurnsOf(turns: seq<Turn>, cases: seq<string>) {
    forall i :: 0 <= i < |turns| ==> turns[i].case_ in cases
  }

  lemma {:induction false} EmptyTotal(cases: seq<string>)
    ensures ProjectedTotal([], cases) == 0
  {
    if cases != [] {
      EmptyTotal(cases[1..]);
    }
  }

  lemma {:induction false} EveryTurnCounted(turns: seq<Turn>, cases: seq<string>)
    requires Distinct(cases) && TurnsOf(turns, cases)
    ensures ProjectedTotal(turns, cases) == |turns|
  {
    if turns == [] {
      EmptyTotal(cases);
    } else {
      var n := |turns| - 1;
      assert turns == turns[..n] + [turns[n]];
      EveryTurnCounted(turns[..n], cases);
      ProjectedTotalStep(turns[..n], turns[n], cases);
    }
  }

  lemma {:induction false} RoundTurnsOf(plan: Plan, stage: Stage, number: nat, order: seq<string>, cases: seq<string>)
    requires forall c :: c in order ==> c in cases
    ensures TurnsOf(RoundTurns(plan, stage, number, order), cases)
  {
    if order != [] {
      RoundTurnsOf(plan, stage, number, order[..|order| - 1], cases);
    }
  }

  lemma {:induction false} StageTurnsOf(plan: Plan, cases: seq<string>, stage: Stage, n: nat)
    requires Distinct(cases)
    ensures TurnsOf(StageTurns(plan, cases, stage, n), cases)
  {
    if n > 0 {
      var m: nat :| n == m + 1;
      StageTurnsOf(plan, cases, stage, m);
      StageTurnsOfNext(plan, cases, stage, m);
    }
  }

  lemma {:induction false} StageTurnsOfNext(plan: Plan, cases: seq<string>, stage: Stage, n: nat)
    requires Distinct(cases) && TurnsOf(StageTurns(plan, cases, stage, n), cases)
    ensures TurnsOf(StageTurns(plan, cases, stage, n + 1), cases)
  {
    RoundOrderCases(cases, n);
    RoundTurnsOf(plan, stage, n, RoundOrder(cases, n), cases);
  }

  lemma {:induction false} SameTotal(plan: Plan, turns: seq<Turn>, cases: seq<string>)
    requires Planned(plan, cases)
    requires forall c :: c in cases ==> Project(turns, c) == PairedSamples(plan[c])
    ensures ProjectedTotal(turns, cases) == TotalSamples(plan, cases)
  {
    if cases != [] {
      SameTotal(plan, turns, cases[1..]);
    }
  }

  /** The schedule has exactly `total_samples` turns. */
  lemma {:induction false} ScheduleTotal(plan: Plan, cases: seq<string>)
    requires Planned(plan, cases) && Distinct(cases)
    ensures |WholePlan(plan, cases)| == TotalSamples(plan, cases)
  {
    var turns := WholePlan(plan, cases);
    StageTurnsOf(plan, cases, AA, MostRounds(plan, cases, AA));
    StageTurnsOf(plan, cases, AB, MostRounds(plan, cases, AB));
    EveryTurnCounted(turns, cases);
    forall c | c in cases ensures Project(turns, c) == PairedSamples(plan[c]) {
      ScheduleProjects(plan, cases, c);
    }
    SameTotal(plan, turns, cases);
  }

  // ----- what alternates -----

  /** The side that runs first in a round. */
  function First(r: nat): Side { if r % 2 == 0 then Base else Candidate }

  function Second(r: nat): Side { if r % 2 == 0 then Candidate else Base }

  /** Round `r` of a stage is at places `2r` and `2r + 1`: the base runs first in even rounds, the
      candidate in odd ones. */
  lemma {:induction false} StageAlternates(stage: Stage, n: nat, r: nat)
    requires r < n
    ensures StageSlots(stage, n)[2 * r] == Slot(stage, r, First(r))
    ensures StageSlots(stage, n)[2 * r + 1] == Slot(stage, r, Second(r))
    decreases n
  {
    var m: nat :| n == m + 1;
    assert StageSlots(stage, n) == StageSlots(stage, m) + RoundSlots(stage, m);
    if r < m {
      StageAlternates(stage, m, r);
    }
  }

  /** Where round `r` of a stage is among the declared observations of a case. */
  function Place(rounds: Rounds, stage: Stage, r: nat): nat {
    (if stage.AA? then 0 else 2 * rounds.calibration) + 2 * r
  }

  /** The two observations of round `r` are at place `at`, in the order of the round. */
  predicate AlternatesAt(slots: seq<Slot>, at: nat, stage: Stage, r: nat) {
    at + 1 < |slots| && slots[at] == Slot(stage, r, First(r)) && slots[at + 1] == Slot(stage, r, Second(r))
  }

  lemma {:induction false} AlternatesWithin(a: seq<Slot>, s: seq<Slot>, b: seq<Slot>, at: nat, stage: Stage, r: nat)
    requires AlternatesAt(s, at, stage, r)
    ensures AlternatesAt(a + (s + b), |a| + at, stage, r)
  {
    assert (s + b)[at] == s[at] && (s + b)[at + 1] == s[at + 1];
  }

  lemma {:induction false} CalibrationAt(rounds: Rounds, r: nat)
    requires r < rounds.calibration
    ensures AlternatesAt(PairedSamples(rounds), 2 * r, AA, r)
  {
    var a, b := StageSlots(AA, rounds.calibration), StageSlots(AB, rounds.comparison);
    StageAlternates(AA, rounds.calibration, r);
    AlternatesWithin([], a, b, 2 * r, AA, r);
    assert [] + (a + b) == a + b;
  }

  lemma {:induction false} ComparisonAt(rounds: Rounds, r: nat)
    requires r < rounds.comparison
    ensures AlternatesAt(PairedSamples(rounds), 2 * rounds.calibration + 2 * r, AB, r)
  {
    var a, b := StageSlots(AA, rounds.calibration), StageSlots(AB, rounds.comparison);
    StageAlternates(AB, rounds.comparison, r);
    AlternatesWithin(a, b, [], 2 * r, AB, r);
    assert b + [] == b;
  }

  /** The declared plan, place by place. */
  lemma {:induction false} PairedSamplesAt(rounds: Rounds, stage: Stage, r: nat)
    requires r < rounds.Of(stage)
    ensures |PairedSamples(rounds)| == 2 * (rounds.calibration + rounds.comparison)
    ensures AlternatesAt(PairedSamples(rounds), Place(rounds, stage, r), stage, r)
  {
    if stage.AA? {
      CalibrationAt(rounds, r);
    } else {
      ComparisonAt(rounds, r);
    }
  }

  /** Two lists of turns, one after the other. */
  lemma {:induction false} InFirst(a: seq<Turn>, b: seq<Turn>, i: nat)
    requires i < |a + b|
    ensures i < |a| ==> (a + b)[i] in a && (a + b)[i] == a[i]
    ensures i >= |a| ==> (a + b)[i] in b && (a + b)[i] == b[i - |a|]
  {
  }

  lemma {:induction false} RoundTurnsTagged(plan: Plan, stage: Stage, number: nat, order: seq<string>)
    ensures forall t :: t in RoundTurns(plan, stage, number, order) ==>
      t.case_ in order && t.slot.stage == stage && t.slot.round == number
  {
    if order != [] {
      RoundTurnsTagged(plan, stage, number, order[..|order| - 1]);
    }
  }

  lemma {:induction false} StageTurnsTagged(plan: Plan, cases: seq<string>, stage: Stage, n: nat)
    ensures forall t :: t in StageTurns(plan, cases, stage, n) ==> t.slot.stage == stage && t.slot.round < n
  {
    if n > 0 {
      var m: nat :| n == m + 1;
      StageTurnsTagged(plan, cases, stage, m);
      RoundTurnsTagged(plan, stage, m, RoundOrder(cases, m));
    }
  }

  /** Within a round the cases come in the order of the round. */
  lemma {:induction false} RoundOrdered(plan: Plan, stage: Stage, number: nat, order: seq<string>, x: nat, y: nat,
                                        i: nat, j: nat)
    requires Distinct(order) && x < y < |order|
    requires var turns := RoundTurns(plan, stage, number, order);
      i < |turns| && j < |turns| && turns[i].case_ == order[x] && turns[j].case_ == order[y]
    ensures i < j
    decreases |order|
  {
    var n: nat :| |order| == n + 1;
    var a, b := RoundTurns(plan, stage, number, order[..n]), CaseTurns(plan, stage, number, order[n]);
    RoundTurnsTagged(plan, stage, number, order[..n]);
    assert forall k :: 0 <= k < n ==> order[..n][k] == order[k];
    InFirst(a, b, i);
    InFirst(a, b, j);
    assert forall t :: t in b ==> t.case_ == order[n];
    assert i < |a|;
    if j < |a| && y < n {
      RoundOrdered(plan, stage, number, order[..n], x, y, i, j);
    }
  }

  /** Turn `i` is of case `a` and turn `j` of case `b`, in one round of one stage. */
  ghost predicate SameRound(turns: seq<Turn>, stage: Stage, r: nat, a: string, b: string, i: nat, j: nat) {
    && i < |turns| && j < |turns| && turns[i].case_ == a && turns[j].case_ == b
    && turns[i].slot.stage == stage && turns[j].slot.stage == stage
    && turns[i].slot.round == r && turns[j].slot.round == r
  }

  lemma {:induction false} SameRoundPart(a: seq<Turn>, b: seq<Turn>, stage: Stage, r: nat, x: string, y: string, i: nat, j: nat)
    requires SameRound(a + b, stage, r, x, y, i, j)
    requires (i < |a| <==> j < |a|)
    ensures i < |a| ==> SameRound(a, stage, r, x, y, i, j)
    ensures i >= |a| ==> j >= |a| && SameRound(b, stage, r, x, y, i - |a|, j - |a|)
  {
    InFirst(a, b, i);
    InFirst(a, b, j);
  }

  lemma {:induction false} RoundReverses(plan: Plan, cases: seq<string>, stage: Stage, r: nat, x: nat, y: nat, i: nat, j: nat)
    requires Distinct(cases) && x < y < |cases|
    requires SameRound(RoundTurns(plan, stage, r, RoundOrder(cases, r)), stage, r, cases[x], cases[y], i, j)
    ensures i < j <==> r % 2 == 0
  {
    RoundOrderCases(cases, r);
    ReverseMeaning(cases);
    var order := RoundOrder(cases, r);
    if r % 2 == 0 {
      RoundOrdered(plan, stage, r, order, x, y, i, j);
    } else {
      RoundOrdered(plan, stage, r, order, |cases| - 1 - y, |cases| - 1 - x, j, i);
    }
  }

  ghost predicate LaterThan(turns: seq<Turn>, r: nat) { forall t :: t in turns ==> t.slot.round > r }

  lemma {:induction false} OneRoundMore(shorter: seq<Turn>, longer: seq<Turn>, head: seq<Turn>, tail: seq<Turn>,
                                        more: seq<Turn>, r: nat)
    requires shorter == head + tail && longer == shorter + more && LaterThan(tail, r) && LaterThan(more, r)
    ensures longer == head + (tail + more) && LaterThan(tail + more, r)
  {
  }

  /** A stage is the rounds before one, that round, and the rounds after it. */
  lemma {:induction false} StageSplit(plan: Plan, cases: seq<string>, stage: Stage, n: nat, r: nat) returns (tail: seq<Turn>)
    requires r < n
    ensures StageTurns(plan, cases, stage, n) == StageTurns(plan, cases, stage, r + 1) + tail
    ensures LaterThan(tail, r)
    decreases n
  {
    if n == r + 1 {
      tail := [];
    } else {
      var m: nat :| n == m + 1;
      var rest := StageSplit(plan, cases, stage, m, r);
      var more := RoundTurns(plan, stage, m, RoundOrder(cases, m));
      StageTurnsStep(plan, cases, stage, m);
      RoundTurnsTagged(plan, stage, m, RoundOrder(cases, m));
      OneRoundMore(StageTurns(plan, cases, stage, m), StageTurns(plan, cases, stage, n),
                   StageTurns(plan, cases, stage, r + 1), rest, more, r);
      tail := rest + more;
    }
  }

  lemma {:induction false} StageTurnsStep(plan: Plan, cases: seq<string>, stage: Stage, m: nat)
    ensures StageTurns(plan, cases, stage, m + 1)
         == StageTurns(plan, cases, stage, m) + RoundTurns(plan, stage, m, RoundOrder(cases, m))
  {
  }

  lemma {:induction false} MiddleTurns(a: seq<Turn>, b: seq<Turn>, c: seq<Turn>, stage: Stage, r: nat, x: string, y: string,
                                       i: nat, j: nat)
    requires forall t :: t in a ==> t.slot.round < r
    requires LaterThan(c, r)
    requires SameRound((a + b) + c, stage, r, x, y, i, j)
    ensures i >= |a| && j >= |a| && SameRound(b, stage, r, x, y, i - |a|, j - |a|)
  {
    InFirst(a + b, c, i);
    InFirst(a + b, c, j);
    InFirst(a, b, i);
    InFirst(a, b, j);
  }

  lemma {:induction false} StageReverses(plan: Plan, cases: seq<string>, stage: Stage, n: nat, turns: seq<Turn>, r: nat,
                                         x: nat, y: nat, i: nat, j: nat)
    requires Distinct(cases) && x < y < |cases| && turns == StageTurns(plan, cases, stage, n)
    requires SameRound(turns, stage, r, cases[x], cases[y], i, j)
    ensures i < j <==> r % 2 == 0
  {
    StageTurnsTagged(plan, cases, stage, n);
    assert turns[i] in turns;
    var a, b := StageTurns(plan, cases, stage, r), RoundTurns(plan, stage, r, RoundOrder(cases, r));
    var c := StageSplit(plan, cases, stage, n, r);
    StageTurnsStep(plan, cases, stage, r);
    StageTurnsTagged(plan, cases, stage, r);
    MiddleTurns(a, b, c, stage, r, cases[x], cases[y], i, j);
    RoundReverses(plan, cases, stage, r, x, y, i - |a|, j - |a|);
  }

  lemma {:induction false} StageOfTurn(a: seq<Turn>, b: seq<Turn>, stage: Stage, r: nat, x: string, y: string, i: nat, j: nat)
    requires forall t :: t in a ==> t.slot.stage == AA
    requires forall t :: t in b ==> t.slot.stage == AB
    requires SameRound(a + b, stage, r, x, y, i, j)
    ensures stage == AA ==> SameRound(a, stage, r, x, y, i, j)
    ensures stage == AB ==> i >= |a| && j >= |a| && SameRound(b, stage, r, x, y, i - |a|, j - |a|)
  {
    InFirst(a, b, i);
    InFirst(a, b, j);
    SameRoundPart(a, b, stage, r, x, y, i, j);
  }

  /** In the whole schedule an earlier case comes first in even rounds and last in odd ones. */
  lemma {:induction false} CasesReverse(plan: Plan, cases: seq<string>, stage: Stage, r: nat, x: nat, y: nat, i: nat, j: nat)
    requires Planned(plan, cases) && Distinct(cases) && x < y < |cases|
    requires SameRound(WholePlan(plan, cases), stage, r, cases[x], cases[y], i, j)
    ensures i < j <==> r % 2 == 0
  {
    var a, b := WholeStage(plan, cases, AA), WholeStage(plan, cases, AB);
    StageTurnsTagged(plan, cases, AA, MostRounds(plan, cases, AA));
    StageTurnsTagged(plan, cases, AB, MostRounds(plan, cases, AB));
    StageOfTurn(a, b, stage, r, cases[x], cases[y], i, j);
    if stage == AA {
      StageReverses(plan, cases, AA, MostRounds(plan, cases, AA), a, r, x, y, i, j);
    } else {
      StageReverses(plan, cases, AB, MostRounds(plan, cases, AB), b, r, x, y, i - |a|, j - |a|);
    }
  }

  /** And within one case the base comes first in even rounds and last in odd ones. */
  lemma {:induction false} SidesAlternate(plan: Plan, cases: seq<string>, case_: string, stage: Stage, r: nat)
    requires Planned(plan, cases) && Distinct(cases) && case_ in cases && r < plan[case_].Of(stage)
    ensures AlternatesAt(Project(WholePlan(plan, cases), case_), Place(plan[case_], stage, r), stage, r)
  {
    ScheduleProjects(plan, cases, case_);
    PairedSamplesAt(plan[case_], stage, r);
  }
}
