/** The client side of a line-based RPC connection: any number of submitters and one reader
    thread share a table of pending futures under a lock. Each critical section is one step. */
module RpcClient {
  import opened Wrappers

  /** The `error` field of a response: absent; an object with a message; or present without one
      (null, a bare text, an object that has no `message`). */
  datatype ErrorField = NoError | Message(text: string) | NoMessage

  /** What a response carries beside its number. */
  datatype Payload = Payload(result: Option<string>, error: ErrorField) {
    /** Section 5 of the JSON-RPC 2.0 specification: a result, or an error with a message. */
    predicate WellFormed() {
      (result.Some? && error.NoError?) || (result.None? && error.Message?)
    }

    /** The reader can make nothing of it: an error is looked up first, then the result. */
    predicate Unusable() {
      error.NoMessage? || (error.NoError? && result.None?)
    }
  }

  /** A line from the child: a response, or text that is no response at all. */
  datatype Line = Garbage | Response(id: int, payload: Payload)

  datatype Resolution = Answered(id: int, value: string) | Refused(id: int, message: string) | Closed

  /** The reader: at the top of its loop; holding a future it took from the table; on its way
      out, with the final drain still to come; or gone. */
  datatype Reader = Reading | Holding(future: nat, id: int, payload: Payload) | Leaving | Gone

  /** `futures[k]` lists the outcomes set on the k-th future created: a second one would raise. */
  datatype State = State(
    sequence: nat,
    pending: map<int, nat>,
    futures: seq<seq<Resolution>>,
    sent: seq<int>,
    reader: Reader,
    drainedAt: nat)

  datatype Action = Submit(written: bool) | Receive(line: Line) | Deliver | EndOfStream | Drain

  const INITIAL := State(0, map[], [], [], Reading, 0)

  function Set(futures: seq<seq<Resolution>>, k: nat, outcome: Resolution): seq<seq<Resolution>> {
    if k < |futures| then futures[k := futures[k] + [outcome]] else futures
  }

  function CloseAll(s: State): (futures: seq<seq<Resolution>>)
    ensures |futures| == |s.futures|
    ensures forall k :: 0 <= k < |futures| ==>
      futures[k] == s.futures[k] + if exists id :: id in s.pending && s.pending[id] == k then [Closed] else []
  {
    seq(|s.futures|, k requires 0 <= k < |s.futures| =>
      s.futures[k] + if exists id | id in s.pending :: s.pending[id] == k then [Closed] else [])
  }

  /** One atomic step; a step of the reader that it is not ready for does nothing. */
  function Step(s: State, action: Action): State {
    match action
    case Submit(written) =>
      var id := s.sequence + 1;
      s.(sequence := id, pending := s.pending[id := |s.futures|], futures := s.futures + [[]],
         sent := s.sent + if written then [id] else [])
    case Receive(line) =>
      if !s.reader.Reading? then s
      else if line.Garbage? || line.id !in s.pending then s.(reader := Leaving)
      else s.(pending := s.pending - {line.id}, reader := Holding(s.pending[line.id], line.id, line.payload))
    case Deliver =>
      if !s.reader.Holding? then s else
        (match s.reader.payload
         case Payload(_, Message(text)) =>
           s.(futures := Set(s.futures, s.reader.future, Refused(s.reader.id, text)), reader := Reading)
         case Payload(_, NoMessage) => s.(reader := Leaving)
         case Payload(Some(value), NoError) =>
           s.(futures := Set(s.futures, s.reader.future, Answered(s.reader.id, value)), reader := Reading)
         case Payload(None, NoError) => s.(reader := Leaving))
    case EndOfStream => if s.reader.Reading? then s.(reader := Leaving) else s
    case Drain =>
      if !s.reader.Leaving? then s
      else s.(futures := CloseAll(s), pending := map[], reader := Gone, drainedAt := |s.futures|)
  }

  function Run(actions: seq<Action>): State {
    if actions == [] then INITIAL else Step(Run(actions[..|actions| - 1]), actions[|actions| - 1])
  }

  // ----- the client as it runs -----

  class Rpc {
    var sequence: nat
    var pending: map<int, nat>
    var futures: seq<seq<Resolution>>
    var sent: seq<int>
    var reader: Reader
    var drainedAt: nat

    constructor ()
      ensures Snapshot() == INITIAL
    {
      sequence, pending, futures, sent, reader, drainedAt := 0, map[], [], [], Reading, 0;
    }

    ghost function Snapshot(): State
      reads this
    {
      State(sequence, pending, futures, sent, reader, drainedAt)
    }

    /** `submit`, one critical section: the future is registered before the request is written,
        and stays registered when the write fails. */
    method SubmitRequest(written: bool) returns (future: nat)
      modifies this
      ensures Snapshot() == Step(old(Snapshot()), Submit(written))
      ensures future == old(|futures|)
    {
      sequence := sequence + 1;
      future := |futures|;
      futures := futures + [[]];
      pending := pending[sequence := future];
      if written {
        sent := sent + [sequence];
      }
    }

    /** The reader takes one line and, under the lock, the future it names. */
    method ReceiveLine(line: Line)
      modifies this
      ensures Snapshot() == Step(old(Snapshot()), Receive(line))
    {
      if reader.Reading? {
        if line.Garbage? || line.id !in pending {
          reader := Leaving;
        } else {
          var future := pending[line.id];
          pending := pending - {line.id};
          reader := Holding(future, line.id, line.payload);
        }
      }
    }

    /** Outside the lock, the reader sets the outcome of the future it took, or raises. */
    method DeliverOutcome()
      modifies this
      ensures Snapshot() == Step(old(Snapshot()), Deliver)
    {
      if reader.Holding? {
        var future := reader.future;
        var payload := reader.payload;
        if payload.error != NoError {
          if payload.error.NoMessage? {
            reader := Leaving;
          } else {
            futures := Set(futures, future, Refused(reader.id, payload.error.text));
            reader := Reading;
          }
        } else if payload.result.None? {
          reader := Leaving;
        } else {
          futures := Set(futures, future, Answered(reader.id, payload.result.value));
          reader := Reading;
        }
      }
    }

    method ReachEndOfStream()
      modifies this
      ensures Snapshot() == Step(old(Snapshot()), EndOfStream)
    {
      if reader.Reading? {
        reader := Leaving;
      }
    }

    /** The final critical section: every pending future is closed, the table is emptied. */
    method DrainPending()
      requires Consistent(Snapshot())
      modifies this
      ensures Snapshot() == Step(old(Snapshot()), Drain)
    {
      if reader.Leaving? {
        ghost var before := Snapshot();
        // Requests enter the table in the order of their numbers, which is the order of the loop.
        for id := 1 to sequence + 1
          invariant Snapshot() == before.(futures := futures) && |futures| == |before.futures|
          invariant forall k :: 0 <= k < |futures| ==>
            futures[k] == before.futures[k] + if k + 1 in pending && k + 1 < id then [Closed] else []
        {
          if id in pending {
            futures := Set(futures, pending[id], Closed);
          }
        }
        CloseAllMeaning(before);
        assert futures == CloseAll(before);
        pending, reader, drainedAt := map[], Gone, |futures|;
      }
    }
  }

  // ----- the invariant -----

  /** The table maps the number of each request to the future created with it. */
  ghost predicate Consistent(s: State) {
    && s.sequence == |s.futures|
    && forall id :: id in s.pending ==> 1 <= id <= s.sequence && s.pending[id] == id - 1
  }

  /** Unresolved futures are exactly those in the table, in the reader's hand, or unreachable. */
  ghost predicate Held(s: State, k: nat) {
    k + 1 in s.pending || (s.reader.Holding? && s.reader.future == k)
  }

  ghost predicate ForItself(outcome: Resolution, k: nat) {
    match outcome
    case Answered(id, _) => id == k + 1
    case Refused(id, _) => id == k + 1
    case Closed => true
  }

  ghost predicate Good(s: State) {
    && Consistent(s)
    && (s.reader.Holding? ==>
          && s.reader.id == s.reader.future + 1 && s.reader.future < |s.futures|
          && s.reader.id !in s.pending)
    && (forall k :: 0 <= k < |s.futures| && Held(s, k) ==> s.futures[k] == [])
    && (forall k :: 0 <= k < |s.futures| ==>
          s.futures[k] == [] || (|s.futures[k]| == 1 && ForItself(s.futures[k][0], k)))
    && (s.reader.Gone? ==>
          s.drainedAt <= |s.futures| && forall id :: id in s.pending ==> id > s.drainedAt)
  }

  ghost predicate Increasing(s: State) {
    && (forall i :: 0 <= i < |s.sent| ==> 1 <= s.sent[i] <= s.sequence)
    && (forall i, j :: 0 <= i < j < |s.sent| ==> s.sent[i] < s.sent[j])
  }

  lemma {:induction false} CloseAllMeaning(s: State)
    requires Consistent(s)
    ensures forall k :: 0 <= k < |s.futures| ==>
      CloseAll(s)[k] == s.futures[k] + if k + 1 in s.pending then [Closed] else []
  {
    forall k | 0 <= k < |s.futures|
      ensures CloseAll(s)[k] == s.futures[k] + if k + 1 in s.pending then [Closed] else []
    {
      if k + 1 in s.pending { assert s.pending[k + 1] == k; }
    }
  }

  lemma {:induction false} DrainKeeps(s: State)
    requires Good(s) && s.reader.Leaving?
    ensures Good(Step(s, Drain))
    ensures var closed := Step(s, Drain).futures;
      forall k :: 0 <= k < |s.futures| ==> closed[k] == s.futures[k] + if k + 1 in s.pending then [Closed] else []
  {
    CloseAllMeaning(s);
  }

  lemma {:induction false} SubmitKeeps(s: State, written: bool)
    requires Good(s)
    ensures Good(Step(s, Submit(written)))
  {
    var s' := Step(s, Submit(written));
    assert forall k :: 0 <= k < |s.futures| ==> s'.futures[k] == s.futures[k];
    assert forall k :: 0 <= k < |s.futures| && Held(s', k) ==> Held(s, k);
  }

  lemma {:induction false} ReceiveKeeps(s: State, line: Line)
    requires Good(s)
    ensures Good(Step(s, Receive(line)))
  {
    var s' := Step(s, Receive(line));
    assert forall k :: 0 <= k < |s.futures| && Held(s', k) ==> Held(s, k);
  }

  lemma {:induction false} DeliverKeeps(s: State)
    requires Good(s)
    ensures Good(Step(s, Deliver))
  {
    var s' := Step(s, Deliver);
    if s.reader.Holding? {
      assert Held(s, s.reader.future);
      assert forall k :: 0 <= k < |s.futures| && k != s.reader.future ==> s'.futures[k] == s.futures[k];
      assert forall k :: 0 <= k < |s.futures| && Held(s', k) ==> Held(s, k) && k != s.reader.future;
    }
  }

  lemma {:induction false} StepKeeps(s: State, action: Action)
    requires Good(s)
    ensures Good(Step(s, action))
  {
    match action
    case Submit(written) => SubmitKeeps(s, written);
    case Receive(line) => ReceiveKeeps(s, line);
    case Deliver => DeliverKeeps(s);
    case EndOfStream =>
    case Drain => if s.reader.Leaving? { DrainKeeps(s); }
  }

  /** In every interleaving each future is set at most once, by a response carrying its own
      request number or by the final close. */
  lemma {:induction false} AtMostOnce(actions: seq<Action>)
    ensures Good(Run(actions))
  {
    if actions != [] {
      AtMostOnce(actions[..|actions| - 1]);
      StepKeeps(Run(actions[..|actions| - 1]), actions[|actions| - 1]);
    }
  }

  /** The requests written to the child carry strictly increasing numbers. */
  lemma {:induction false} RequestNumbersUnique(actions: seq<Action>)
    ensures Increasing(Run(actions))
  {
    if actions != [] {
      RequestNumbersUnique(actions[..|actions| - 1]);
      IncreasingStep(Run(actions[..|actions| - 1]), actions[|actions| - 1]);
    }
  }

  lemma {:induction false} IncreasingStep(s: State, action: Action)
    requires Increasing(s)
    ensures Increasing(Step(s, action))
  {
  }

  // ----- exactly once -----

  /** Future `k` was taken from the table for a response that was unusable. */
  ghost predicate Dropped(actions: seq<Action>, k: nat) {
    exists n :: 0 <= n < |actions| && actions[n] == Deliver && DropsAt(Run(actions[..n]), k)
  }

  ghost predicate DropsAt(s: State, k: nat) {
    s.reader.Holding? && s.reader.future == k && s.reader.payload.Unusable()
  }

  /** Every future is resolved, or held, or was dropped, or came after the drain. */
  ghost predicate Accounted(actions: seq<Action>, s: State, k: nat)
    requires k < |s.futures|
  {
    || s.futures[k] != [] || Held(s, k) || Dropped(actions, k)
    || (s.reader.Gone? && k >= s.drainedAt)
  }

  lemma {:induction false} DroppedStays(actions: seq<Action>, action: Action, k: nat)
    requires Dropped(actions, k)
    ensures Dropped(actions + [action], k)
  {
    var n :| 0 <= n < |actions| && actions[n] == Deliver && DropsAt(Run(actions[..n]), k);
    assert (actions + [action])[..n] == actions[..n];
    assert (actions + [action])[n] == actions[n];
  }

  /** A held future stays accounted for: it is held, or resolved, or dropped by this very step. */
  lemma {:induction false} HeldStep(s: State, action: Action, k: nat)
    requires Good(s) && k < |s.futures| && Held(s, k) && !(action == Deliver && DropsAt(s, k))
    ensures var s' := Step(s, action); k < |s'.futures| && (s'.futures[k] != [] || Held(s', k))
  {
    if action == Drain && s.reader.Leaving? {
      DrainKeeps(s);
    }
  }

  lemma {:induction false} ResolvedStep(s: State, action: Action, k: nat)
    requires Good(s) && k < |s.futures| && s.futures[k] != []
    ensures k < |Step(s, action).futures| && Step(s, action).futures[k] != []
    ensures Step(s, action).futures[k][0] == s.futures[k][0]
  {
    if action == Drain && s.reader.Leaving? {
      DrainKeeps(s);
    }
  }

  lemma {:induction false} AccountedStep(actions: seq<Action>, action: Action, k: nat)
    requires Good(Run(actions)) && k < |Step(Run(actions), action).futures|
    requires k < |Run(actions).futures| ==> Accounted(actions, Run(actions), k)
    ensures Accounted(actions + [action], Step(Run(actions), action), k)
  {
    var s := Run(actions);
    if k >= |s.futures| {
      assert action.Submit? && k + 1 in Step(s, action).pending by { assert s.sequence == |s.futures|; }
    } else if Dropped(actions, k) {
      DroppedStays(actions, action, k);
    } else if s.futures[k] != [] {
      ResolvedStep(s, action, k);
    } else if Held(s, k) {
      if action == Deliver && DropsAt(s, k) {
        assert (actions + [action])[..|actions|] == actions && (actions + [action])[|actions|] == Deliver;
      } else {
        HeldStep(s, action, k);
      }
    }
  }

  lemma {:induction false} EveryFutureAccounted(actions: seq<Action>, k: nat)
    requires k < |Run(actions).futures|
    ensures Accounted(actions, Run(actions), k)
  {
    if actions != [] {
      var init, last := actions[..|actions| - 1], actions[|actions| - 1];
      assert actions == init + [last];
      AtMostOnce(init);
      if k < |Run(init).futures| {
        EveryFutureAccounted(init, k);
      }
      AccountedStep(init, last, k);
    }
  }

  ghost predicate Unreachable(s: State, k: nat) {
    k < |s.futures| && s.futures[k] == [] && !Held(s, k)
  }

  lemma {:induction false} UnreachableStep(s: State, action: Action, k: nat)
    requires Good(s) && Unreachable(s, k)
    ensures Unreachable(Step(s, action), k)
  {
    if action == Drain && s.reader.Leaving? {
      DrainKeeps(s);
    }
  }

  lemma {:induction false} DropStep(s: State, k: nat)
    requires Good(s) && DropsAt(s, k)
    ensures Unreachable(Step(s, Deliver), k)
  {
    assert Held(s, k);
  }

  /** Once dropped, a future stays unresolved for ever. */
  lemma {:induction false} DroppedNeverResolved(actions: seq<Action>, k: nat)
    requires Dropped(actions, k)
    ensures Unreachable(Run(actions), k)
  {
    var init, last := actions[..|actions| - 1], actions[|actions| - 1];
    var n :| 0 <= n < |actions| && actions[n] == Deliver && DropsAt(Run(actions[..n]), k);
    AtMostOnce(init);
    if n == |init| {
      DropStep(Run(init), k);
    } else {
      assert init[..n] == actions[..n] && init[n] == Deliver;
      DroppedNeverResolved(init, k);
      UnreachableStep(Run(init), last, k);
    }
  }

  /** When the reader is gone, a future registered before its final drain has exactly one
      outcome, if and only if the response taken for it was not unusable: an error field
      without a message, or neither error nor result. */
  lemma {:induction false} ExactlyOnce(actions: seq<Action>, k: nat)
    requires Run(actions).reader.Gone? && k < Run(actions).drainedAt
    ensures var s := Run(actions);
      && k < |s.futures|
      && (|s.futures[k]| == 1 <==> !Dropped(actions, k))
      && (|s.futures[k]| == 1 ==> ForItself(s.futures[k][0], k))
  {
    AtMostOnce(actions);
    EveryFutureAccounted(actions, k);
    if Dropped(actions, k) {
      DroppedNeverResolved(actions, k);
    }
  }

  lemma {:induction false} RunStep(actions: seq<Action>, action: Action)
    ensures Run(actions + [action]) == Step(Run(actions), action)
  {
    assert (actions + [action])[..|actions|] == actions;
  }

  /** Each way of being unusable does leave a future unresolved. */
  lemma {:induction false} UnusableResponseDrops(payload: Payload)
    requires payload.Unusable()
    ensures var s := Run([Submit(true), Receive(Response(1, payload)), Deliver, Drain]);
      s.reader.Gone? && 0 < s.drainedAt && s.futures == [[]]
  {
    var submit, receive := [Submit(true)], Receive(Response(1, payload));
    assert submit == [] + submit;
    RunStep([], Submit(true));
    RunStep(submit, receive);
    RunStep(submit + [receive], Deliver);
    RunStep(submit + [receive, Deliver], Drain);
    assert submit + [receive] + [Deliver] == submit + [receive, Deliver];
    assert submit + [receive, Deliver] + [Drain] == [Submit(true), receive, Deliver, Drain];
    var left := State(1, map[], [[]], [1], Leaving, 0);
    assert Run(submit) == State(1, map[1 := 0], [[]], [1], Reading, 0);
    assert Run(submit + [receive]) == left.(reader := Holding(0, 1, payload));
    assert Run(submit + [receive, Deliver]) == left;
    CloseAllMeaning(left);
    assert CloseAll(left) == [[]];
  }

  ghost predicate UsableResponses(actions: seq<Action>) {
    forall n :: 0 <= n < |actions| && actions[n].Receive? && actions[n].line.Response? ==>
      !actions[n].line.payload.Unusable()
  }

  ghost predicate WellFormedResponses(actions: seq<Action>) {
    forall n :: 0 <= n < |actions| && actions[n].Receive? && actions[n].line.Response? ==>
      actions[n].line.payload.WellFormed()
  }

  lemma {:induction false} WellFormedIsUsable(actions: seq<Action>)
    requires WellFormedResponses(actions)
    ensures UsableResponses(actions)
  {
  }

  lemma {:induction false} NeverHoldsUnusable(actions: seq<Action>)
    requires UsableResponses(actions)
    ensures Run(actions).reader.Holding? ==> !Run(actions).reader.payload.Unusable()
  {
    if actions != [] {
      var init := actions[..|actions| - 1];
      assert forall n :: 0 <= n < |init| ==> init[n] == actions[n];
      NeverHoldsUnusable(init);
    }
  }

  lemma {:induction false} NothingDropped(actions: seq<Action>, k: nat)
    requires UsableResponses(actions)
    ensures !Dropped(actions, k)
  {
    forall n | 0 <= n < |actions| ensures !DropsAt(Run(actions[..n]), k) {
      NeverHoldsUnusable(actions[..n]);
    }
  }

  /** With well-formed responses every future registered before the drain gets exactly one
      outcome, its own. */
  lemma {:induction false} ExactlyOnceIfWellFormed(actions: seq<Action>, k: nat)
    requires WellFormedResponses(actions) && Run(actions).reader.Gone? && k < Run(actions).drainedAt
    ensures var s := Run(actions); k < |s.futures| && |s.futures[k]| == 1 && ForItself(s.futures[k][0], k)
  {
    WellFormedIsUsable(actions);
    NothingDropped(actions, k);
    ExactlyOnce(actions, k);
  }

  /** An answer that was not there before was in the reader's hand. */
  lemma {:induction false} NewAnswer(s: State, action: Action, k: nat)
    requires Good(s) && k < |Step(s, action).futures| && Step(s, action).futures[k] != []
    requires Step(s, action).futures[k][0].Answered? && (k < |s.futures| ==> s.futures[k] == [])
    ensures s.reader.Holding? && s.reader.id == k + 1
    ensures s.reader.payload == Payload(Some(Step(s, action).futures[k][0].value), NoError)
  {
    if action == Drain && s.reader.Leaving? {
      DrainKeeps(s);
    }
  }

  /** An answer was really received: the value set on a future came in a response to its request. */
  lemma {:induction false} AnswersAreGenuine(actions: seq<Action>, k: nat)
    requires var s := Run(actions); k < |s.futures| && s.futures[k] != [] && s.futures[k][0].Answered?
    ensures var value := Run(actions).futures[k][0].value;
      Receive(Response(k + 1, Payload(Some(value), NoError))) in actions
  {
    var init, last := actions[..|actions| - 1], actions[|actions| - 1];
    assert actions == init + [last];
    AtMostOnce(init);
    if k < |Run(init).futures| && Run(init).futures[k] != [] {
      ResolvedStep(Run(init), last, k);
      AnswersAreGenuine(init, k);
    } else {
      NewAnswer(Run(init), last, k);
      HeldWasReceived(init);
    }
  }

  lemma {:induction false} HeldWasReceived(actions: seq<Action>)
    requires Run(actions).reader.Holding?
    ensures Receive(Response(Run(actions).reader.id, Run(actions).reader.payload)) in actions
  {
    var init, last := actions[..|actions| - 1], actions[|actions| - 1];
    assert actions == init + [last];
    if Run(init).reader.Holding? {
      HeldWasReceived(init);
    } else {
      assert last == Receive(Response(Run(actions).reader.id, Run(actions).reader.payload));
    }
  }

  // ----- which outcome a future gets -----

  /** `action` makes the reader take future `k`. */
  predicate Takes(s: State, action: Action, k: nat) {
    && action.Receive? && action.line.Response? && action.line.id == k + 1
    && s.reader.Reading? && k + 1 in s.pending
  }

  /** What was received for future `k`, if it was taken. */
  function Taken(actions: seq<Action>, k: nat): Option<Payload> {
    if actions == [] then None else
      var init, last := actions[..|actions| - 1], actions[|actions| - 1];
      if Takes(Run(init), last, k) then Some(last.line.payload) else Taken(init, k)
  }

  /** What a response means for its future: its message before its result, or nothing at all. */
  function Decided(payload: Payload, k: nat): seq<Resolution> {
    match payload
    case Payload(_, Message(text)) => [Refused(k + 1, text)]
    case Payload(Some(value), NoError) => [Answered(k + 1, value)]
    case _ => []
  }

  predicate InHand(s: State, k: nat) { s.reader.Holding? && s.reader.future == k }

  /** A future that was taken has the outcome of its response, as soon as it is out of the reader's
      hand; any other is open or was closed. */
  ghost predicate Fits(taken: Option<Payload>, s: State, k: nat)
    requires k < |s.futures|
  {
    match taken
    case None => !InHand(s, k) && (s.futures[k] == [] || s.futures[k] == [Closed])
    case Some(payload) =>
      && k + 1 !in s.pending
      && if InHand(s, k) then s.reader.payload == payload && s.futures[k] == []
         else s.futures[k] == Decided(payload, k)
  }

  lemma {:induction false} TakenStep(actions: seq<Action>, action: Action, k: nat)
    ensures Taken(actions + [action], k) ==
      if Takes(Run(actions), action, k) then Some(action.line.payload) else Taken(actions, k)
  {
    assert (actions + [action])[..|actions|] == actions;
  }

  lemma {:induction false} TakenExists(actions: seq<Action>, k: nat)
    requires Taken(actions, k).Some?
    ensures k < |Run(actions).futures| && Receive(Response(k + 1, Taken(actions, k).value)) in actions
  {
    var init, last := actions[..|actions| - 1], actions[|actions| - 1];
    assert actions == init + [last];
    TakenStep(init, last, k);
    AtMostOnce(init);
    FuturesStay(Run(init), last);
    if !Takes(Run(init), last, k) {
      TakenExists(init, k);
    } else {
      assert last == Receive(Response(k + 1, last.line.payload));
    }
  }

  lemma {:induction false} FuturesStay(s: State, action: Action)
    ensures |Step(s, action).futures| >= |s.futures|
  {
  }

  lemma {:induction false} DeliveryDecides(s: State, k: nat)
    requires Good(s) && InHand(s, k)
    ensures k < |Step(s, Deliver).futures| && Step(s, Deliver).futures[k] == Decided(s.reader.payload, k)
    ensures !InHand(Step(s, Deliver), k)
  {
    assert Held(s, k);
  }

  lemma {:induction false} DeliveryElsewhere(s: State, k: nat)
    requires Good(s) && k < |s.futures| && !InHand(s, k)
    ensures Step(s, Deliver).futures[k] == s.futures[k] && !InHand(Step(s, Deliver), k)
  {
  }

  lemma {:induction false} FitsStep(s: State, action: Action, k: nat, taken: Option<Payload>)
    requires Good(s) && k < |s.futures| && Fits(taken, s, k)
    ensures k < |Step(s, action).futures|
    ensures Fits(if Takes(s, action, k) then Some(action.line.payload) else taken, Step(s, action), k)
  {
    match action
    case Submit(_) =>
    case Receive(_) =>
      if Takes(s, action, k) {
        assert Held(s, k);
        assert s.pending[k + 1] == k;
      }
    case Deliver =>
      if InHand(s, k) {
        DeliveryDecides(s, k);
      } else {
        DeliveryElsewhere(s, k);
      }
    case EndOfStream =>
    case Drain =>
      if s.reader.Leaving? {
        DrainKeeps(s);
        if k + 1 in s.pending { assert Held(s, k); }
      }
  }

  /** In every interleaving the response taken for a future decides its outcome: its message as that
      error, its result as that value. A future that is closed had no response taken for it. */
  lemma {:induction false} ResponseDecides(actions: seq<Action>, k: nat)
    requires k < |Run(actions).futures|
    ensures Fits(Taken(actions, k), Run(actions), k)
  {
    var init, last := actions[..|actions| - 1], actions[|actions| - 1];
    assert actions == init + [last];
    AtMostOnce(init);
    TakenStep(init, last, k);
    if k < |Run(init).futures| {
      ResponseDecides(init, k);
      FitsStep(Run(init), last, k, Taken(init, k));
    } else {
      if Taken(init, k).Some? {
        TakenExists(init, k);
      }
      assert last.Submit?;
    }
  }

  /** The same, read from the outcome: an error and a value were received as such, for this future. */
  lemma {:induction false} OutcomeWasReceived(actions: seq<Action>, k: nat, outcome: Resolution)
    requires k < |Run(actions).futures| && Run(actions).futures[k] == [outcome]
    ensures outcome == Closed <==> Taken(actions, k).None?
    ensures outcome != Closed ==> Decided(Taken(actions, k).value, k) == [outcome]
    ensures outcome.Refused? ==>
      exists result :: Receive(Response(k + 1, Payload(result, Message(outcome.message)))) in actions
  {
    ResponseDecides(actions, k);
    if Taken(actions, k).Some? {
      TakenExists(actions, k);
      var payload := Taken(actions, k).value;
      if outcome.Refused? {
        assert payload == Payload(payload.result, Message(outcome.message));
      }
    }
  }

  /** Once the reader is on its way out, no further response is taken. */
  lemma {:induction false} LeavingTakesNoMore(actions: seq<Action>, later: seq<Action>, k: nat)
    requires Run(actions).reader.Leaving? || Run(actions).reader.Gone?
    ensures Taken(actions + later, k) == Taken(actions, k)
    ensures Run(actions + later).reader.Leaving? || Run(actions + later).reader.Gone?
    decreases |later|
  {
    if later == [] {
      assert actions + later == actions;
    } else {
      var n: nat :| |later| == n + 1;
      LeavingTakesNoMore(actions, later[..n], k);
      assert actions + later == actions + later[..n] + [later[n]];
      TakenStep(actions + later[..n], later[n], k);
      RunStep(actions + later[..n], later[n]);
    }
  }

  /** A line that is no response, or answers no open request, sends the reader out. */
  lemma {:induction false} BadLineLeaves(actions: seq<Action>, line: Line)
    requires Run(actions).reader.Reading? && (line.Response? ==> line.id !in Run(actions).pending)
    ensures Run(actions + [Receive(line)]).reader.Leaving?
  {
    RunStep(actions, Receive(line));
  }

  function Written(actions: seq<Action>): nat {
    if actions == [] then 0
    else Written(actions[..|actions| - 1]) + if actions[|actions| - 1] == Submit(true) then 1 else 0
  }

  /** As many requests went out as were written. */
  lemma {:induction false} WrittenIsSent(actions: seq<Action>)
    ensures |Run(actions).sent| == Written(actions)
  {
    if actions != [] {
      WrittenIsSent(actions[..|actions| - 1]);
    }
  }

  /** At the end of the stream the reader leaves, and then the drain closes what is open. */
  lemma {:induction false} EndOfStreamCloses(actions: seq<Action>, k: nat)
    requires Run(actions).reader.Reading? && k + 1 in Run(actions).pending
    ensures var s := Run(actions + [EndOfStream, Drain]);
      s.reader.Gone? && k < |s.futures| && s.futures[k] == [Closed]
  {
    AtMostOnce(actions);
    var s := Run(actions);
    assert Held(s, k);
    RunStep(actions, EndOfStream);
    RunStep(actions + [EndOfStream], Drain);
    assert actions + [EndOfStream] + [Drain] == actions + [EndOfStream, Drain];
    DrainKeeps(s.(reader := Leaving));
  }
}
