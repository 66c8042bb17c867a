/** When the totals of a session are the tokens of its requests: exactly when no request that was
    reported with tokens was reported again. */
module RepeatedUsage {
  import opened Wrappers
  import opened SessionLog
  import opened TokenLedger

  /** What the record shows for a request: nothing if it is not on record. */
  function Shown(lines: seq<Line>, id: string, key: string): Tokens {
    Lookup(SessionIn(lines, id).requests, key).tokens
  }

  /** Usage line `n` is for the request `key`, which is on record. */
  predicate Reports(lines: seq<Line>, id: string, n: nat, key: string) {
    Attributed(lines, id, n) && lines[n].value.event.requestId == key
  }

  /** Lines `i` and `j` report the same request, the first of them with tokens. */
  predicate ReportedAgain(lines: seq<Line>, id: string, i: nat, j: nat) {
    && i < j < |lines| && Attributed(lines, id, i) && UsageTokens(lines[i].value.event) != ZERO
    && Reports(lines, id, j, lines[i].value.event.requestId)
  }

  ghost predicate Repeats(lines: seq<Line>, id: string) {
    exists i, j :: ReportedAgain(lines, id, i, j)
  }

  lemma {:induction false} AttributedInPrefix(lines: seq<Line>, id: string, n: nat, i: nat)
    requires i < n <= |lines|
    ensures Attributed(lines[..n], id, i) <==> Attributed(lines, id, i)
  {
    assert lines[..n][..i] == lines[..i];
  }

  lemma {:induction false} RepeatsInPrefix(lines: seq<Line>, id: string, n: nat)
    requires n <= |lines| && Repeats(lines[..n], id)
    ensures Repeats(lines, id)
  {
    var i, j :| ReportedAgain(lines[..n], id, i, j);
    AttributedInPrefix(lines, id, n, i);
    AttributedInPrefix(lines, id, n, j);
    assert ReportedAgain(lines, id, i, j);
  }

  lemma {:induction false} UpdateShown(requests: Requests, entry: Entry, key: string)
    ensures Lookup(UpdateRequests(requests, entry), key).tokens ==
      if entry.event.ResponseUsage? && key != "" && key in requests.values && entry.event.requestId == key
      then UsageTokens(entry.event) else Lookup(requests, key).tokens
  {
    OnlyUsageSetsTokens(Lookup(requests, RequestKey(entry)), entry);
  }

  /** Only a report for a request changes what it shows. */
  lemma {:induction false} ShownStep(lines: seq<Line>, id: string, key: string, n: nat)
    requires n < |lines|
    ensures Shown(lines[..n + 1], id, key) ==
      if Reports(lines, id, n, key) then UsageTokens(lines[n].value.event) else Shown(lines[..n], id, key)
  {
    var longer := lines[..n + 1];
    assert longer[..n] == lines[..n] && longer[n] == lines[n];
    SessionStep(longer, id);
    if Of(lines[n], id) {
      UpdateShown(SessionIn(lines[..n], id).requests, lines[n].value, key);
    }
  }

  lemma {:induction false} NothingShownYet(lines: seq<Line>, id: string, key: string)
    ensures Shown(lines[..0], id, key) == ZERO
  {
    assert SessionIn(lines[..0], id) == NewSession(id);
  }

  /** What a request shows was reported for it. */
  lemma {:induction false} ShownWasReported(lines: seq<Line>, id: string, key: string, n: nat) returns (i: nat)
    requires n <= |lines| && Shown(lines[..n], id, key) != ZERO
    ensures i < n && Reports(lines, id, i, key) && UsageTokens(lines[i].value.event) == Shown(lines[..n], id, key)
  {
    NothingShownYet(lines, id, key);
    var m: nat :| n == m + 1;
    ShownStep(lines, id, key, m);
    if Reports(lines, id, m, key) {
      i := m;
    } else {
      i := ShownWasReported(lines, id, key, m);
    }
  }

  /** What a request shows changes only with a report for it. */
  lemma {:induction false} ShownChanges(lines: seq<Line>, id: string, key: string, a: nat, b: nat) returns (c: nat)
    requires a <= b <= |lines| && Shown(lines[..a], id, key) != Shown(lines[..b], id, key)
    ensures a <= c < b && Reports(lines, id, c, key)
    decreases b
  {
    var m: nat :| b == m + 1;
    ShownStep(lines, id, key, m);
    if Reports(lines, id, m, key) {
      c := m;
    } else {
      c := ShownChanges(lines, id, key, a, m);
    }
  }

  lemma {:induction false} ReplacedIsShown(lines: seq<Line>, id: string, n: nat)
    requires Attributed(lines, id, n)
    ensures Replaced(lines, id, n) == Shown(lines[..n], id, lines[n].value.event.requestId)
  {
  }

  // ----- nothing is overwritten unless a report is repeated -----

  lemma {:induction false} ReplacedOnlyByRepeats(lines: seq<Line>, id: string, n: nat)
    requires Attributed(lines, id, n) && Replaced(lines, id, n) != ZERO
    ensures Repeats(lines, id)
  {
    var key := lines[n].value.event.requestId;
    ReplacedIsShown(lines, id, n);
    var i := ShownWasReported(lines, id, key, n);
    assert ReportedAgain(lines, id, i, n);
  }

  /** What line `n` adds to the tokens overwritten. */
  function Added(lines: seq<Line>, id: string, n: nat): Tokens {
    if Attributed(lines, id, n) then Replaced(lines, id, n) else ZERO
  }

  lemma {:induction false} OverwrittenStep(lines: seq<Line>, id: string, n: nat)
    requires |lines| == n + 1
    ensures Overwritten(lines, id) == Overwritten(lines[..n], id).Plus(Added(lines, id, n))
  {
  }

  lemma {:induction false} NothingAdded(t: Tokens)
    requires t == ZERO
    ensures t.Plus(ZERO) == ZERO
  {
  }

  lemma {:induction false} NothingOverwritten(lines: seq<Line>, id: string)
    requires !Repeats(lines, id)
    ensures Overwritten(lines, id) == ZERO
  {
    if lines != [] {
      var n: nat :| |lines| == n + 1;
      if Repeats(lines[..n], id) { RepeatsInPrefix(lines, id, n); }
      NothingOverwritten(lines[..n], id);
      if Attributed(lines, id, n) && Replaced(lines, id, n) != ZERO {
        ReplacedOnlyByRepeats(lines, id, n);
      }
      OverwrittenStep(lines, id, n);
      NothingAdded(Overwritten(lines[..n], id));
    }
  }

  // ----- a repeated report overwrites -----

  predicate NonNegative(t: Tokens) {
    t.input >= 0 && t.output >= 0 && t.cacheCreation >= 0 && t.cacheRead >= 0
  }

  predicate Covers(t: Tokens, part: Tokens) {
    && t.input >= part.input && t.output >= part.output
    && t.cacheCreation >= part.cacheCreation && t.cacheRead >= part.cacheRead
  }

  /** No usage of the session has a negative count. */
  ghost predicate Counted(lines: seq<Line>, id: string) {
    forall i :: 0 <= i < |lines| && IsUsage(lines[i], id) ==> NonNegative(UsageTokens(lines[i].value.event))
  }

  lemma {:induction false} ReplacedNonNegative(lines: seq<Line>, id: string, n: nat)
    requires Counted(lines, id) && Attributed(lines, id, n)
    ensures NonNegative(Replaced(lines, id, n))
  {
    ReplacedIsShown(lines, id, n);
    if Replaced(lines, id, n) != ZERO {
      var i := ShownWasReported(lines, id, lines[n].value.event.requestId, n);
      assert IsUsage(lines[i], id);
    }
  }

  lemma {:induction false} ReplacedInPrefix(lines: seq<Line>, id: string, n: nat, m: nat)
    requires m < n <= |lines| && Attributed(lines, id, m)
    ensures Attributed(lines[..n], id, m) && Replaced(lines[..n], id, m) == Replaced(lines, id, m)
  {
    assert lines[..n][..m] == lines[..m];
  }

  lemma {:induction false} AddedNonNegative(lines: seq<Line>, id: string, n: nat)
    requires Counted(lines, id)
    ensures NonNegative(Added(lines, id, n))
  {
    if Attributed(lines, id, n) {
      ReplacedNonNegative(lines, id, n);
    }
  }

  lemma {:induction false} CoversMore(t: Tokens, more: Tokens, part: Tokens)
    requires NonNegative(t) && NonNegative(more)
    ensures NonNegative(t.Plus(more)) && Covers(t.Plus(more), more)
    ensures Covers(t, part) ==> Covers(t.Plus(more), part)
  {
  }

  lemma {:induction false} CountedPrefix(lines: seq<Line>, id: string, n: nat)
    requires n <= |lines| && Counted(lines, id)
    ensures Counted(lines[..n], id)
  {
    assert forall i :: 0 <= i < n ==> lines[..n][i] == lines[i];
  }

  lemma {:induction false} OverwrittenNonNegative(lines: seq<Line>, id: string)
    requires Counted(lines, id)
    ensures NonNegative(Overwritten(lines, id))
  {
    if lines != [] {
      var n: nat :| |lines| == n + 1;
      CountedPrefix(lines, id, n);
      OverwrittenNonNegative(lines[..n], id);
      OverwrittenStep(lines, id, n);
      AddedNonNegative(lines, id, n);
      CoversMore(Overwritten(lines[..n], id), Added(lines, id, n), ZERO);
    }
  }

  lemma {:induction false} OverwrittenCovers(lines: seq<Line>, id: string, m: nat)
    requires Counted(lines, id) && Attributed(lines, id, m)
    ensures Covers(Overwritten(lines, id), Replaced(lines, id, m))
  {
    var n: nat :| |lines| == n + 1;
    CountedPrefix(lines, id, n);
    OverwrittenNonNegative(lines[..n], id);
    OverwrittenStep(lines, id, n);
    AddedNonNegative(lines, id, n);
    CoversMore(Overwritten(lines[..n], id), Added(lines, id, n), Replaced(lines, id, m));
    if m < n {
      ReplacedInPrefix(lines, id, n, m);
      OverwrittenCovers(lines[..n], id, m);
    }
  }

  /** Between a report with tokens and a later one for the same request, some report replaces tokens. */
  lemma {:induction false} RepeatReplaces(lines: seq<Line>, id: string, i: nat, j: nat) returns (m: nat)
    requires ReportedAgain(lines, id, i, j)
    ensures Attributed(lines, id, m) && Replaced(lines, id, m) != ZERO
    decreases j
  {
    var key := lines[i].value.event.requestId;
    ReplacedIsShown(lines, id, j);
    if Replaced(lines, id, j) != ZERO {
      m := j;
    } else {
      ShownStep(lines, id, key, i);
      var c := ShownChanges(lines, id, key, i + 1, j);
      m := RepeatReplaces(lines, id, i, c);
    }
  }

  lemma {:induction false} RepeatsOverwrite(lines: seq<Line>, id: string)
    requires Counted(lines, id) && Repeats(lines, id)
    ensures Overwritten(lines, id) != ZERO
  {
    var i, j :| ReportedAgain(lines, id, i, j);
    var m := RepeatReplaces(lines, id, i, j);
    OverwrittenCovers(lines, id, m);
    ReplacedNonNegative(lines, id, m);
  }

  // ----- totals and requests -----

  lemma {:induction false} NoneOverwritten(shown: Tokens, unattributed: Tokens, overwritten: Tokens)
    ensures Ledger(shown, unattributed, overwritten) == shown.Plus(unattributed) <==> overwritten == ZERO
  {
  }

  lemma {:induction false} TotalsWithoutOverwriting(lines: seq<Line>, id: string)
    requires forall i :: 0 <= i < |lines| ==> !IsEnd(lines[i], id)
    ensures SessionIn(lines, id).total == ShownTokens(lines, id).Plus(Unattributed(lines, id))
      <==> Overwritten(lines, id) == ZERO
  {
    TotalsWithoutEnd(lines, id);
    UsageConserved(lines, id);
    NoneOverwritten(ShownTokens(lines, id), Unattributed(lines, id), Overwritten(lines, id));
  }

  /** A session that never ended, with counts that are not negative: its totals are the tokens of
      its requests plus the usage that named no request on record exactly when no request reported
      with tokens is reported again. */
  lemma {:induction false} TotalsOfRequestsExact(lines: seq<Line>, id: string)
    requires forall i :: 0 <= i < |lines| ==> !IsEnd(lines[i], id)
    requires Counted(lines, id)
    ensures SessionIn(lines, id).total == ShownTokens(lines, id).Plus(Unattributed(lines, id)) <==> !Repeats(lines, id)
  {
    TotalsWithoutOverwriting(lines, id);
    if Repeats(lines, id) {
      RepeatsOverwrite(lines, id);
    } else {
      NothingOverwritten(lines, id);
    }
  }

  predicate OncePerRequest(lines: seq<Line>, id: string) {
    forall i, j :: 0 <= i < j < |lines| && Attributed(lines, id, i) && Attributed(lines, id, j) ==>
      lines[i].value.event.requestId != lines[j].value.event.requestId
  }

  /** Whatever the counts, one usage line per request on record is enough. */
  lemma {:induction false} TotalsOfRequests(lines: seq<Line>, id: string)
    requires forall i :: 0 <= i < |lines| ==> !IsEnd(lines[i], id)
    requires OncePerRequest(lines, id)
    ensures SessionIn(lines, id).total == ShownTokens(lines, id).Plus(Unattributed(lines, id))
  {
    TotalsWithoutOverwriting(lines, id);
    NothingOverwritten(lines, id);
  }

  // ----- a log that shows the difference -----

  function UsageLine(id: string, key: string, input: int): Line {
    Some(Entry(id, None, ResponseUsage(key, Some(input), None, None, None)))
  }

  /** A request that is started once and reported twice. */
  function TwoReports(id: string, key: string, first: int, second: int): seq<Line> {
    [Some(Entry(id, None, RequestStarted(key, None, None, None))), UsageLine(id, key, first), UsageLine(id, key, second)]
  }

  lemma {:induction false} TwoReportsRepeat(id: string, key: string, first: int, second: int)
    requires id != "" && key != "" && first != 0
    ensures Repeats(TwoReports(id, key, first, second), id)
  {
    var lines := TwoReports(id, key, first, second);
    assert Introduces(lines[0], id, key);
    assert lines[..1][0] == lines[0] && lines[..2][0] == lines[0];
    KnownRequests(lines[..1], id, key);
    KnownRequests(lines[..2], id, key);
    assert Attributed(lines, id, 1) && Attributed(lines, id, 2);
    assert ReportedAgain(lines, id, 1, 2);
  }

  lemma {:induction false} TwoReportsCounted(id: string, key: string, first: nat, second: nat)
    ensures var lines := TwoReports(id, key, first, second);
      Counted(lines, id) && forall i :: 0 <= i < |lines| ==> !IsEnd(lines[i], id)
  {
  }

  /** Two reports of one request: the totals are not what the requests show. */
  lemma {:induction false} TwoReportsDiffer(id: string, key: string, first: nat, second: nat)
    requires id != "" && key != "" && first != 0
    ensures var lines := TwoReports(id, key, first, second);
      SessionIn(lines, id).total != ShownTokens(lines, id).Plus(Unattributed(lines, id))
  {
    TwoReportsCounted(id, key, first, second);
    TwoReportsRepeat(id, key, first, second);
    TotalsOfRequestsExact(TwoReports(id, key, first, second), id);
  }
}
