/** What the log analyser's token figures mean: sessions do not disturb each other, and every
    token a log reports is accounted for exactly once. */
module TokenLedger {
  import opened Wrappers
  import opened SessionLog

  // ----- sums over dictionaries -----

  function At(weights: map<string, Tokens>, key: string): Tokens {
    if key in weights then weights[key] else ZERO
  }

  function Sum(keys: seq<string>, weights: map<string, Tokens>): Tokens {
    if keys == [] then ZERO else Sum(keys[..|keys| - 1], weights).Plus(At(weights, keys[|keys| - 1]))
  }

  lemma {:induction false} Cancel(a: Tokens, b: Tokens, t: Tokens)
    requires a.Plus(t) == b.Plus(t)
    ensures a == b
  {
  }

  lemma {:induction false} SumAppend(keys: seq<string>, key: string, weights: map<string, Tokens>)
    ensures Sum(keys + [key], weights) == Sum(keys, weights).Plus(At(weights, key))
  {
    assert (keys + [key])[..|keys + [key]| - 1] == keys;
  }

  lemma {:induction false} SumSame(keys: seq<string>, a: map<string, Tokens>, b: map<string, Tokens>)
    requires forall k :: k in keys ==> At(a, k) == At(b, k)
    ensures Sum(keys, a) == Sum(keys, b)
  {
    if keys != [] {
      SumSame(keys[..|keys| - 1], a, b);
    }
  }

  lemma {:induction false} Swap(t: Tokens, x: Tokens, y: Tokens)
    ensures t.Plus(x).Plus(y) == t.Plus(y).Plus(x)
  {
  }

  lemma {:induction false} Exchanged(before: Tokens, after: Tokens, out: Tokens, taken: Tokens, last: Tokens)
    requires after.Plus(out) == before.Plus(taken)
    ensures after.Plus(last).Plus(out) == before.Plus(last).Plus(taken)
  {
  }

  lemma {:induction false} SumChange(keys: seq<string>, a: map<string, Tokens>, b: map<string, Tokens>, key: string)
    requires forall i, j :: 0 <= i < j < |keys| ==> keys[i] != keys[j]
    requires key in keys && forall k :: k in keys && k != key ==> At(a, k) == At(b, k)
    ensures Sum(keys, b).Plus(At(a, key)) == Sum(keys, a).Plus(At(b, key))
  {
    var n: nat :| |keys| == n + 1;
    var rest, last := keys[..n], keys[n];
    assert keys == rest + [last];
    SumAppend(rest, last, a);
    SumAppend(rest, last, b);
    if last == key {
      SumSame(rest, a, b);
      Swap(Sum(rest, a), At(a, key), At(b, key));
    } else {
      SumChange(rest, a, b, key);
      Exchanged(Sum(rest, a), Sum(rest, b), At(a, key), At(b, key), At(a, last));
    }
  }

  /** Putting one entry into a dictionary moves the sum by that entry alone. */
  lemma {:induction false} SumPut<V>(before: Dict<V>, key: string, value: V,
                                     a: map<string, Tokens>, b: map<string, Tokens>)
    requires before.Valid() && (key !in before.values ==> At(a, key) == ZERO)
    requires forall k :: k in before.keys && k != key ==> At(a, k) == At(b, k)
    ensures Sum(before.Put(key, value).keys, b).Plus(At(a, key)) == Sum(before.keys, a).Plus(At(b, key))
  {
    if key in before.values {
      SumChange(before.keys, a, b, key);
    } else {
      SumSame(before.keys, a, b);
      SumAppend(before.keys, key, b);
    }
  }

  // ----- one session among many -----

  predicate Of(line: Line, id: string) {
    Counts(line) && line.value.sessionId == id
  }

  /** The lines of one session, in order. */
  function LinesOf(lines: seq<Line>, id: string): seq<Line> {
    if lines == [] then [] else
      LinesOf(lines[..|lines| - 1], id) + if Of(lines[|lines| - 1], id) then [lines[|lines| - 1]] else []
  }

  function SessionIn(lines: seq<Line>, id: string): Session {
    Find(Analyze(lines), id)
  }

  lemma {:induction false} SessionStep(lines: seq<Line>, id: string)
    requires lines != []
    ensures var last := lines[|lines| - 1];
      SessionIn(lines, id) ==
        if Of(last, id) then Update(SessionIn(lines[..|lines| - 1], id), last.value)
        else SessionIn(lines[..|lines| - 1], id)
  {
  }

  /** The record of a session is what its own lines alone would give, its requests included. */
  lemma {:induction false} NonInterference(lines: seq<Line>, id: string)
    ensures id in Analyze(lines).values <==> LinesOf(lines, id) != []
    ensures SessionIn(lines, id) == SessionIn(LinesOf(lines, id), id)
  {
    if lines != [] {
      var rest, last := lines[..|lines| - 1], lines[|lines| - 1];
      NonInterference(rest, id);
      if Of(last, id) {
        var own := LinesOf(rest, id) + [last];
        assert own[..|own| - 1] == LinesOf(rest, id);
        SessionStep(own, id);
      } else {
        assert LinesOf(lines, id) == LinesOf(rest, id);
      }
      SessionStep(lines, id);
    }
  }

  /** Logs that interleave the same sessions differently give the same records. */
  lemma {:induction false} InterleavingsAgree(a: seq<Line>, b: seq<Line>)
    requires forall id :: LinesOf(a, id) == LinesOf(b, id)
    ensures Analyze(a).values == Analyze(b).values
  {
    forall id ensures id in Analyze(a).values <==> id in Analyze(b).values
      ensures SessionIn(a, id) == SessionIn(b, id)
    {
      NonInterference(a, id);
      NonInterference(b, id);
    }
    assert Analyze(a).values.Keys == Analyze(b).values.Keys;
    forall id | id in Analyze(a).values ensures Analyze(a).values[id] == Analyze(b).values[id] {
      assert SessionIn(a, id) == SessionIn(b, id);
    }
  }

  // ----- session totals -----

  predicate IsUsage(line: Line, id: string) {
    Of(line, id) && line.value.event.ResponseUsage?
  }

  predicate IsEnd(line: Line, id: string) {
    Of(line, id) && line.value.event.SessionEnded?
  }

  /** All the usage a log reports for one session. */
  function UsageOf(lines: seq<Line>, id: string): Tokens {
    if lines == [] then ZERO else
      var rest := UsageOf(lines[..|lines| - 1], id);
      var last := lines[|lines| - 1];
      if IsUsage(last, id) then rest.Plus(UsageTokens(last.value.event)) else rest
  }

  lemma {:induction false} UsageStep(lines: seq<Line>, id: string, n: nat)
    requires |lines| == n + 1
    ensures UsageOf(lines, id) ==
      if IsUsage(lines[n], id) then UsageOf(lines[..n], id).Plus(UsageTokens(lines[n].value.event))
      else UsageOf(lines[..n], id)
    ensures SessionIn(lines, id).total ==
      if Of(lines[n], id) then UpdateTotal(SessionIn(lines[..n], id).total, lines[n].value.event)
      else SessionIn(lines[..n], id).total
  {
    SessionStep(lines, id);
  }

  /** The cache totals are all the cache usage ever logged for the session. */
  lemma {:induction false} CacheTotals(lines: seq<Line>, id: string)
    ensures SessionIn(lines, id).total.cacheCreation == UsageOf(lines, id).cacheCreation
    ensures SessionIn(lines, id).total.cacheRead == UsageOf(lines, id).cacheRead
  {
    if lines == [] {
      assert SessionIn(lines, id) == NewSession(id);
    } else {
      var n: nat :| |lines| == n + 1;
      CacheTotals(lines[..n], id);
      UsageStep(lines, id, n);
    }
  }

  /** With its last end at line `k`, a session's input and output totals are what that end
      reported plus all usage logged after it. */
  lemma {:induction false} TotalsAfterEnd(lines: seq<Line>, id: string, k: nat)
    requires k < |lines| && IsEnd(lines[k], id)
    requires forall i :: k < i < |lines| ==> !IsEnd(lines[i], id)
    ensures var total, later, end := SessionIn(lines, id).total, UsageOf(lines[k + 1..], id), lines[k].value.event;
      && total.input == Or(end.inputTotal, 0) + later.input
      && total.output == Or(end.outputTotal, 0) + later.output
    decreases |lines|
  {
    SessionStep(lines, id);
    if k + 1 < |lines| {
      var rest := lines[..|lines| - 1];
      TotalsAfterEnd(rest, id, k);
      var tail := lines[k + 1..];
      assert tail[..|tail| - 1] == rest[k + 1..];
    }
  }

  /** A session that never ended: its totals are its usage. */
  lemma {:induction false} TotalsWithoutEnd(lines: seq<Line>, id: string)
    requires forall i :: 0 <= i < |lines| ==> !IsEnd(lines[i], id)
    ensures SessionIn(lines, id).total == UsageOf(lines, id)
  {
    if lines != [] {
      TotalsWithoutEnd(lines[..|lines| - 1], id);
      SessionStep(lines, id);
    }
  }

  // ----- usage of requests -----

  function RequestWeights(requests: Requests): map<string, Tokens> {
    map k | k in requests.values :: requests.values[k].tokens
  }

  /** The tokens shown for the single requests of a session. */
  function RequestTokens(requests: Requests): Tokens {
    Sum(requests.keys, RequestWeights(requests))
  }

  lemma {:induction false} RequestsValid(lines: seq<Line>, id: string)
    ensures SessionIn(lines, id).requests.Valid()
  {
    if lines != [] {
      var last := lines[|lines| - 1];
      RequestsValid(lines[..|lines| - 1], id);
      SessionStep(lines, id);
      if Of(last, id) {
        var requests := SessionIn(lines[..|lines| - 1], id).requests;
        var key := RequestKey(last.value);
        PutValid(requests, key, UpdateRequest(Lookup(requests, key), last.value));
      }
    }
  }

  lemma {:induction false} IntroductionStep(requests: Requests, entry: Entry, key: string)
    ensures key in UpdateRequests(requests, entry).values <==>
      key in requests.values || (!entry.event.ResponseUsage? && RequestKey(entry) == key && key != "")
  {
  }

  predicate Introduces(line: Line, id: string, key: string) {
    Of(line, id) && !line.value.event.ResponseUsage? && RequestKey(line.value) == key && key != ""
  }

  ghost predicate Introduced(lines: seq<Line>, id: string, key: string) {
    exists i :: 0 <= i < |lines| && Introduces(lines[i], id, key)
  }

  lemma {:induction false} IntroducedStep(rest: seq<Line>, last: Line, id: string, key: string)
    ensures Introduced(rest + [last], id, key) <==> Introduced(rest, id, key) || Introduces(last, id, key)
  {
    var lines := rest + [last];
    if Introduces(last, id, key) {
      assert Introduces(lines[|rest|], id, key);
    }
    if i :| 0 <= i < |rest| && Introduces(rest[i], id, key) {
      assert Introduces(lines[i], id, key);
    }
  }

  /** A request is on record exactly when some line other than usage named it. */
  lemma {:induction false} KnownRequests(lines: seq<Line>, id: string, key: string)
    ensures key in SessionIn(lines, id).requests.values <==> Introduced(lines, id, key)
  {
    if lines != [] {
      var rest, last := lines[..|lines| - 1], lines[|lines| - 1];
      KnownRequests(rest, id, key);
      SessionStep(lines, id);
      if Of(last, id) {
        IntroductionStep(SessionIn(rest, id).requests, last.value, key);
      }
      IntroducedStep(rest, last, id, key);
      assert lines == rest + [last];
    }
  }

  /** Usage line `i` is for a request already on record. */
  predicate Attributed(lines: seq<Line>, id: string, i: nat) {
    && i < |lines|
    && IsUsage(lines[i], id)
    && lines[i].value.event.requestId != ""
    && lines[i].value.event.requestId in SessionIn(lines[..i], id).requests.values
  }

  /** What the request of line `n` showed before that line. */
  function Replaced(lines: seq<Line>, id: string, n: nat): Tokens
    requires Attributed(lines, id, n)
  {
    SessionIn(lines[..n], id).requests.values[lines[n].value.event.requestId].tokens
  }

  /** Usage that names no request on record. */
  function Unattributed(lines: seq<Line>, id: string): Tokens {
    if lines == [] then ZERO else
      var n := |lines| - 1;
      Unattributed(lines[..n], id).Plus(
        if IsUsage(lines[n], id) && !Attributed(lines, id, n) then UsageTokens(lines[n].value.event) else ZERO)
  }

  /** Usage that later usage of the same request replaced. */
  function Overwritten(lines: seq<Line>, id: string): Tokens {
    if lines == [] then ZERO else
      var n := |lines| - 1;
      Overwritten(lines[..n], id).Plus(if Attributed(lines, id, n) then Replaced(lines, id, n) else ZERO)
  }

  lemma {:induction false} RequestWeight(requests: Requests, key: string)
    ensures At(RequestWeights(requests), key) == Lookup(requests, key).tokens
  {
  }

  lemma {:induction false} PutTokens(requests: Requests, key: string, request: RequestInfo)
    requires requests.Valid()
    ensures RequestTokens(requests.Put(key, request)).Plus(Lookup(requests, key).tokens)
      == RequestTokens(requests).Plus(request.tokens)
  {
    var a, b := RequestWeights(requests), RequestWeights(requests.Put(key, request));
    forall k ensures At(a, k) == Lookup(requests, k).tokens
      && At(b, k) == Lookup(requests.Put(key, request), k).tokens
    {
      RequestWeight(requests, k);
      RequestWeight(requests.Put(key, request), k);
    }
    SumPut(requests, key, request, a, b);
  }

  lemma {:induction false} OnlyUsageSetsTokens(request: RequestInfo, entry: Entry)
    ensures UpdateRequest(request, entry).tokens ==
      if entry.event.ResponseUsage? then UsageTokens(entry.event) else request.tokens
  {
  }

  /** Only usage moves the tokens of requests. */
  lemma {:induction false} RequestTokensStep(requests: Requests, entry: Entry)
    requires requests.Valid()
    ensures var after, key := UpdateRequests(requests, entry), RequestKey(entry);
      if entry.event.ResponseUsage? && key != "" && key in requests.values
      then RequestTokens(after).Plus(requests.values[key].tokens)
        == RequestTokens(requests).Plus(UsageTokens(entry.event))
      else RequestTokens(after) == RequestTokens(requests)
  {
    var key := RequestKey(entry);
    var request := Lookup(requests, key);
    var updated := UpdateRequest(request, entry);
    if key == "" || (entry.event.ResponseUsage? && key !in requests.values) {
      assert UpdateRequests(requests, entry) == requests;
    } else {
      assert UpdateRequests(requests, entry) == requests.Put(key, updated);
      OnlyUsageSetsTokens(request, entry);
      PutTokens(requests, key, updated);
      if !entry.event.ResponseUsage? {
        Cancel(RequestTokens(requests.Put(key, updated)), RequestTokens(requests), request.tokens);
      }
    }
  }

  function ShownTokens(lines: seq<Line>, id: string): Tokens {
    RequestTokens(SessionIn(lines, id).requests)
  }

  lemma {:induction false} ShownTokensStep(lines: seq<Line>, id: string, n: nat)
    requires |lines| == n + 1
    ensures var before, after := ShownTokens(lines[..n], id), ShownTokens(lines, id);
      if Attributed(lines, id, n)
      then after.Plus(Replaced(lines, id, n)) == before.Plus(UsageTokens(lines[n].value.event))
      else after == before
  {
    SessionStep(lines, id);
    if Of(lines[n], id) {
      RequestsValid(lines[..n], id);
      RequestTokensStep(SessionIn(lines[..n], id).requests, lines[n].value);
    }
  }

  function Ledger(shown: Tokens, unattributed: Tokens, overwritten: Tokens): Tokens {
    shown.Plus(unattributed).Plus(overwritten)
  }

  lemma {:induction false} LedgerStep(lines: seq<Line>, id: string, n: nat, before: Tokens, after: Tokens)
    requires |lines| == n + 1
    requires if Attributed(lines, id, n)
             then after.Plus(Replaced(lines, id, n)) == before.Plus(UsageTokens(lines[n].value.event))
             else after == before
    requires Ledger(before, Unattributed(lines[..n], id), Overwritten(lines[..n], id)) == UsageOf(lines[..n], id)
    ensures Ledger(after, Unattributed(lines, id), Overwritten(lines, id)) == UsageOf(lines, id)
  {
  }

  /** Every token of usage is shown for a request, or named no request on record, or was
      replaced by later usage of its request: nothing is lost and nothing counted twice. */
  lemma {:induction false} UsageConserved(lines: seq<Line>, id: string)
    ensures Ledger(ShownTokens(lines, id), Unattributed(lines, id), Overwritten(lines, id)) == UsageOf(lines, id)
  {
    if lines != [] {
      var n: nat :| |lines| == n + 1;
      UsageConserved(lines[..n], id);
      ShownTokensStep(lines, id, n);
      LedgerStep(lines, id, n, ShownTokens(lines[..n], id), ShownTokens(lines, id));
    } else {
      assert SessionIn(lines, id) == NewSession(id);
      assert ShownTokens(lines, id) == ZERO;
    }
  }

  // ----- overall totals -----

  /** A total that a later end of the session will overwrite counts for its cache part only. */
  function Mask(total: Tokens, ends: bool): Tokens {
    if ends then Tokens(0, 0, total.cacheCreation, total.cacheRead) else total
  }

  function Weights(sessions: Sessions, ending: set<string>): map<string, Tokens> {
    map id | id in sessions.values :: Mask(sessions.values[id].total, id in ending)
  }

  function GrandTotal(sessions: Sessions): Tokens {
    Sum(sessions.keys, Weights(sessions, {}))
  }

  /** What a single event adds to the totals of its session. */
  function Contribution(event: Event): Tokens {
    if event.ResponseUsage? then UsageTokens(event)
    else if event.SessionEnded? then Tokens(Or(event.inputTotal, 0), Or(event.outputTotal, 0), 0, 0)
    else ZERO
  }

  /** The sessions whose end comes at `entry` or later. */
  function Ending(entry: Entry, later: set<string>): set<string> {
    if entry.event.SessionEnded? then later + {entry.sessionId} else later
  }

  /** Reading the log backwards: usage counts in full, and an end with what it reports, unless
      a later end of the same session takes the place of input and output. */
  function Credit(lines: seq<Line>, later: set<string>): Tokens {
    if lines == [] then ZERO else
      var rest, last := lines[..|lines| - 1], lines[|lines| - 1];
      if !Counts(last) then Credit(rest, later)
      else Credit(rest, Ending(last.value, later)).Plus(
             Mask(Contribution(last.value.event), last.value.sessionId in later))
  }

  lemma {:induction false} MaskStep(total: Tokens, event: Event, ends: bool)
    ensures Mask(UpdateTotal(total, event), ends)
      == Mask(total, ends || event.SessionEnded?).Plus(Mask(Contribution(event), ends))
  {
  }

  lemma {:induction false} SessionsValid(lines: seq<Line>)
    ensures Analyze(lines).Valid()
  {
    if lines != [] {
      var rest, last := lines[..|lines| - 1], lines[|lines| - 1];
      SessionsValid(rest);
      if Counts(last) {
        var id := last.value.sessionId;
        PutValid(Analyze(rest), id, Update(Find(Analyze(rest), id), last.value));
      }
    }
  }

  lemma {:induction false} WeightsStep(sessions: Sessions, entry: Entry, later: set<string>)
    requires sessions.Valid()
    ensures var id, ending := entry.sessionId, Ending(entry, later);
      var updated := Update(Find(sessions, id), entry);
      var after := sessions.Put(id, updated);
      Sum(after.keys, Weights(after, later)).Plus(Mask(Find(sessions, id).total, id in ending))
        == Sum(sessions.keys, Weights(sessions, ending)).Plus(Mask(updated.total, id in later))
  {
    var id, ending := entry.sessionId, Ending(entry, later);
    var updated := Update(Find(sessions, id), entry);
    var after := sessions.Put(id, updated);
    forall k | k in sessions.keys && k != id
      ensures At(Weights(sessions, ending), k) == At(Weights(after, later), k)
    {
      assert k in ending <==> k in later;
    }
    assert At(Weights(sessions, ending), id) == Mask(Find(sessions, id).total, id in ending);
    SumPut(sessions, id, updated, Weights(sessions, ending), Weights(after, later));
  }

  lemma {:induction false} Rearranged(after: Tokens, before: Tokens, masked: Tokens, added: Tokens)
    requires after.Plus(masked) == before.Plus(masked.Plus(added))
    ensures after == before.Plus(added)
  {
  }

  /** One more entry, the older totals masked by its end as well. */
  lemma {:induction false} SumStep(sessions: Sessions, entry: Entry, later: set<string>)
    requires sessions.Valid()
    ensures var after := sessions.Put(entry.sessionId, Update(Find(sessions, entry.sessionId), entry));
      Sum(after.keys, Weights(after, later))
        == Sum(sessions.keys, Weights(sessions, Ending(entry, later))).Plus(
             Mask(Contribution(entry.event), entry.sessionId in later))
  {
    var id, ending := entry.sessionId, Ending(entry, later);
    var total := Find(sessions, id).total;
    var after := sessions.Put(id, Update(Find(sessions, id), entry));
    WeightsStep(sessions, entry, later);
    MaskStep(total, entry.event, id in later);
    Rearranged(Sum(after.keys, Weights(after, later)), Sum(sessions.keys, Weights(sessions, ending)),
               Mask(total, id in ending), Mask(Contribution(entry.event), id in later));
  }

  lemma {:induction false} SumIsCredit(lines: seq<Line>, later: set<string>)
    ensures Sum(Analyze(lines).keys, Weights(Analyze(lines), later)) == Credit(lines, later)
    decreases |lines|
  {
    if lines != [] {
      var rest, last := lines[..|lines| - 1], lines[|lines| - 1];
      if !Counts(last) {
        SumIsCredit(rest, later);
      } else {
        SumIsCredit(rest, Ending(last.value, later));
        SessionsValid(rest);
        SumStep(Analyze(rest), last.value, later);
      }
    }
  }

  /** The overall totals are the log's own: each usage line counted once, each end replacing
      what its session had before. */
  lemma {:induction false} GrandTotalIsCredit(lines: seq<Line>)
    ensures GrandTotal(Analyze(lines)) == Credit(lines, {})
  {
    SumIsCredit(lines, {});
  }

  /** All usage of all sessions. */
  function AllUsage(lines: seq<Line>): Tokens {
    if lines == [] then ZERO else
      var rest, last := AllUsage(lines[..|lines| - 1]), lines[|lines| - 1];
      if Counts(last) && last.value.event.ResponseUsage? then rest.Plus(UsageTokens(last.value.event)) else rest
  }

  lemma {:induction false} CreditOfUsage(lines: seq<Line>, later: set<string>)
    ensures Credit(lines, later).cacheCreation == AllUsage(lines).cacheCreation
    ensures Credit(lines, later).cacheRead == AllUsage(lines).cacheRead
    ensures later == {} && (forall i :: 0 <= i < |lines| ==> Counts(lines[i]) ==> !lines[i].value.event.SessionEnded?)
      ==> Credit(lines, later) == AllUsage(lines)
    decreases |lines|
  {
    if lines != [] {
      var rest, last := lines[..|lines| - 1], lines[|lines| - 1];
      CreditOfUsage(rest, if Counts(last) then Ending(last.value, later) else later);
    }
  }

  /** The overall cache totals are all cache usage in the log; without an end so are the others. */
  lemma {:induction false} GrandTotalIsUsage(lines: seq<Line>)
    ensures GrandTotal(Analyze(lines)).cacheCreation == AllUsage(lines).cacheCreation
    ensures GrandTotal(Analyze(lines)).cacheRead == AllUsage(lines).cacheRead
    ensures (forall i :: 0 <= i < |lines| ==> Counts(lines[i]) ==> !lines[i].value.event.SessionEnded?)
      ==> GrandTotal(Analyze(lines)) == AllUsage(lines)
  {
    GrandTotalIsCredit(lines);
    CreditOfUsage(lines, {});
  }

  lemma {:induction false} ShownWeight(keys: seq<string>, live: map<string, SessionInfo>, sessions: Sessions, i: nat)
    requires sessions.Valid() && Shows(keys, live, sessions) && i < |keys|
    ensures keys[i] in live && At(Weights(sessions, {}), keys[i]) == live[keys[i]].Totals()
  {
    assert keys[i] in sessions.keys;
    assert live[keys[i]].View().total == sessions.values[keys[i]].total;
  }

  lemma {:induction false} SumNext(keys: seq<string>, weights: map<string, Tokens>, i: nat)
    requires i < |keys|
    ensures Sum(keys[..i + 1], weights) == Sum(keys[..i], weights).Plus(At(weights, keys[i]))
  {
    assert keys[..i + 1] == keys[..i] + [keys[i]];
    SumAppend(keys[..i], keys[i], weights);
  }

  /** The weight of a key is what its live session shows. */
  ghost predicate Weighs(live: map<string, SessionInfo>, weights: map<string, Tokens>, key: string)
    reads live.Values
  {
    key in live && At(weights, key) == live[key].Totals()
  }

  method AddTotals(session: SessionInfo, input: int, output: int, creation: int, read: int)
    returns (input': int, output': int, creation': int, read': int)
    ensures Tokens(input', output', creation', read') == Tokens(input, output, creation, read).Plus(session.Totals())
  {
    input', output' := input + session.totalInput, output + session.totalOutput;
    creation', read' := creation + session.totalCacheCreation, read + session.totalCacheRead;
  }

  method SumTotals(keys: seq<string>, live: map<string, SessionInfo>, ghost weights: map<string, Tokens>)
    returns (input: int, output: int, creation: int, read: int)
    requires forall i :: 0 <= i < |keys| ==> Weighs(live, weights, keys[i])
    ensures Tokens(input, output, creation, read) == Sum(keys, weights)
  {
    input, output, creation, read := 0, 0, 0, 0;
    for i := 0 to |keys|
      invariant Tokens(input, output, creation, read) == Sum(keys[..i], weights)
    {
      SumNext(keys, weights, i);
      assert Weighs(live, weights, keys[i]);
      input, output, creation, read := AddTotals(live[keys[i]], input, output, creation, read);
    }
    assert keys[..|keys|] == keys;
  }

  /** The sums at the end of the report, over the live session objects. */
  method OverallTotals(keys: seq<string>, live: map<string, SessionInfo>, ghost sessions: Sessions)
    returns (input: int, output: int, cacheCreation: int, cacheRead: int)
    requires sessions.Valid() && Shows(keys, live, sessions)
    ensures Tokens(input, output, cacheCreation, cacheRead) == GrandTotal(sessions)
  {
    forall i | 0 <= i < |keys|
      ensures Weighs(live, Weights(sessions, {}), keys[i])
    {
      ShownWeight(keys, live, sessions, i);
    }
    input, output, cacheCreation, cacheRead := SumTotals(keys, live, Weights(sessions, {}));
  }

  /** A log of one usage line: each of its four counts is counted as what it is. */
  lemma {:induction false} OneUsageLine(id: string, key: string, time: Option<string>, input: int, output: int,
                                        creation: int, read: int)
    requires id != ""
    ensures var usage := ResponseUsage(key, Some(input), Some(output), Some(creation), Some(read));
      SessionIn([Some(Entry(id, time, usage))], id).total == Tokens(input, output, creation, read)
  {
    var lines := [Some(Entry(id, time, ResponseUsage(key, Some(input), Some(output), Some(creation), Some(read))))];
    assert lines[..0] == [];
    UsageStep(lines, id, 0);
    assert SessionIn([], id) == NewSession(id);
  }
}
