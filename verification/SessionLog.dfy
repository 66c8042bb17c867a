/** The log analyser: one pass over an interleaved event log that fills, for every session
    named in it, a record of the session and of its requests. */
module SessionLog {
  import opened Wrappers

  function Or<T>(value: Option<T>, default: T): T {
    if value.Some? then value.value else default
  }

  datatype Tokens = Tokens(input: int, output: int, cacheCreation: int, cacheRead: int) {
    function Plus(other: Tokens): Tokens {
      Tokens(input + other.input, output + other.output,
             cacheCreation + other.cacheCreation, cacheRead + other.cacheRead)
    }
  }

  const ZERO := Tokens(0, 0, 0, 0)

  // ----- insertion-ordered dictionaries -----

  datatype Dict<V> = Dict(keys: seq<string>, values: map<string, V>) {
    ghost predicate Valid() {
      && (forall k :: k in keys <==> k in values)
      && (forall i, j :: 0 <= i < j < |keys| ==> keys[i] != keys[j])
    }

    function Put(key: string, value: V): Dict<V> {
      Dict(if key in values then keys else keys + [key], values[key := value])
    }
  }

  lemma {:induction false} PutValid<V>(dict: Dict<V>, key: string, value: V)
    requires dict.Valid()
    ensures dict.Put(key, value).Valid()
  {
    var put := dict.Put(key, value);
    forall k ensures k in put.keys <==> k in put.values {
      if key !in dict.values { assert put.keys == dict.keys + [key]; }
    }
  }

  // ----- log entries -----

  /** Times are naive date-times, standing as their ISO 8601 text; JSON bodies stand as text. */
  datatype Event =
    | SessionStarted(version: Option<string>, cwd: Option<string>, mode: Option<string>, model: Option<string>)
    | SessionEnded(turns: Option<int>, inputTotal: Option<int>, outputTotal: Option<int>, duration: Option<int>)
    | RequestStarted(requestId: string, attempt: Option<int>, verb: Option<string>, path: Option<string>)
    | RequestDebug(requestId: string, url: Option<string>, verb: Option<string>,
                   headers: Option<map<string, string>>, body: Option<string>)
    | RequestSucceeded(requestId: string, status: Option<int>, elapsed: Option<int>, attempt: Option<int>,
                       provider: Option<string>)
    | RequestFailed(requestId: string, error: Option<string>, retryable: Option<bool>, elapsed: Option<int>,
                    attempt: Option<int>)
    | ResponseUsage(requestId: string, input: Option<int>, output: Option<int>,
                    cacheCreation: Option<int>, cacheRead: Option<int>)
    | ResponseDebug(requestId: string, status: Option<int>, headers: Option<map<string, string>>,
                    body: Option<string>)
    | PromptError(details: string)
    | StreamError(details: string)
    | OtherEvent

  datatype Entry = Entry(sessionId: string, timestamp: Option<string>, event: Event)

  /** A line that is blank, not JSON, or an empty object is no entry. */
  type Line = Option<Entry>

  function UsageTokens(event: Event): Tokens
    requires event.ResponseUsage?
  {
    Tokens(Or(event.input, 0), Or(event.output, 0), Or(event.cacheCreation, 0), Or(event.cacheRead, 0))
  }

  // ----- sessions and requests -----

  datatype RequestInfo = RequestInfo(
    requestId: string,
    startedAt: Option<string>,
    succeededAt: Option<string>,
    failedAt: Option<string>,
    status: Option<int>,
    durationMs: Option<int>,
    attempt: int,
    error: Option<string>,
    retryable: bool,
    providerRequestId: Option<string>,
    url: Option<string>,
    verb: Option<string>,
    path: Option<string>,
    headers: map<string, string>,
    body: Option<string>,
    responseHeaders: map<string, string>,
    responseBody: Option<string>,
    providerResponseId: Option<string>,
    tokens: Tokens)

  function NewRequest(id: string): RequestInfo {
    RequestInfo(id, None, None, None, None, None, 1, None, false, None,
                None, None, None, map[], None, map[], None, None, ZERO)
  }

  type Requests = Dict<RequestInfo>

  datatype ErrorRecord = ErrorRecord(timestamp: Option<string>, details: string)

  datatype Session = Session(
    sessionId: string,
    startedAt: Option<string>,
    endedAt: Option<string>,
    version: Option<string>,
    cwd: Option<string>,
    mode: Option<string>,
    model: Option<string>,
    turns: int,
    durationMs: int,
    requests: Requests,
    total: Tokens,
    promptErrors: seq<ErrorRecord>,
    streamErrors: seq<ErrorRecord>)

  function NewSession(id: string): Session {
    Session(id, None, None, None, None, None, None, 0, 0, Dict([], map[]), ZERO, [], [])
  }

  const HEADER_NAMES: seq<string> := ["x-oneapi-request-id", "x-request-id", "request-id", "cf-ray"]

  /** The value of the first of `names` among the headers, else `current`. */
  function FirstHeader(names: seq<string>, headers: map<string, string>, current: Option<string>): Option<string> {
    if names == [] then current
    else if names[0] in headers then Some(headers[names[0]])
    else FirstHeader(names[1..], headers, current)
  }

  /** The first header present decides. */
  lemma {:induction false} FirstHeaderWins(names: seq<string>, headers: map<string, string>,
                                           current: Option<string>, i: nat)
    requires i <= |names| && forall j :: 0 <= j < i ==> names[j] !in headers
    ensures i < |names| && names[i] in headers ==> FirstHeader(names, headers, current) == Some(headers[names[i]])
    ensures i == |names| ==> FirstHeader(names, headers, current) == current
  {
    if i > 0 {
      FirstHeaderWins(names[1..], headers, current, i - 1);
    }
  }

  /** The key of the request an entry is about, or "" if it is about none. An old-format entry
      without a request id gets one made of its session and time. */
  function RequestKey(entry: Entry): string {
    match entry.event
    case RequestStarted(id, _, _, _) => if id != "" then id else LegacyKey(entry)
    case RequestSucceeded(id, _, _, _, _) => if id != "" then id else LegacyKey(entry)
    case RequestFailed(id, _, _, _, _) => if id != "" then id else LegacyKey(entry)
    case RequestDebug(id, _, _, _, _) => id
    case ResponseDebug(id, _, _, _) => id
    case ResponseUsage(id, _, _, _, _) => id
    case _ => ""
  }

  function LegacyKey(entry: Entry): (key: string)
    ensures key != ""
  {
    "legacy_" + entry.sessionId + "_" + Or(entry.timestamp, "unknown")
  }

  function Lookup(requests: Requests, id: string): RequestInfo {
    if id in requests.values then requests.values[id] else NewRequest(id)
  }

  /** What an entry does to the request it is about. */
  function UpdateRequest(request: RequestInfo, entry: Entry): RequestInfo {
    match entry.event
    case RequestStarted(_, attempt, verb, path) =>
      request.(startedAt := entry.timestamp, attempt := Or(attempt, 1), verb := verb, path := path)
    case RequestDebug(_, url, verb, headers, body) =>
      request.(url := url, verb := verb, headers := Or(headers, map[]), body := body)
    case RequestSucceeded(_, status, elapsed, attempt, provider) =>
      request.(succeededAt := entry.timestamp, status := status, durationMs := elapsed,
               attempt := Or(attempt, 1), providerRequestId := provider)
    case RequestFailed(_, error, retryable, elapsed, attempt) =>
      request.(failedAt := entry.timestamp, error := error, retryable := Or(retryable, false),
               durationMs := elapsed, attempt := Or(attempt, 1))
    case ResponseUsage(_, _, _, _, _) => request.(tokens := UsageTokens(entry.event))
    case ResponseDebug(_, status, headers, body) =>
      request.(status := status, responseHeaders := Or(headers, map[]), responseBody := body,
               providerResponseId := FirstHeader(HEADER_NAMES, Or(headers, map[]), request.providerResponseId))
    case _ => request
  }

  /** What an entry does to the requests of its session: usage never creates one. */
  function UpdateRequests(requests: Requests, entry: Entry): Requests {
    var key := RequestKey(entry);
    if key == "" || (entry.event.ResponseUsage? && key !in requests.values) then requests
    else requests.Put(key, UpdateRequest(Lookup(requests, key), entry))
  }

  /** The end of a session overwrites two of its totals; usage adds to all four. */
  function UpdateTotal(total: Tokens, event: Event): Tokens {
    match event
    case SessionEnded(_, input, output, _) => total.(input := Or(input, 0), output := Or(output, 0))
    case ResponseUsage(_, _, _, _, _) => total.Plus(UsageTokens(event))
    case _ => total
  }

  /** What an entry does to the rest of its session. */
  function Describe(s: Session, entry: Entry): Session {
    match entry.event
    case SessionStarted(version, cwd, mode, model) =>
      s.(startedAt := entry.timestamp, version := version, cwd := cwd, mode := mode, model := model)
    case SessionEnded(turns, _, _, duration) =>
      s.(endedAt := entry.timestamp, turns := Or(turns, 0), durationMs := Or(duration, 0))
    case PromptError(details) =>
      s.(promptErrors := s.promptErrors + [ErrorRecord(entry.timestamp, details)])
    case StreamError(details) =>
      s.(streamErrors := s.streamErrors + [ErrorRecord(entry.timestamp, details)])
    case _ => s
  }

  function Update(s: Session, entry: Entry): Session {
    Describe(s, entry).(
      requests := UpdateRequests(s.requests, entry),
      total := UpdateTotal(s.total, entry.event))
  }

  /** Events that concern the requests and totals of a session alone. */
  predicate Undescribed(event: Event) {
    !event.SessionStarted? && !event.SessionEnded? && !event.PromptError? && !event.StreamError?
  }

  lemma {:induction false} Elsewhere(s: Session, entry: Entry)
    requires Undescribed(entry.event)
    ensures Update(s, entry) == s.(
      requests := UpdateRequests(s.requests, entry),
      total := if entry.event.ResponseUsage? then UpdateTotal(s.total, entry.event) else s.total)
  {
  }

  predicate Counts(line: Line) {
    line.Some? && line.value.sessionId != ""
  }

  type Sessions = Dict<Session>

  function Find(sessions: Sessions, id: string): Session {
    if id in sessions.values then sessions.values[id] else NewSession(id)
  }

  function Record(sessions: Sessions, line: Line): Sessions {
    if !Counts(line) then sessions
    else sessions.Put(line.value.sessionId, Update(Find(sessions, line.value.sessionId), line.value))
  }

  function Analyze(lines: seq<Line>): Sessions {
    if lines == [] then Dict([], map[]) else Record(Analyze(lines[..|lines| - 1]), lines[|lines| - 1])
  }

  lemma {:induction false} AnalyzeNext(lines: seq<Line>, n: nat)
    requires n < |lines|
    ensures Analyze(lines[..n + 1]) == Record(Analyze(lines[..n]), lines[n])
  {
    var longer := lines[..n + 1];
    assert longer[..|longer| - 1] == lines[..n] && longer[|longer| - 1] == lines[n];
  }

  // ----- the analyser as it runs -----

  class SessionInfo {
    const sessionId: string
    var startedAt: Option<string>
    var endedAt: Option<string>
    var version: Option<string>
    var cwd: Option<string>
    var mode: Option<string>
    var model: Option<string>
    var turns: int
    var durationMs: int
    var requests: Requests
    var totalInput: int
    var totalOutput: int
    var totalCacheCreation: int
    var totalCacheRead: int
    var promptErrors: seq<ErrorRecord>
    var streamErrors: seq<ErrorRecord>

    function Totals(): Tokens
      reads this
    {
      Tokens(totalInput, totalOutput, totalCacheCreation, totalCacheRead)
    }

    /** The object as a value. */
    function View(): (s: Session)
      reads this
    {
      Session(sessionId, startedAt, endedAt, version, cwd, mode, model, turns, durationMs,
              requests, Totals(), promptErrors, streamErrors)
    }

    constructor (id: string)
      ensures sessionId == id && View() == NewSession(id)
    {
      sessionId := id;
      startedAt, endedAt, version, cwd, mode, model := None, None, None, None, None, None;
      turns, durationMs, requests := 0, 0, Dict([], map[]);
      totalInput, totalOutput, totalCacheCreation, totalCacheRead := 0, 0, 0, 0;
      promptErrors, streamErrors := [], [];
    }

    method HandleStart(entry: Entry)
      requires entry.event.SessionStarted?
      modifies this
      ensures View() == Update(old(View()), entry)
    {
      startedAt, version, cwd := entry.timestamp, entry.event.version, entry.event.cwd;
      mode, model := entry.event.mode, entry.event.model;
    }

    method HandleEnd(entry: Entry)
      requires entry.event.SessionEnded?
      modifies this
      ensures View() == Update(old(View()), entry)
    {
      endedAt, turns := entry.timestamp, Or(entry.event.turns, 0);
      totalInput, totalOutput := Or(entry.event.inputTotal, 0), Or(entry.event.outputTotal, 0);
      durationMs := Or(entry.event.duration, 0);
    }

    method HandleError(entry: Entry)
      requires entry.event.PromptError? || entry.event.StreamError?
      modifies this
      ensures View() == Update(old(View()), entry)
    {
      var error := ErrorRecord(entry.timestamp, entry.event.details);
      if entry.event.PromptError? {
        promptErrors := promptErrors + [error];
      } else {
        streamErrors := streamErrors + [error];
      }
    }

    method HandleElsewhere(entry: Entry)
      requires Undescribed(entry.event) && !entry.event.OtherEvent?
      modifies this
      ensures View() == Update(old(View()), entry)
    {
      Elsewhere(View(), entry);
      if entry.event.ResponseUsage? {
        HandleUsage(entry);
      } else {
        HandleRequest(entry);
      }
    }

    /** Carry out one event of this session. */
    method Handle(entry: Entry)
      modifies this
      ensures View() == Update(old(View()), entry)
    {
      match entry.event
      case SessionStarted(_, _, _, _) => HandleStart(entry);
      case SessionEnded(_, _, _, _) => HandleEnd(entry);
      case PromptError(_) => HandleError(entry);
      case StreamError(_) => HandleError(entry);
      case OtherEvent =>
      case _ => HandleElsewhere(entry);
    }

    /** The usage goes to its request, if that is known, and always to the session. */
    method HandleUsage(entry: Entry)
      requires entry.event.ResponseUsage?
      modifies `requests, `totalInput, `totalOutput, `totalCacheCreation, `totalCacheRead
      ensures requests == UpdateRequests(old(requests), entry)
      ensures Totals() == UpdateTotal(old(Totals()), entry.event)
    {
      var id := entry.event.requestId;
      var input, output := Or(entry.event.input, 0), Or(entry.event.output, 0);
      var creation, read := Or(entry.event.cacheCreation, 0), Or(entry.event.cacheRead, 0);
      if id != "" && id in requests.values {
        requests := requests.Put(id, requests.values[id].(tokens := Tokens(input, output, creation, read)));
      }
      totalInput, totalOutput := totalInput + input, totalOutput + output;
      totalCacheCreation, totalCacheRead := totalCacheCreation + creation, totalCacheRead + read;
    }

    /** Find or create the request that a request event names. */
    method Request(id: string) returns (request: RequestInfo)
      modifies `requests
      ensures request == Lookup(old(requests), id)
      ensures requests == if id in old(requests).values then old(requests) else old(requests).Put(id, request)
    {
      if id !in requests.values {
        requests := requests.Put(id, NewRequest(id));
      }
      request := requests.values[id];
    }

    method HandleRequest(entry: Entry)
      requires var e := entry.event;
        e.RequestStarted? || e.RequestDebug? || e.RequestSucceeded? || e.RequestFailed? || e.ResponseDebug?
      modifies `requests
      ensures requests == UpdateRequests(old(requests), entry)
    {
      var id := entry.event.requestId;
      if id == "" {
        if entry.event.RequestDebug? || entry.event.ResponseDebug? {
          return;
        }
        id := "legacy_" + entry.sessionId + "_" + Or(entry.timestamp, "unknown");
      }
      var request := Request(id);
      request := Amend(request, entry);
      requests := requests.Put(id, request);
    }
  }

  /** Set the fields of a request that an event carries. */
  method Amend(request: RequestInfo, entry: Entry) returns (amended: RequestInfo)
    requires var e := entry.event;
      e.RequestStarted? || e.RequestDebug? || e.RequestSucceeded? || e.RequestFailed? || e.ResponseDebug?
    ensures amended == UpdateRequest(request, entry)
  {
    match entry.event
    case RequestStarted(_, attempt, verb, path) =>
      amended := request.(startedAt := entry.timestamp, attempt := Or(attempt, 1), verb := verb, path := path);
    case RequestDebug(_, url, verb, headers, body) =>
      amended := request.(url := url, verb := verb, headers := Or(headers, map[]), body := body);
    case RequestSucceeded(_, status, elapsed, attempt, provider) =>
      amended := request.(succeededAt := entry.timestamp, status := status, durationMs := elapsed,
                          attempt := Or(attempt, 1), providerRequestId := provider);
    case RequestFailed(_, error, retryable, elapsed, attempt) =>
      amended := request.(failedAt := entry.timestamp, error := error, retryable := Or(retryable, false),
                          durationMs := elapsed, attempt := Or(attempt, 1));
    case ResponseDebug(_, status, headers, body) =>
      var provider := ProviderHeader(Or(headers, map[]), request.providerResponseId);
      amended := request.(status := status, responseHeaders := Or(headers, map[]), responseBody := body,
                          providerResponseId := provider);
  }

  /** Scan the known header names in order and stop at the first one present. */
  method ProviderHeader(headers: map<string, string>, current: Option<string>) returns (provider: Option<string>)
    ensures provider == FirstHeader(HEADER_NAMES, headers, current)
  {
    provider := current;
    for i := 0 to |HEADER_NAMES|
      invariant provider == current
      invariant FirstHeader(HEADER_NAMES, headers, current) == FirstHeader(HEADER_NAMES[i..], headers, current)
    {
      var name := HEADER_NAMES[i];
      assert HEADER_NAMES[i..][1..] == HEADER_NAMES[i + 1..];
      if name in headers {
        provider := Some(headers[name]);
        return;
      }
    }
  }

  /** The dictionary of live session objects shows the given values. */
  ghost predicate Shows(keys: seq<string>, live: map<string, SessionInfo>, sessions: Sessions)
    reads live.Values
  {
    && keys == sessions.keys
    && live.Keys == sessions.values.Keys
    && forall id :: id in live ==> live[id].sessionId == id && live[id].View() == sessions.values[id]
  }

  /** Get or create the object of a session. */
  method SessionFor(id: string, keys: seq<string>, live: map<string, SessionInfo>, ghost sessions: Sessions)
    returns (keys': seq<string>, live': map<string, SessionInfo>)
    requires Shows(keys, live, sessions)
    ensures Shows(keys', live', sessions.Put(id, Find(sessions, id)))
    ensures forall k :: k in live' ==> if k in live then live'[k] == live[k] else fresh(live'[k])
  {
    keys', live' := keys, live;
    if id !in live {
      var created := new SessionInfo(id);
      keys', live' := keys + [id], live[id := created];
    }
  }

  /** Carry out one entry on the object of its session; the other objects stay as they are. */
  method HandleEntry(entry: Entry, keys: seq<string>, live: map<string, SessionInfo>, ghost sessions: Sessions)
    requires entry.sessionId in live && Shows(keys, live, sessions)
    modifies live[entry.sessionId]
    ensures Shows(keys, live, sessions.Put(entry.sessionId, Update(Find(sessions, entry.sessionId), entry)))
  {
    var session := live[entry.sessionId];
    session.Handle(entry);
    assert forall id :: id in live && id != entry.sessionId ==> live[id] != session;
  }

  lemma {:induction false} PutTwice(sessions: Sessions, id: string, s: Session)
    ensures sessions.Put(id, Find(sessions, id)).Put(id, s) == sessions.Put(id, s)
  {
    assert sessions.values[id := Find(sessions, id)][id := s] == sessions.values[id := s];
  }

  method AnalyzeLog(lines: seq<Line>) returns (keys: seq<string>, live: map<string, SessionInfo>)
    ensures Shows(keys, live, Analyze(lines))
    ensures forall id :: id in live ==> fresh(live[id])
  {
    keys, live := [], map[];
    for i := 0 to |lines|
      invariant Shows(keys, live, Analyze(lines[..i]))
      invariant forall id :: id in live ==> fresh(live[id])
    {
      AnalyzeNext(lines, i);
      var line := lines[i];
      if line.None? || line.value.sessionId == "" { continue; }
      ghost var sessions, id := Analyze(lines[..i]), line.value.sessionId;
      keys, live := SessionFor(line.value.sessionId, keys, live, sessions);
      PutTwice(sessions, id, Update(Find(sessions, id), line.value));
      HandleEntry(line.value, keys, live, sessions.Put(id, Find(sessions, id)));
    }
    assert lines[..|lines|] == lines;
  }
}
