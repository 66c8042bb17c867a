/** What the log analyser's record of one request says: of each kind of event, the last one for
    that request decides the fields that only this kind sets, whatever comes between or after. */
module RequestHistory {
  import opened Wrappers
  import opened SessionLog
  import opened TokenLedger

  predicate SameKind(a: Event, b: Event) {
    || (a.RequestStarted? && b.RequestStarted?) || (a.RequestDebug? && b.RequestDebug?)
    || (a.RequestSucceeded? && b.RequestSucceeded?) || (a.RequestFailed? && b.RequestFailed?)
    || (a.ResponseUsage? && b.ResponseUsage?) || (a.ResponseDebug? && b.ResponseDebug?)
  }

  predicate CreatesRequest(event: Event) {
    || event.RequestStarted? || event.RequestDebug? || event.RequestSucceeded? || event.RequestFailed?
    || event.ResponseDebug?
  }

  /** The fields of a request that only one kind of event sets. */
  datatype Fields =
    | Started(at: Option<string>, path: Option<string>)
    | Sent(url: Option<string>, headers: map<string, string>, body: Option<string>)
    | Succeeded(at: Option<string>, provider: Option<string>)
    | Failed(at: Option<string>, error: Option<string>, retryable: bool)
    | Used(tokens: Tokens)
    | Answered(headers: map<string, string>, body: Option<string>)
    | Nothing

  function Own(kind: Event, r: RequestInfo): Fields {
    match kind
    case RequestStarted(_, _, _, _) => Started(r.startedAt, r.path)
    case RequestDebug(_, _, _, _, _) => Sent(r.url, r.headers, r.body)
    case RequestSucceeded(_, _, _, _, _) => Succeeded(r.succeededAt, r.providerRequestId)
    case RequestFailed(_, _, _, _, _) => Failed(r.failedAt, r.error, r.retryable)
    case ResponseUsage(_, _, _, _, _) => Used(r.tokens)
    case ResponseDebug(_, _, _, _) => Answered(r.responseHeaders, r.responseBody)
    case _ => Nothing
  }

  /** What an entry says about the fields of its own kind. */
  function Said(entry: Entry): Fields {
    match entry.event
    case RequestStarted(_, _, _, path) => Started(entry.timestamp, path)
    case RequestDebug(_, url, _, headers, body) => Sent(url, Or(headers, map[]), body)
    case RequestSucceeded(_, _, _, _, provider) => Succeeded(entry.timestamp, provider)
    case RequestFailed(_, error, retryable, _, _) => Failed(entry.timestamp, error, Or(retryable, false))
    case ResponseUsage(_, _, _, _, _) => Used(UsageTokens(entry.event))
    case ResponseDebug(_, _, headers, body) => Answered(Or(headers, map[]), body)
    case _ => Nothing
  }

  /** No event touches the fields of another kind, nor the name of the request. */
  lemma {:induction false} OtherKindsKeep(r: RequestInfo, entry: Entry, kind: Event)
    requires !SameKind(kind, entry.event)
    ensures Own(kind, UpdateRequest(r, entry)) == Own(kind, r)
  {
  }

  /** An event sets the fields of its kind to what it says, whatever they were. */
  lemma {:induction false} OwnKindDecides(r: RequestInfo, entry: Entry)
    ensures Own(entry.event, UpdateRequest(r, entry)) == Said(entry)
  {
  }

  lemma {:induction false} NameStays(r: RequestInfo, entry: Entry)
    ensures UpdateRequest(r, entry).requestId == r.requestId
  {
  }

  /** The fields that several kinds of event set, and the one that an event sets only at times. */
  datatype Shared = Status | Duration | Attempt | Method | Provider

  datatype Content = Number(number: Option<int>) | Count(count: int) | Text(text: Option<string>)

  function Read(field: Shared, r: RequestInfo): Content {
    match field
    case Status => Number(r.status)
    case Duration => Number(r.durationMs)
    case Attempt => Count(r.attempt)
    case Method => Text(r.verb)
    case Provider => Text(r.providerResponseId)
  }

  /** Some known header is there to be taken. */
  predicate AnyHeader(names: seq<string>, headers: map<string, string>) {
    names != [] && (names[0] in headers || AnyHeader(names[1..], headers))
  }

  predicate Sets(field: Shared, e: Event) {
    match field
    case Status => e.RequestSucceeded? || e.ResponseDebug?
    case Duration => e.RequestSucceeded? || e.RequestFailed?
    case Attempt => e.RequestStarted? || e.RequestSucceeded? || e.RequestFailed?
    case Method => e.RequestStarted? || e.RequestDebug?
    case Provider => e.ResponseDebug? && AnyHeader(HEADER_NAMES, Or(e.headers, map[]))
  }

  /** What an event says about a field it sets. */
  function Says(field: Shared, e: Event): Content
    requires Sets(field, e)
  {
    match field
    case Status => Number(e.status)
    case Duration => Number(e.elapsed)
    case Attempt => Count(Or(e.attempt, 1))
    case Method => Text(e.verb)
    case Provider => Text(FirstHeader(HEADER_NAMES, Or(e.headers, map[]), None))
  }

  lemma {:induction false} HeaderOrCurrent(names: seq<string>, headers: map<string, string>, current: Option<string>)
    ensures FirstHeader(names, headers, current) ==
      if AnyHeader(names, headers) then FirstHeader(names, headers, None) else current
  {
    if names != [] && names[0] !in headers {
      HeaderOrCurrent(names[1..], headers, current);
    }
  }

  lemma {:induction false} SharedStep(r: RequestInfo, entry: Entry, field: Shared)
    ensures Read(field, UpdateRequest(r, entry)) ==
      if Sets(field, entry.event) then Says(field, entry.event) else Read(field, r)
  {
    if field.Provider? && entry.event.ResponseDebug? {
      HeaderOrCurrent(HEADER_NAMES, Or(entry.event.headers, map[]), r.providerResponseId);
    }
  }

  predicate Concerns(line: Line, id: string, key: string) {
    Of(line, id) && key != "" && RequestKey(line.value) == key
  }

  function RequestIn(lines: seq<Line>, id: string, key: string): RequestInfo {
    Lookup(SessionIn(lines, id).requests, key)
  }

  lemma {:induction false} LookupStep(requests: Requests, entry: Entry, key: string)
    ensures Lookup(UpdateRequests(requests, entry), key) ==
      if key != "" && RequestKey(entry) == key && (entry.event.ResponseUsage? ==> key in requests.values)
      then UpdateRequest(Lookup(requests, key), entry) else Lookup(requests, key)
  {
  }

  lemma {:induction false} RequestStep(lines: seq<Line>, id: string, key: string, n: nat)
    requires |lines| == n + 1
    ensures var before, last := RequestIn(lines[..n], id, key), lines[n];
      RequestIn(lines, id, key) ==
        if Concerns(last, id, key)
           && (last.value.event.ResponseUsage? ==> key in SessionIn(lines[..n], id).requests.values)
        then UpdateRequest(before, last.value) else before
  {
    SessionStep(lines, id);
    if Of(lines[n], id) {
      LookupStep(SessionIn(lines[..n], id).requests, lines[n].value, key);
    }
  }

  /** A record is kept under its own name. */
  lemma {:induction false} RequestNamedByKey(lines: seq<Line>, id: string, key: string)
    ensures RequestIn(lines, id, key).requestId == key
  {
    if lines == [] {
      assert SessionIn(lines, id) == NewSession(id);
    } else {
      var n: nat :| |lines| == n + 1;
      RequestNamedByKey(lines[..n], id, key);
      RequestStep(lines, id, key, n);
      if Of(lines[n], id) {
        NameStays(RequestIn(lines[..n], id, key), lines[n].value);
      }
    }
  }

  /** Of each kind of event the last for a request decides. */
  lemma {:induction false} LastEventDecides(lines: seq<Line>, id: string, key: string, k: nat)
    requires k < |lines| && Concerns(lines[k], id, key) && CreatesRequest(lines[k].value.event)
    requires forall j :: k < j < |lines| && Concerns(lines[j], id, key) ==>
      !SameKind(lines[k].value.event, lines[j].value.event)
    ensures Own(lines[k].value.event, RequestIn(lines, id, key)) == Said(lines[k].value)
    decreases |lines|
  {
    var n: nat :| |lines| == n + 1;
    var entry, before := lines[k].value, RequestIn(lines[..n], id, key);
    RequestStep(lines, id, key, n);
    if k == n {
      OwnKindDecides(before, entry);
    } else {
      assert forall j :: 0 <= j < n ==> lines[..n][j] == lines[j];
      LastEventDecides(lines[..n], id, key, k);
      if Concerns(lines[n], id, key) {
        OtherKindsKeep(before, lines[n].value, entry.event);
      }
    }
  }

  /** Of all events that set a shared field, whatever their kinds, the last for a request decides. */
  lemma {:induction false} LastSetterDecides(lines: seq<Line>, id: string, key: string, k: nat, field: Shared)
    requires k < |lines| && Concerns(lines[k], id, key) && Sets(field, lines[k].value.event)
    requires forall j :: k < j < |lines| && Concerns(lines[j], id, key) ==> !Sets(field, lines[j].value.event)
    ensures Read(field, RequestIn(lines, id, key)) == Says(field, lines[k].value.event)
    decreases |lines|
  {
    var n: nat :| |lines| == n + 1;
    var before := RequestIn(lines[..n], id, key);
    RequestStep(lines, id, key, n);
    if Concerns(lines[n], id, key) {
      SharedStep(before, lines[n].value, field);
    }
    if k < n {
      assert forall j :: 0 <= j < n ==> lines[..n][j] == lines[j];
      LastSetterDecides(lines[..n], id, key, k, field);
    }
  }

  /** Which request an entry is about: the one it names; a start, a success or a failure that names
      none is about the one of its session and time; debug entries and usage that name none, and
      all other events, are about none. */
  lemma {:induction false} KeysOfEvents(entry: Entry)
    ensures var e, key := entry.event, RequestKey(entry);
      if CreatesRequest(e) || e.ResponseUsage?
      then key == (if e.requestId != "" then e.requestId
                   else if e.RequestStarted? || e.RequestSucceeded? || e.RequestFailed? then LegacyKey(entry)
                   else "")
      else key == ""
  {
  }

  /** The order in which the known headers are looked up. */
  lemma {:induction false} HeaderOrder(headers: map<string, string>)
    ensures var found := FirstHeader(HEADER_NAMES, headers, None);
      if "x-oneapi-request-id" in headers then found == Some(headers["x-oneapi-request-id"])
      else if "x-request-id" in headers then found == Some(headers["x-request-id"])
      else if "request-id" in headers then found == Some(headers["request-id"])
      else if "cf-ray" in headers then found == Some(headers["cf-ray"])
      else found == None
  {
    var i := if "x-oneapi-request-id" in headers then 0 else if "x-request-id" in headers then 1
             else if "request-id" in headers then 2 else if "cf-ray" in headers then 3 else 4;
    assert |HEADER_NAMES| == 4 && HEADER_NAMES[0] == "x-oneapi-request-id" && HEADER_NAMES[1] == "x-request-id"
      && HEADER_NAMES[2] == "request-id" && HEADER_NAMES[3] == "cf-ray";
    FirstHeaderWins(HEADER_NAMES, headers, None, i);
  }

  function Default(field: Shared): Content {
    match field
    case Status => Number(None)
    case Duration => Number(None)
    case Attempt => Count(1)
    case Method => Text(None)
    case Provider => Text(None)
  }

  /** A field that no line for the request sets keeps its default; the first attempt is number 1. */
  lemma {:induction false} NeverSetIsDefault(lines: seq<Line>, id: string, key: string, field: Shared)
    requires forall j :: 0 <= j < |lines| && Concerns(lines[j], id, key) ==> !Sets(field, lines[j].value.event)
    ensures Read(field, RequestIn(lines, id, key)) == Default(field)
  {
    if lines == [] {
      assert SessionIn(lines, id) == NewSession(id);
    } else {
      var n: nat :| |lines| == n + 1;
      assert forall j :: 0 <= j < n ==> lines[..n][j] == lines[j];
      NeverSetIsDefault(lines[..n], id, key, field);
      RequestStep(lines, id, key, n);
      if Concerns(lines[n], id, key) {
        SharedStep(RequestIn(lines[..n], id, key), lines[n].value, field);
      }
    }
  }

  /** What a request shows for a kind of event that never came. */
  function Blank(kind: Event): Fields {
    match kind
    case RequestStarted(_, _, _, _) => Started(None, None)
    case RequestDebug(_, _, _, _, _) => Sent(None, map[], None)
    case RequestSucceeded(_, _, _, _, _) => Succeeded(None, None)
    case RequestFailed(_, _, _, _, _) => Failed(None, None, false)
    case ResponseUsage(_, _, _, _, _) => Used(ZERO)
    case ResponseDebug(_, _, _, _) => Answered(map[], None)
    case _ => Nothing
  }

  lemma {:induction false} KindNeverCame(lines: seq<Line>, id: string, key: string, kind: Event)
    requires forall j :: 0 <= j < |lines| && Concerns(lines[j], id, key) ==> !SameKind(kind, lines[j].value.event)
    ensures Own(kind, RequestIn(lines, id, key)) == Blank(kind)
  {
    if lines == [] {
      assert SessionIn(lines, id) == NewSession(id);
    } else {
      var n: nat :| |lines| == n + 1;
      assert forall j :: 0 <= j < n ==> lines[..n][j] == lines[j];
      KindNeverCame(lines[..n], id, key, kind);
      RequestStep(lines, id, key, n);
      if Concerns(lines[n], id, key) {
        OtherKindsKeep(RequestIn(lines[..n], id, key), lines[n].value, kind);
      }
    }
  }
}
