/** What the log analyser records of a session itself: its last start and its last end decide the
    fields that they carry, and its errors are those of its lines, in order. */
module SessionHistory {
  import opened Wrappers
  import opened SessionLog
  import opened TokenLedger

  datatype Opening = Opening(
    at: Option<string>, version: Option<string>, cwd: Option<string>, mode: Option<string>, model: Option<string>)

  datatype Closing = Closing(at: Option<string>, turns: int, durationMs: int)

  function OpeningOf(s: Session): Opening { Opening(s.startedAt, s.version, s.cwd, s.mode, s.model) }

  function ClosingOf(s: Session): Closing { Closing(s.endedAt, s.turns, s.durationMs) }

  predicate IsStart(line: Line, id: string) { Of(line, id) && line.value.event.SessionStarted? }

  /** The errors of one kind that a session logged, in order. */
  function ErrorsIn(lines: seq<Line>, id: string, stream: bool): seq<ErrorRecord> {
    if lines == [] then [] else
      var last := lines[|lines| - 1];
      ErrorsIn(lines[..|lines| - 1], id, stream)
        + if Of(last, id) && (if stream then last.value.event.StreamError? else last.value.event.PromptError?)
          then [ErrorRecord(last.value.timestamp, last.value.event.details)] else []
  }

  lemma {:induction false} OpeningStep(s: Session, entry: Entry)
    ensures OpeningOf(Update(s, entry)) ==
      if entry.event.SessionStarted?
      then Opening(entry.timestamp, entry.event.version, entry.event.cwd, entry.event.mode, entry.event.model)
      else OpeningOf(s)
  {
  }

  lemma {:induction false} ClosingStep(s: Session, entry: Entry)
    ensures ClosingOf(Update(s, entry)) ==
      if entry.event.SessionEnded?
      then Closing(entry.timestamp, Or(entry.event.turns, 0), Or(entry.event.duration, 0))
      else ClosingOf(s)
  {
  }

  /** The last start of a session decides when it started, and its version, directory, mode and model. */
  lemma {:induction false} LastStartDecides(lines: seq<Line>, id: string, k: nat)
    requires k < |lines| && IsStart(lines[k], id)
    requires forall j :: k < j < |lines| ==> !IsStart(lines[j], id)
    ensures var e := lines[k].value.event;
      OpeningOf(SessionIn(lines, id)) == Opening(lines[k].value.timestamp, e.version, e.cwd, e.mode, e.model)
    decreases |lines|
  {
    var n: nat :| |lines| == n + 1;
    SessionStep(lines, id);
    if Of(lines[n], id) {
      OpeningStep(SessionIn(lines[..n], id), lines[n].value);
    }
    if k < n {
      assert forall j :: 0 <= j < n ==> lines[..n][j] == lines[j];
      LastStartDecides(lines[..n], id, k);
    }
  }

  /** The last end of a session decides when it ended, its turns and its duration. */
  lemma {:induction false} LastEndDecides(lines: seq<Line>, id: string, k: nat)
    requires k < |lines| && IsEnd(lines[k], id)
    requires forall j :: k < j < |lines| ==> !IsEnd(lines[j], id)
    ensures var e := lines[k].value.event;
      ClosingOf(SessionIn(lines, id)) == Closing(lines[k].value.timestamp, Or(e.turns, 0), Or(e.duration, 0))
    decreases |lines|
  {
    var n: nat :| |lines| == n + 1;
    SessionStep(lines, id);
    if Of(lines[n], id) {
      ClosingStep(SessionIn(lines[..n], id), lines[n].value);
    }
    if k < n {
      assert forall j :: 0 <= j < n ==> lines[..n][j] == lines[j];
      LastEndDecides(lines[..n], id, k);
    }
  }

  lemma {:induction false} ErrorsStep(s: Session, entry: Entry)
    ensures var updated, error := Update(s, entry), ErrorRecord(entry.timestamp, "");
      && updated.promptErrors == s.promptErrors
           + (if entry.event.PromptError? then [error.(details := entry.event.details)] else [])
      && updated.streamErrors == s.streamErrors
           + (if entry.event.StreamError? then [error.(details := entry.event.details)] else [])
  {
  }

  /** The two lists of errors are those the session logged, each in the order of the log. */
  lemma {:induction false} ErrorsAreLogged(lines: seq<Line>, id: string)
    ensures SessionIn(lines, id).promptErrors == ErrorsIn(lines, id, false)
    ensures SessionIn(lines, id).streamErrors == ErrorsIn(lines, id, true)
  {
    if lines == [] {
      assert SessionIn(lines, id) == NewSession(id);
    } else {
      var n: nat :| |lines| == n + 1;
      ErrorsAreLogged(lines[..n], id);
      SessionStep(lines, id);
      if Of(lines[n], id) {
        ErrorsStep(SessionIn(lines[..n], id), lines[n].value);
      }
    }
  }

  /** Old-format entries of one session are told apart by their time alone. */
  lemma {:induction false} LegacyKeyByTime(a: Entry, b: Entry)
    requires a.sessionId == b.sessionId
    ensures LegacyKey(a) == LegacyKey(b) <==> Or(a.timestamp, "unknown") == Or(b.timestamp, "unknown")
  {
    var head := "legacy_" + a.sessionId + "_";
    assert LegacyKey(a)[|head|..] == Or(a.timestamp, "unknown");
    assert LegacyKey(b)[|head|..] == Or(b.timestamp, "unknown");
  }

  /** Lines without a session are no session's. */
  lemma {:induction false} NamelessIgnored(lines: seq<Line>)
    ensures "" !in Analyze(lines).values
  {
    if lines != [] {
      NamelessIgnored(lines[..|lines| - 1]);
    }
  }
}
