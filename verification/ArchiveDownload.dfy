/** The resumable download of one pinned archive (`download_archive`), against a server that
    may answer anything, and against an origin that only ever sends bytes of the archive. */
module ArchiveDownload {
  import opened Wrappers
  import opened Text

  type Bytes = string

  /** The digest function is arbitrary. */
  type Hash = Bytes -> string

  /** How the body of a reply ends: completely; completely, but a file with the right digest
      cannot be renamed over the archive; early, with an error the loop handles (a length left
      unread, a broken connection); or with the end of the process. */
  datatype Ending = Clean | Unplaced | Early | Killed

  /** A request that fails, one the process does not survive, or a reply: its status, its
      `Content-Range` (empty if absent), the bytes that arrived and how they ended. */
  datatype Reply = NoReply | Died | Reply(status: nat, contentRange: string, body: Bytes, ending: Ending)

  /** What one attempt did: where it started, what arrived, what it threw away. */
  datatype Try = Try(offset: nat, resumed: bool, received: nat, discarded: nat, progressed: bool)

  datatype Result = Trying | Installed | Failed | Escaped

  datatype Session = Session(
    partial: Option<Bytes>, archive: Option<Bytes>, stalled: nat, log: seq<Try>, result: Result)

  const ATTEMPTS := 10
  const PATIENCE := 3

  function Offset(partial: Option<Bytes>): nat { if partial.Some? then |partial.value| else 0 }

  /** Section 14.4 of RFC 9110: the range begins at `offset`. */
  function RangePrefix(offset: nat): string { "bytes " + Decimal(offset) + "-" }

  /** Append only when the server confirms the requested offset. */
  predicate Resumes(offset: nat, reply: Reply) {
    reply.Reply? && offset > 0 && reply.status == 206 && RangePrefix(offset) <= reply.contentRange
  }

  function Written(partial: Option<Bytes>, reply: Reply): Bytes
    requires reply.Reply?
  {
    if Resumes(Offset(partial), reply) then partial.value + reply.body else reply.body
  }

  /** One attempt, up to the handling of its error. */
  function Attempt(hash: Hash, pin: string, s: Session, reply: Reply): Session {
    var offset := Offset(s.partial);
    match reply
    case NoReply => s.(stalled := s.stalled + 1, log := s.log + [Try(offset, false, 0, 0, false)])
    case Died => s.(result := Escaped)
    case Reply(_, _, body, ending) =>
      var resumed, content := Resumes(offset, reply), Written(s.partial, reply);
      var lost := if resumed then 0 else offset;
      if ending.Killed? then
        s.(partial := Some(content), log := s.log + [Try(offset, resumed, |body|, lost, false)], result := Escaped)
      else if ending.Early? || (ending.Unplaced? && hash(content) == pin) then
        var progressed := |content| > offset;
        s.(partial := Some(content), stalled := if progressed then 0 else s.stalled + 1,
           log := s.log + [Try(offset, resumed, |body|, lost, progressed)])
      else if hash(content) == pin then
        s.(partial := None, archive := Some(content), log := s.log + [Try(offset, resumed, |body|, lost, true)],
           result := Installed)
      else
        s.(partial := None, stalled := s.stalled + 1,
           log := s.log + [Try(offset, resumed, |body|, lost + |content|, false)])
  }

  /** The end of the loop body: give up after three stalls in a row, or the last attempt. */
  function GiveUp(s: Session, attempt: nat): Session {
    if s.result.Trying? && (s.stalled == PATIENCE || attempt == ATTEMPTS)
    then s.(partial := None, result := Failed)
    else s
  }

  /** What the server answers to the n-th attempt when it asks from an offset. */
  type Server = (nat, nat) -> Reply

  function NextSession(hash: Hash, pin: string, serve: Server, s: Session, n: nat): Session {
    GiveUp(Attempt(hash, pin, s, serve(n, Offset(s.partial))), n)
  }

  /** The download after `n` attempts, or as it ended before. */
  function Download(hash: Hash, pin: string, serve: Server, archive: Option<Bytes>, n: nat): Session {
    if n == 0 then Session(None, archive, 0, [], Trying) else
      var s := Download(hash, pin, serve, archive, n - 1);
      if s.result.Trying? then NextSession(hash, pin, serve, s, n) else s
  }

  // ----- the download as it runs -----

  class Cache {
    const hash: Hash
    const pin: string
    var partial: Option<Bytes>
    var archive: Option<Bytes>

    constructor (hash: Hash, pin: string)
      ensures this.hash == hash && this.pin == pin && archive.None?
    {
      this.hash, this.pin := hash, pin;
      partial, archive := None, None;
    }

    /** One request and its reply; the partial file is written before anything is checked. */
    method Fetch(reply: Reply, stalled: nat) returns (result: Result, newStalled: nat, ghost log: seq<Try>)
      modifies this
      ensures Session(partial, archive, newStalled, log, result)
           == Attempt(hash, pin, Session(old(partial), old(archive), stalled, [], Trying), reply)
    {
      var offset := Offset(partial);
      result, newStalled, log := Trying, stalled, [];
      if reply.Died? {
        result := Escaped;
      } else if reply.NoReply? {
        newStalled := stalled + 1;
        log := [Try(offset, false, 0, 0, false)];
      } else {
        var resumed := Resumes(offset, reply);
        ghost var lost := if resumed then 0 else offset;
        partial := Some(if resumed then partial.value + reply.body else reply.body);
        if reply.ending.Killed? {
          result := Escaped;
          log := [Try(offset, resumed, |reply.body|, lost, false)];
        } else if reply.ending.Early? || (reply.ending.Unplaced? && hash(partial.value) == pin) {
          var progressed := |partial.value| > offset;
          newStalled := if progressed then 0 else stalled + 1;
          log := [Try(offset, resumed, |reply.body|, lost, progressed)];
        } else if hash(partial.value) == pin {
          partial, archive := None, partial;
          result := Installed;
          log := [Try(offset, resumed, |reply.body|, lost, true)];
        } else {
          log := [Try(offset, resumed, |reply.body|, lost + |partial.value|, false)];
          partial := None;
          newStalled := stalled + 1;
        }
      }
    }

    /** One pass of the loop: request, reply, and the decision to give up. */
    method OneAttempt(serve: Server, attempt: nat, stalled: nat)
      returns (result: Result, newStalled: nat, ghost log: seq<Try>)
      modifies this
      ensures Session(partial, archive, newStalled, log, result)
           == NextSession(hash, pin, serve, Session(old(partial), old(archive), stalled, [], Trying), attempt)
    {
      result, newStalled, log := Fetch(serve(attempt, Offset(partial)), stalled);
      if result.Trying? && (newStalled == PATIENCE || attempt == ATTEMPTS) {
        partial := None;
        result := Failed;
      }
    }

    method DownloadArchive(serve: Server) returns (result: Result, ghost log: seq<Try>)
      modifies this
      ensures var s := Download(hash, pin, serve, old(archive), ATTEMPTS);
        partial == s.partial && archive == s.archive && result == s.result && log == s.log
    {
      partial := None;
      var stalled, attempt := 0, 0;
      result, log := Trying, [];
      while attempt < ATTEMPTS && result.Trying?
        invariant attempt <= ATTEMPTS
        invariant Session(partial, archive, stalled, log, result) == Download(hash, pin, serve, old(archive), attempt)
      {
        ghost var more;
        attempt := attempt + 1;
        LogAppends(hash, pin, serve, Session(partial, archive, stalled, log, result), attempt);
        result, stalled, more := OneAttempt(serve, attempt, stalled);
        log := log + more;
      }
      EndedStays(hash, pin, serve, old(archive), attempt, ATTEMPTS);
    }
  }

  /** A pass of the loop appends to the log and does not look at it. */
  lemma {:induction false} LogAppends(hash: Hash, pin: string, serve: Server, s: Session, n: nat)
    ensures var alone := NextSession(hash, pin, serve, s.(log := []), n);
      NextSession(hash, pin, serve, s, n) == alone.(log := s.log + alone.log)
  {
  }

  lemma {:induction false} EndedStays(hash: Hash, pin: string, serve: Server, archive: Option<Bytes>, m: nat, n: nat)
    requires m <= n && (m < n ==> !Download(hash, pin, serve, archive, m).result.Trying?)
    ensures Download(hash, pin, serve, archive, n) == Download(hash, pin, serve, archive, m)
    decreases n
  {
    if m < n {
      EndedStays(hash, pin, serve, archive, m, n - 1);
    }
  }

  // ----- against any server -----

  /** Only pinned bytes are ever installed; anything else leaves the archive as it was. */
  ghost predicate Pinned(hash: Hash, pin: string, archive: Option<Bytes>, s: Session) {
    && (s.result.Installed? ==> s.partial.None? && s.archive.Some? && hash(s.archive.value) == pin)
    && (!s.result.Installed? ==> s.archive == archive)
    && (s.result.Failed? ==> s.partial.None?)
  }

  lemma {:induction false} OnlyPinnedBytes(hash: Hash, pin: string, serve: Server, archive: Option<Bytes>, n: nat)
    ensures Pinned(hash, pin, archive, Download(hash, pin, serve, archive, n))
  {
    if n > 0 {
      OnlyPinnedBytes(hash, pin, serve, archive, n - 1);
    }
  }

  /** How many of the last tries in a row made no progress. */
  function Stalls(log: seq<Try>): nat {
    if log == [] || log[|log| - 1].progressed then 0 else 1 + Stalls(log[..|log| - 1])
  }

  ghost predicate Patient(s: Session, n: nat) {
    && |s.log| <= n
    && (s.result.Trying? ==> |s.log| == n && s.stalled == Stalls(s.log) && s.stalled < PATIENCE && n < ATTEMPTS)
    && (s.result.Failed? ==> |s.log| == ATTEMPTS || Stalls(s.log) == PATIENCE)
  }

  /** What an attempt that the process survives adds to its session. */
  lemma {:induction false} AttemptAdds(hash: Hash, pin: string, s: Session, reply: Reply) returns (last: Try)
    requires !reply.Died? && s.result.Trying?
    ensures var next := Attempt(hash, pin, s, reply);
      && next.log == s.log + [last]
      && last.received + Offset(s.partial) == Held(next) + last.discarded
      && (next.result.Trying? ==> next.stalled == if last.progressed then 0 else s.stalled + 1)
      && (last.discarded == 0 <==> !StartsOver(s.partial, reply) && !FailsPin(hash, pin, s.partial, reply))
      && (next.result.Trying? ==> (last.progressed <==> Offset(next.partial) > Offset(s.partial)))
  {
    last := Attempt(hash, pin, s, reply).log[|s.log|];
  }

  lemma {:induction false} OneMoreTry(log: seq<Try>, last: Try)
    ensures Received(log + [last]) == Received(log) + last.received
    ensures Discarded(log + [last]) == Discarded(log) + last.discarded
    ensures Stalls(log + [last]) == if last.progressed then 0 else 1 + Stalls(log)
  {
    assert (log + [last])[..|log|] == log;
  }

  lemma {:induction false} PatientTry(s: Session, next: Session, last: Try, n: nat)
    requires s.result.Trying? && Patient(s, n)
    requires next.log == s.log + [last]
    requires next.result.Trying? ==> next.stalled == if last.progressed then 0 else s.stalled + 1
    requires !next.result.Failed?
    ensures Patient(GiveUp(next, n + 1), n + 1)
  {
    OneMoreTry(s.log, last);
  }

  lemma {:induction false} PatientLater(s: Session, n: nat)
    requires !s.result.Trying? && Patient(s, n)
    ensures Patient(s, n + 1)
  {
  }

  lemma {:induction false} PatientStep(hash: Hash, pin: string, serve: Server, s: Session, n: nat)
    requires s.result.Trying? && Patient(s, n)
    ensures Patient(NextSession(hash, pin, serve, s, n + 1), n + 1)
  {
    var reply := serve(n + 1, Offset(s.partial));
    if !reply.Died? {
      var last := AttemptAdds(hash, pin, s, reply);
      PatientTry(s, Attempt(hash, pin, s, reply), last, n);
    }
  }

  /** A download fails only after three tries in a row without progress, or at the tenth; before
      that it keeps trying, and after ten attempts it has ended. */
  lemma {:induction false} FailsOnlyWhenStalled(hash: Hash, pin: string, serve: Server, archive: Option<Bytes>, n: nat)
    requires n <= ATTEMPTS
    ensures Patient(Download(hash, pin, serve, archive, n), n)
  {
    if n > 0 {
      var m: nat :| n == m + 1;
      var s := Download(hash, pin, serve, archive, m);
      FailsOnlyWhenStalled(hash, pin, serve, archive, m);
      if s.result.Trying? {
        PatientStep(hash, pin, serve, s, m);
      } else {
        PatientLater(s, m);
      }
    }
  }

  // ----- stalls by the size of the file -----

  /** What the `n`-th attempt leaves, before the decision to give up. */
  function After(hash: Hash, pin: string, serve: Server, archive: Option<Bytes>, n: nat): Session
    requires n > 0
  {
    var s := Download(hash, pin, serve, archive, n - 1);
    Attempt(hash, pin, s, serve(n, Offset(s.partial)))
  }

  /** The `n`-th attempt was made, did not end the download, and left the file no longer than it was. */
  ghost predicate StalledAt(hash: Hash, pin: string, serve: Server, archive: Option<Bytes>, n: nat) {
    && n > 0 && Download(hash, pin, serve, archive, n - 1).result.Trying?
    && After(hash, pin, serve, archive, n).result.Trying?
    && Offset(After(hash, pin, serve, archive, n).partial)
         <= Offset(Download(hash, pin, serve, archive, n - 1).partial)
  }

  /** The stalls in a row up to the `n`-th attempt. */
  ghost function StallsUpTo(hash: Hash, pin: string, serve: Server, archive: Option<Bytes>, n: nat): nat {
    if StalledAt(hash, pin, serve, archive, n) then 1 + StallsUpTo(hash, pin, serve, archive, n - 1) else 0
  }

  /** The counter follows the size of the file. */
  lemma {:induction false} ProgressBySize(hash: Hash, pin: string, s: Session, reply: Reply)
    requires s.result.Trying? && Attempt(hash, pin, s, reply).result.Trying?
    ensures var next := Attempt(hash, pin, s, reply);
      next.stalled == if Offset(next.partial) > Offset(s.partial) then 0 else s.stalled + 1
  {
  }

  lemma {:induction false} StalledIsStalls(hash: Hash, pin: string, serve: Server, archive: Option<Bytes>, m: nat)
    requires Download(hash, pin, serve, archive, m).result.Trying?
    requires Download(hash, pin, serve, archive, m).stalled == StallsUpTo(hash, pin, serve, archive, m)
    requires After(hash, pin, serve, archive, m + 1).result.Trying?
    ensures After(hash, pin, serve, archive, m + 1).stalled == StallsUpTo(hash, pin, serve, archive, m + 1)
  {
    var s := Download(hash, pin, serve, archive, m);
    ProgressBySize(hash, pin, s, serve(m + 1, Offset(s.partial)));
  }

  lemma {:induction false} StalledCounts(hash: Hash, pin: string, serve: Server, archive: Option<Bytes>, n: nat)
    requires Download(hash, pin, serve, archive, n).result.Trying?
    ensures Download(hash, pin, serve, archive, n).stalled == StallsUpTo(hash, pin, serve, archive, n)
  {
    if n > 0 {
      var m: nat :| n == m + 1;
      StalledCounts(hash, pin, serve, archive, m);
      StalledIsStalls(hash, pin, serve, archive, m);
    }
  }

  /** A download fails exactly at the tenth attempt, or at the third in a row after which the file
      was no longer than before. */
  lemma {:induction false} FailsExactly(hash: Hash, pin: string, serve: Server, archive: Option<Bytes>, n: nat)
    requires n > 0 && Download(hash, pin, serve, archive, n - 1).result.Trying?
    ensures Download(hash, pin, serve, archive, n).result.Failed? <==>
      && After(hash, pin, serve, archive, n).result.Trying?
      && (n == 10 ||
          (n >= 3 && StalledAt(hash, pin, serve, archive, n) && StalledAt(hash, pin, serve, archive, n - 1)
           && StalledAt(hash, pin, serve, archive, n - 2)))
  {
    var m: nat :| n == m + 1;
    var next := After(hash, pin, serve, archive, n);
    StalledCounts(hash, pin, serve, archive, m);
    FewStalls(hash, pin, serve, archive, m);
    NeverFailsAtOnce(hash, pin, Download(hash, pin, serve, archive, m), n, serve);
    if next.result.Trying? {
      StalledIsStalls(hash, pin, serve, archive, m);
      ThreeStalls(hash, pin, serve, archive, n);
    }
  }

  lemma {:induction false} NeverFailsAtOnce(hash: Hash, pin: string, s: Session, n: nat, serve: Server)
    requires s.result.Trying?
    ensures var next := Attempt(hash, pin, s, serve(n, Offset(s.partial)));
      NextSession(hash, pin, serve, s, n).result.Failed? <==> next.result.Trying? && (next.stalled == PATIENCE || n == ATTEMPTS)
  {
  }

  lemma {:induction false} FewStalls(hash: Hash, pin: string, serve: Server, archive: Option<Bytes>, m: nat)
    requires Download(hash, pin, serve, archive, m).result.Trying?
    ensures Download(hash, pin, serve, archive, m).stalled < PATIENCE
  {
    if m > 0 {
      var k: nat :| m == k + 1;
      var s := Download(hash, pin, serve, archive, k);
      FewStalls(hash, pin, serve, archive, k);
      if Attempt(hash, pin, s, serve(m, Offset(s.partial))).result.Trying? {
        ProgressBySize(hash, pin, s, serve(m, Offset(s.partial)));
      }
    }
  }

  lemma {:induction false} StallsStep(hash: Hash, pin: string, serve: Server, archive: Option<Bytes>, n: nat)
    ensures StallsUpTo(hash, pin, serve, archive, n + 1) ==
      if StalledAt(hash, pin, serve, archive, n + 1) then 1 + StallsUpTo(hash, pin, serve, archive, n) else 0
    ensures StallsUpTo(hash, pin, serve, archive, 0) == 0
  {
  }

  lemma {:induction false} ThreeStalls(hash: Hash, pin: string, serve: Server, archive: Option<Bytes>, n: nat)
    requires n > 0 && StallsUpTo(hash, pin, serve, archive, n - 1) < 3
    ensures StallsUpTo(hash, pin, serve, archive, n) == 3 <==>
      && n >= 3 && StalledAt(hash, pin, serve, archive, n) && StalledAt(hash, pin, serve, archive, n - 1)
      && StalledAt(hash, pin, serve, archive, n - 2)
  {
    StallsStep(hash, pin, serve, archive, n - 1);
    if n >= 2 {
      StallsStep(hash, pin, serve, archive, n - 2);
      if n >= 3 {
        StallsStep(hash, pin, serve, archive, n - 3);
      }
    }
  }

  function Received(log: seq<Try>): nat {
    if log == [] then 0 else Received(log[..|log| - 1]) + log[|log| - 1].received
  }

  function Discarded(log: seq<Try>): nat {
    if log == [] then 0 else Discarded(log[..|log| - 1]) + log[|log| - 1].discarded
  }

  function Held(s: Session): nat {
    if s.result.Installed? && s.archive.Some? then |s.archive.value| else Offset(s.partial)
  }

  ghost predicate Conserved(s: Session) { Received(s.log) == Held(s) + Discarded(s.log) }

  lemma {:induction false} ConservedTry(s: Session, next: Session, last: Try)
    requires s.result.Trying? && Conserved(s) && next.log == s.log + [last]
    requires last.received + Offset(s.partial) == Held(next) + last.discarded
    ensures Conserved(next)
  {
    OneMoreTry(s.log, last);
  }

  lemma {:induction false} ConservedNext(hash: Hash, pin: string, serve: Server, s: Session, n: nat)
    requires s.result.Trying? && Conserved(s)
    ensures NextSession(hash, pin, serve, s, n).result.Failed? || Conserved(NextSession(hash, pin, serve, s, n))
  {
    var reply := serve(n, Offset(s.partial));
    if !reply.Died? {
      var last := AttemptAdds(hash, pin, s, reply);
      ConservedTry(s, Attempt(hash, pin, s, reply), last);
    }
  }

  /** Every byte received is in the file or was discarded, at every point before a failure
      removes the file. */
  lemma {:induction false} BytesConserved(hash: Hash, pin: string, serve: Server, archive: Option<Bytes>, n: nat)
    ensures var s := Download(hash, pin, serve, archive, n); s.result.Failed? || Conserved(s)
  {
    if n > 0 {
      var m: nat :| n == m + 1;
      var s := Download(hash, pin, serve, archive, m);
      BytesConserved(hash, pin, serve, archive, m);
      if s.result.Trying? {
        ConservedNext(hash, pin, serve, s, n);
      }
    }
  }

  /** There is something to resume, and the reply starts over. */
  predicate StartsOver(partial: Option<Bytes>, reply: Reply) {
    reply.Reply? && Offset(partial) > 0 && !Resumes(Offset(partial), reply)
  }

  /** A body that came to its end, whose bytes fail the pin. */
  predicate FailsPin(hash: Hash, pin: string, partial: Option<Bytes>, reply: Reply) {
    && reply.Reply? && (reply.ending.Clean? || reply.ending.Unplaced?)
    && Written(partial, reply) != "" && hash(Written(partial, reply)) != pin
  }

  /** Attempt `n` is made, and its reply takes one of the two branches that throw bytes away. */
  ghost predicate WastesAt(hash: Hash, pin: string, serve: Server, archive: Option<Bytes>, n: nat)
    requires n > 0
  {
    var s := Download(hash, pin, serve, archive, n - 1);
    var reply := serve(n, Offset(s.partial));
    s.result.Trying? && (StartsOver(s.partial, reply) || FailsPin(hash, pin, s.partial, reply))
  }

  lemma {:induction false} DiscardStep(hash: Hash, pin: string, serve: Server, s: Session, n: nat)
    requires s.result.Trying?
    ensures var reply := serve(n, Offset(s.partial));
      Discarded(NextSession(hash, pin, serve, s, n).log) == 0 <==>
        Discarded(s.log) == 0 && !StartsOver(s.partial, reply) && !FailsPin(hash, pin, s.partial, reply)
  {
    var reply := serve(n, Offset(s.partial));
    if !reply.Died? {
      var last := AttemptAdds(hash, pin, s, reply);
      OneMoreTry(s.log, last);
    }
  }

  /** No attempt up to the `n`-th throws bytes away. */
  ghost predicate Wasteless(hash: Hash, pin: string, serve: Server, archive: Option<Bytes>, n: nat) {
    forall i :: 0 < i <= n ==> !WastesAt(hash, pin, serve, archive, i)
  }

  lemma {:induction false} WastelessStep(hash: Hash, pin: string, serve: Server, archive: Option<Bytes>, m: nat)
    ensures Wasteless(hash, pin, serve, archive, m + 1) <==>
      Wasteless(hash, pin, serve, archive, m) && !WastesAt(hash, pin, serve, archive, m + 1)
  {
  }

  lemma {:induction false} DownloadStep(hash: Hash, pin: string, serve: Server, archive: Option<Bytes>, m: nat)
    ensures var s := Download(hash, pin, serve, archive, m);
      var reply := serve(m + 1, Offset(s.partial));
      && Download(hash, pin, serve, archive, m + 1)
           == (if s.result.Trying? then NextSession(hash, pin, serve, s, m + 1) else s)
      && (WastesAt(hash, pin, serve, archive, m + 1) <==>
            s.result.Trying? && (StartsOver(s.partial, reply) || FailsPin(hash, pin, s.partial, reply)))
  {
  }

  lemma {:induction false} DiscardsExactly(hash: Hash, pin: string, serve: Server, archive: Option<Bytes>, n: nat)
    ensures Discarded(Download(hash, pin, serve, archive, n).log) == 0 <==> Wasteless(hash, pin, serve, archive, n)
  {
    if n > 0 {
      var m: nat :| n == m + 1;
      var s := Download(hash, pin, serve, archive, m);
      DiscardsExactly(hash, pin, serve, archive, m);
      WastelessStep(hash, pin, serve, archive, m);
      DownloadStep(hash, pin, serve, archive, m);
      if s.result.Trying? {
        DiscardStep(hash, pin, serve, s, n);
      }
    }
  }

  /** A successful download received each byte of the archive once exactly when no reply started
      over on a nonempty partial file and no complete body failed the pin. */
  lemma {:induction false} ReceivedOnce(hash: Hash, pin: string, serve: Server, archive: Option<Bytes>, n: nat, s: Session)
    requires s == Download(hash, pin, serve, archive, n) && s.result.Installed?
    ensures s.archive.Some?
    ensures Received(s.log) == |s.archive.value| <==> Wasteless(hash, pin, serve, archive, n)
  {
    OnlyPinnedBytes(hash, pin, serve, archive, n);
    BytesConserved(hash, pin, serve, archive, n);
    DiscardsExactly(hash, pin, serve, archive, n);
  }

  // ----- against an origin that holds the archive -----

  /** Sections 14.4 and 15.3.7 of RFC 9110: a partial reply says where its range begins. */
  ghost predicate Labelled(reply: Reply, first: nat) {
    reply.Reply? && reply.status == 206 && RangePrefix(first) <= reply.contentRange
  }

  /** A partial reply sends true archive bytes, possibly cut short, from the byte it names. */
  ghost predicate TrueRange(bytes: Bytes, reply: Reply, first: nat) {
    Labelled(reply, first) && first <= |bytes| && reply.body <= bytes[first..]
  }

  /** A reply of true archive bytes: any other than a partial one starts at byte 0. */
  ghost predicate TrueReply(bytes: Bytes, reply: Reply) {
    reply.Reply? ==>
      if reply.status == 206 then exists first: nat :: TrueRange(bytes, reply, first) else reply.body <= bytes
  }

  /** A partial reply starts where it was asked to, or at byte 0. */
  ghost predicate Aligned(offset: nat, reply: Reply) {
    reply.Reply? && reply.status == 206 ==> Labelled(reply, offset) || Labelled(reply, 0)
  }

  ghost predicate Origin(bytes: Bytes, serve: Server) {
    forall n, offset :: TrueReply(bytes, serve(n, offset)) && Aligned(offset, serve(n, offset))
  }

  /** A `Content-Range` names one first byte: numerals end at the hyphen. */
  lemma {:induction false} OneFirstByte(header: string, a: nat, b: nat)
    requires RangePrefix(a) <= header && RangePrefix(b) <= header
    ensures a == b
  {
    DecimalRoundTrip(a);
    DecimalRoundTrip(b);
    NumeralPrefix(header, a);
    NumeralPrefix(header, b);
    FirstSeparator(Decimal(a), Decimal(b), '-', header[6..]);
  }

  lemma {:induction false} NumeralPrefix(header: string, n: nat)
    requires RangePrefix(n) <= header
    ensures |header| >= 6 && Decimal(n) + "-" <= header[6..] && Free(Decimal(n), '-')
  {
    DecimalRoundTrip(n);
    var prefix := RangePrefix(n);
    assert prefix[6..] == Decimal(n) + "-";
    assert header[..|prefix|] == prefix;
    assert header[6..][..|prefix| - 6] == prefix[6..];
  }

  /** What an attempt writes is a prefix of the archive if what it started from was one. */
  lemma {:induction false} WritesPrefix(bytes: Bytes, partial: Option<Bytes>, reply: Reply)
    requires reply.Reply? && TrueReply(bytes, reply) && Aligned(Offset(partial), reply)
    requires partial.Some? ==> partial.value <= bytes
    ensures Written(partial, reply) <= bytes
  {
    var offset := Offset(partial);
    if reply.status == 206 {
      var first: nat :| TrueRange(bytes, reply, first);
      if Resumes(offset, reply) {
        OneFirstByte(reply.contentRange, first, offset);
        assert partial.value + reply.body <= bytes;
      } else {
        OneFirstByte(reply.contentRange, first, if Labelled(reply, 0) then 0 else offset);
        assert first == 0;
        assert bytes[0..] == bytes;
      }
    }
  }

  function Fill(n: nat): (s: Bytes)
    ensures |s| == n && forall i :: 0 <= i < n ==> s[i] == 'a'
  {
    if n == 0 then "" else ['a'] + Fill(n - 1)
  }

  /** The restriction to such ranges is needed: for every other first byte some archive and some
      true reply leave a partial file that is no prefix. */
  lemma {:induction false} UnalignedBreaksPrefix(offset: nat, first: nat)
    returns (bytes: Bytes, partial: Option<Bytes>, reply: Reply)
    requires first != offset && first != 0
    ensures reply.Reply? && reply.status == 206 && TrueRange(bytes, reply, first)
    ensures Offset(partial) == offset && partial.Some? && partial.value <= bytes
    ensures !(Written(partial, reply) <= bytes)
  {
    bytes := Fill(first) + ['b'] + Fill(offset);
    partial := Some(bytes[..offset]);
    reply := Reply(206, RangePrefix(first), "b", Clean);
    assert bytes[first..][0] == 'b' && bytes[0] == 'a';
    if Resumes(offset, reply) {
      OneFirstByte(reply.contentRange, first, offset);
    }
    assert Written(partial, reply)[0] == 'b';
  }

  ghost predicate KeepsPrefix(offset: nat, first: nat) {
    forall bytes, partial, reply ::
      TrueRange(bytes, reply, first) && Offset(partial) == offset && (partial.Some? ==> partial.value <= bytes) ==>
        Written(partial, reply) <= bytes
  }

  /** Exactly the ranges from the requested byte or from byte 0 keep the partial file a prefix. */
  lemma {:induction false} PrefixExact(offset: nat, first: nat)
    ensures KeepsPrefix(offset, first) <==> first == offset || first == 0
  {
    if first == offset || first == 0 {
      forall bytes, partial, reply |
        TrueRange(bytes, reply, first) && Offset(partial) == offset && (partial.Some? ==> partial.value <= bytes)
        ensures Written(partial, reply) <= bytes
      {
        WritesPrefix(bytes, partial, reply);
      }
    } else {
      var bytes, partial, reply := UnalignedBreaksPrefix(offset, first);
    }
  }

  ghost predicate HoldsPrefix(s: Session, bytes: Bytes) {
    && (s.partial.Some? ==> s.partial.value <= bytes)
    && (s.result.Installed? ==> s.archive.Some? && s.archive.value <= bytes)
  }

  lemma {:induction false} PrefixNext(hash: Hash, pin: string, serve: Server, bytes: Bytes, s: Session, n: nat)
    requires Origin(bytes, serve) && s.result.Trying? && HoldsPrefix(s, bytes)
    ensures HoldsPrefix(NextSession(hash, pin, serve, s, n), bytes)
  {
    var reply := serve(n, Offset(s.partial));
    assert TrueReply(bytes, reply) && Aligned(Offset(s.partial), reply);
    if reply.Reply? {
      WritesPrefix(bytes, s.partial, reply);
    }
  }

  /** The partial file is a prefix of the archive at every attempt, and so is what is installed. */
  lemma {:induction false} PartialIsPrefix(hash: Hash, pin: string, serve: Server, archive: Option<Bytes>, bytes: Bytes,
                                           n: nat)
    requires Origin(bytes, serve)
    ensures HoldsPrefix(Download(hash, pin, serve, archive, n), bytes)
  {
    if n > 0 {
      var m: nat :| n == m + 1;
      var s := Download(hash, pin, serve, archive, m);
      PartialIsPrefix(hash, pin, serve, archive, bytes, m);
      if s.result.Trying? {
        PrefixNext(hash, pin, serve, bytes, s, n);
      }
    }
  }

  /** With no proper prefix of the archive sharing its digest, success installs the archive. */
  lemma {:induction false} InstallsArchive(hash: Hash, pin: string, serve: Server, archive: Option<Bytes>, bytes: Bytes,
                                           n: nat)
    requires Origin(bytes, serve) && forall k :: 0 <= k < |bytes| ==> hash(bytes[..k]) != pin
    requires Download(hash, pin, serve, archive, n).result.Installed?
    ensures Download(hash, pin, serve, archive, n).archive == Some(bytes)
  {
    OnlyPinnedBytes(hash, pin, serve, archive, n);
    PartialIsPrefix(hash, pin, serve, archive, bytes, n);
    var installed := Download(hash, pin, serve, archive, n).archive.value;
    assert installed == bytes[..|installed|];
    assert |installed| == |bytes| && bytes[..|bytes|] == bytes;
  }

  // ----- honoured resumes are not enough -----

  /** A first reply that ends early with no declared length, then the whole archive. */
  function EarlyClose(n: nat, offset: nat): Reply { Reply(200, "", if n == 1 then "a" else "ab", Clean) }

  /** Nothing but true bytes is sent, and no resume is ever asked for, since the short body failed
      the pin and was removed; yet three bytes are received for an archive of two. */
  lemma {:induction false} EarlyCloseReceivesMore(hash: Hash, pin: string)
    requires hash("ab") == pin && hash("a") != pin
    ensures Origin("ab", EarlyClose)
    ensures var s := Download(hash, pin, EarlyClose, None, 2);
      && s.result.Installed? && s.archive == Some("ab")
      && (forall i :: 0 <= i < |s.log| ==> s.log[i].offset == 0)
      && Received(s.log) == 3
  {
    var first, second := Try(0, false, 1, 1, false), Try(0, false, 2, 0, true);
    assert Download(hash, pin, EarlyClose, None, 0) == Session(None, None, 0, [], Trying);
    DownloadStep(hash, pin, EarlyClose, None, 0);
    assert [] + [first] == [first];
    assert Download(hash, pin, EarlyClose, None, 1) == Session(None, None, 1, [first], Trying);
    DownloadStep(hash, pin, EarlyClose, None, 1);
    assert Download(hash, pin, EarlyClose, None, 2).log == [first] + [second];
    OneMoreTry([], first);
    OneMoreTry([first], second);
  }

  // ----- an honest server -----

  /** The reply resumes where it was asked to, and brings some of the rest, or all of it. */
  ghost predicate HonestReply(bytes: Bytes, offset: nat, reply: Reply)
    requires offset <= |bytes|
  {
    && reply.Reply?
    && (if offset == 0 then reply.status == 200
        else reply.status == 206 && RangePrefix(offset) <= reply.contentRange)
    && reply.body <= bytes[offset..]
    && ((reply.ending.Early? && reply.body != "") || (reply.ending.Clean? && reply.body == bytes[offset..]))
  }

  ghost predicate Honest(bytes: Bytes, serve: Server) {
    forall n, offset: nat :: offset <= |bytes| ==> HonestReply(bytes, offset, serve(n, offset))
  }

  /** The file holds the first bytes of the archive, at least one for each attempt made. */
  ghost predicate Growing(s: Session, bytes: Bytes, n: nat) {
    && s.result.Trying? && s.stalled == 0 && n <= Offset(s.partial) <= |bytes|
    && (s.partial.Some? ==> s.partial.value == bytes[..|s.partial.value|])
  }

  /** An honest reply never counts as a stall: the file grows, or the archive is installed. */
  lemma {:induction false} HonestStep(hash: Hash, pin: string, bytes: Bytes, s: Session, reply: Reply, n: nat)
    requires Growing(s, bytes, n) && HonestReply(bytes, Offset(s.partial), reply) && hash(bytes) == pin
    ensures var next := Attempt(hash, pin, s, reply);
      if reply.ending.Early? then Growing(next, bytes, n + 1)
      else next.result.Installed? && next.archive == Some(bytes)
  {
    var offset := Offset(s.partial);
    assert reply.body == bytes[offset..][..|reply.body|] == bytes[offset..offset + |reply.body|];
    assert bytes[..offset] + bytes[offset..offset + |reply.body|] == bytes[..offset + |reply.body|];
    assert Written(s.partial, reply) == bytes[..offset + |reply.body|];
    assert bytes[..|bytes|] == bytes;
  }

  lemma {:induction false} HonestRun(hash: Hash, pin: string, bytes: Bytes, serve: Server, archive: Option<Bytes>, n: nat)
    requires Honest(bytes, serve) && hash(bytes) == pin && n < 10
    ensures var s := Download(hash, pin, serve, archive, n);
      Growing(s, bytes, n) || (s.result.Installed? && s.archive == Some(bytes))
  {
    if n > 0 {
      var m: nat :| n == m + 1;
      var s := Download(hash, pin, serve, archive, m);
      HonestRun(hash, pin, bytes, serve, archive, m);
      DownloadStep(hash, pin, serve, archive, m);
      if s.result.Trying? {
        HonestStep(hash, pin, bytes, s, serve(n, Offset(s.partial)), m);
      }
    }
  }

  /** Against an honest server that completes a reply by the tenth attempt, the archive is installed. */
  lemma {:induction false} HonestInstalls(hash: Hash, pin: string, bytes: Bytes, serve: Server, archive: Option<Bytes>, k: nat)
    requires Honest(bytes, serve) && hash(bytes) == pin
    requires 0 < k <= 10 && forall offset :: serve(k, offset).Reply? ==> serve(k, offset).ending.Clean?
    ensures var s := Download(hash, pin, serve, archive, 10);
      s.result.Installed? && s.archive == Some(bytes)
  {
    var m: nat :| k == m + 1;
    var s := Download(hash, pin, serve, archive, m);
    HonestRun(hash, pin, bytes, serve, archive, m);
    DownloadStep(hash, pin, serve, archive, m);
    if s.result.Trying? {
      HonestStep(hash, pin, bytes, s, serve(k, Offset(s.partial)), m);
    }
    EndedStays(hash, pin, serve, archive, k, 10);
  }
}
