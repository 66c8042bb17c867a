/** One invocation of the mirror publisher over a key-to-bytes object store.
    Every step may be cut short, before or after its upload took effect. */
module ReleaseMirror {
  import opened Text
  import opened MirrorPayload

  type Store = map<string, Bytes>

  const LATEST := "latest"
  const VERSION_FILE := "version.txt"

  datatype Phase = Stage | Promote

  /** What happens to one step: it completes; the run ends before the step has any
      effect; or the run ends after the upload took effect (a lost reply, a
      failed readback, a killed process). */
  datatype Fault = Proceed | Lost | Torn

  datatype Run = Run(
    phase: Phase,
    version: string,
    dist: map<string, Bytes>,
    installer: Bytes,
    prefix: string,
    faults: nat -> Fault)

  datatype Failure = BadVersion | BadPayload | Interrupted | Immutable | NotStaged | BadPointer

  datatype Status = Running | Failed(why: Failure) | Staged | Promoted | LatestIsNewer

  /** A run so far: the store, the keys whose upload took effect, and how it stands. */
  datatype Progress = Progress(store: Store, uploads: seq<string>, status: Status) {
    function Stop(why: Failure): Progress { this.(status := Failed(why)) }
  }

  // ----- keys -----

  /** `prefix.strip("/")`. */
  function StripSlashes(s: string): string
    decreases |s|
  {
    if s != "" && s[0] == '/' then StripSlashes(s[1..])
    else if s != "" && s[|s| - 1] == '/' then StripSlashes(s[..|s| - 1])
    else s
  }

  /** What is stripped is slashes, all of them at either end, and nothing else. */
  lemma {:induction false} StripSlashesMeaning(s: string) returns (i: nat, j: nat)
    ensures i <= j <= |s| && StripSlashes(s) == s[i..j]
    ensures forall k :: 0 <= k < i || j <= k < |s| ==> s[k] == '/'
    ensures i < j ==> s[i] != '/' && s[j - 1] != '/'
    decreases |s|
  {
    if s != "" && s[0] == '/' {
      var tail := s[1..];
      i, j := StripSlashesMeaning(tail);
      assert forall k :: 1 <= k < |s| ==> s[k] == tail[k - 1];
      assert tail[i..j] == s[i + 1..j + 1];
      i, j := i + 1, j + 1;
    } else if s != "" && s[|s| - 1] == '/' {
      var init := s[..|s| - 1];
      i, j := StripSlashesMeaning(init);
      assert init[i..j] == s[i..j];
    } else {
      i, j := 0, |s|;
    }
  }

  function Key(prefix: string, dir: string, name: string): string {
    prefix + "/" + dir + "/" + name
  }

  /** Keys of different prefixes, versions or names never collide, whatever the prefixes. */
  lemma {:induction false} KeyInjective(p: string, d: string, n: string, p': string, d': string, n': string)
    requires Free(d, '/') && Free(n, '/') && Free(d', '/') && Free(n', '/')
    requires Key(p, d, n) == Key(p', d', n')
    ensures p == p' && d == d' && n == n'
  {
    var a, a' := p + "/" + d, p' + "/" + d';
    assert Key(p, d, n) == a + ['/'] + n && Key(p', d', n') == a' + ['/'] + n';
    LastSeparator(a, n, a', n', '/');
    LastSeparator(p, d, p', d', '/');
  }

  // ----- the pointer -----

  predicate IsSpace(c: char) { 
    || c in " \t\n\r\U{0b}\U{0c}\U{1c}\U{1d}\U{1e}\U{1f}\U{85}\U{a0}\U{1680}\U{2028}\U{2029}\U{202f}\U{205f}\U{3000}"
    || '\U{2000}' <= c <= '\U{200a}'
  }

  function Strip(s: string): string
    decreases |s|
  {
    if s != "" && IsSpace(s[0]) then Strip(s[1..])
    else if s != "" && IsSpace(s[|s| - 1]) then Strip(s[..|s| - 1])
    else s
  }

  /** `response.read(128).decode().strip()`. */
  function ReadPointer(content: Bytes): string {
    Strip(if |content| <= 128 then content else content[..128])
  }

  datatype Decision = Refuse | Remain | Advance

  /** May a promotion of `version` move a pointer that reads `previous`? */
  function Guard(previous: string, version: string): Decision
    requires IsVersion(version)
  {
    if previous == "" then Advance
    else if !IsVersion(previous) then Refuse
    else if NumbersOf(previous).Exceeds(NumbersOf(version)) then Remain
    else Advance
  }

  // ----- steps -----

  function Put(p: Progress, key: string, content: Bytes, fault: Fault): Progress {
    if fault.Lost? then p.Stop(Interrupted)
    else
      var stored := Progress(p.store[key := content], p.uploads + [key], p.status);
      if fault.Torn? then stored.Stop(Interrupted) else stored
  }

  /** One file of the payload: check what is stored, upload it if absent. */
  function Publish(hash: Hash, run: Run, p: Progress, entry: Entry, fault: Fault): Progress {
    var key := Key(StripSlashes(run.prefix), run.version, entry.name);
    if fault.Lost? then p.Stop(Interrupted)
    else if key in p.store then
      if hash(p.store[key]) != hash(entry.content) then p.Stop(Immutable)
      else if fault.Torn? then p.Stop(Interrupted)
      else p
    else if run.phase.Promote? then p.Stop(NotStaged)
    else Put(p, key, entry.content, fault)
  }

  function PublishAll(hash: Hash, run: Run, p: Progress, entries: seq<Entry>): Progress {
    if entries == [] then p else
      var n := |entries| - 1;
      var before := PublishAll(hash, run, p, entries[..n]);
      if before.status.Running? then Publish(hash, run, before, entries[n], run.faults(n)) else before
  }

  /** After all files: move the installer and then the pointer, unless it is ahead. */
  function MovePointer(run: Run, p: Progress, n: nat): Progress
    requires IsVersion(run.version)
  {
    var prefix := StripSlashes(run.prefix);
    var pointer := Key(prefix, LATEST, VERSION_FILE);
    if run.faults(n).Lost? then p.Stop(Interrupted) else
      match Guard(if pointer in p.store then ReadPointer(p.store[pointer]) else "", run.version)
      case Refuse => p.Stop(BadPointer)
      case Remain => p.(status := LatestIsNewer)
      case Advance =>
        var moved := Put(p, Key(prefix, LATEST, INSTALLER), run.installer, run.faults(n));
        if !moved.status.Running? then moved else
          var pointed := Put(moved, pointer, run.version + "\n", run.faults(n + 1));
          if pointed.status.Running? then pointed.(status := Promoted) else pointed
  }

  /** A whole invocation. */
  function Invoke(hash: Hash, store: Store, run: Run): Progress {
    var start := Progress(store, [], Running);
    if !IsVersion(run.version) then start.Stop(BadVersion) else
      var entries := Payload(hash, run.dist, run.installer, run.version);
      if entries.None? then start.Stop(BadPayload) else
        var done := PublishAll(hash, run, start, entries.value);
        if !done.status.Running? then done
        else if run.phase.Stage? then done.(status := Staged)
        else MovePointer(run, done, |entries.value|)
  }

  // ----- the publisher as it runs -----

  class Mirror {
    const hash: Hash
    var objects: Store
    var uploads: seq<string>

    constructor (hash: Hash)
      ensures this.hash == hash && objects == map[]
    {
      this.hash := hash;
      objects := map[];
      uploads := [];
    }

    method Upload(key: string, content: Bytes, fault: Fault) returns (ok: bool)
      modifies this
      ensures forall status ::
        var r := Put(Progress(old(objects), old(uploads), status), key, content, fault);
        && objects == r.store && uploads == r.uploads
        && r.status == if ok then status else Failed(Interrupted)
      ensures ok <==> fault.Proceed?
    {
      if fault.Lost? {
        return false;
      }
      objects := objects[key := content];
      uploads := uploads + [key];
      return fault.Proceed?;
    }

    ghost function Snapshot(status: Status): Progress
      reads this
    {
      Progress(objects, uploads, status)
    }

    /** The body of the upload loop, for one file. */
    method PublishFile(run: Run, entry: Entry, fault: Fault) returns (status: Status)
      modifies this
      ensures Snapshot(status) == Publish(hash, run, old(Snapshot(Running)), entry, fault)
    {
      var key := Key(StripSlashes(run.prefix), run.version, entry.name);
      if fault.Lost? {
        return Failed(Interrupted);
      }
      if key in objects && hash(objects[key]) != hash(entry.content) {
        return Failed(Immutable);
      }
      if key !in objects {
        if run.phase.Promote? {
          return Failed(NotStaged);
        }
        var ok := Upload(key, entry.content, fault);
        return if ok then Running else Failed(Interrupted);
      }
      return if fault.Torn? then Failed(Interrupted) else Running;
    }

    /** The promotion that follows the upload loop. */
    method PromoteVersion(run: Run, n: nat) returns (status: Status)
      requires IsVersion(run.version)
      modifies this
      ensures Snapshot(status) == MovePointer(run, old(Snapshot(Running)), n)
    {
      var prefix := StripSlashes(run.prefix);
      var pointer := Key(prefix, LATEST, VERSION_FILE);
      if run.faults(n).Lost? {
        return Failed(Interrupted);
      }
      var previous := if pointer in objects then ReadPointer(objects[pointer]) else "";
      if previous != "" {
        if !IsVersion(previous) {
          return Failed(BadPointer);
        }
        if NumbersOf(previous).Exceeds(NumbersOf(run.version)) {
          return LatestIsNewer;
        }
      }
      var ok := Upload(Key(prefix, LATEST, INSTALLER), run.installer, run.faults(n));
      if !ok {
        return Failed(Interrupted);
      }
      ok := Upload(pointer, run.version + "\n", run.faults(n + 1));
      return if ok then Promoted else Failed(Interrupted);
    }

    /** The upload loop. */
    method PublishFiles(run: Run, entries: seq<Entry>) returns (status: Status)
      modifies this
      ensures Snapshot(status) == PublishAll(hash, run, old(Snapshot(Running)), entries)
    {
      ghost var start := Snapshot(Running);
      for n := 0 to |entries|
        invariant PublishAll(hash, run, start, entries[..n]) == Snapshot(Running)
      {
        assert entries[..n + 1][..n] == entries[..n];
        status := PublishFile(run, entries[n], run.faults(n));
        if !status.Running? {
          StoppedForGood(hash, run, start, entries, n + 1);
          return;
        }
      }
      assert entries[..|entries|] == entries;
      status := Running;
    }

    /** `main`: validate, publish every file in order, then move the pointer. */
    method RunInvocation(run: Run) returns (status: Status)
      modifies this
      ensures Snapshot(status) == Invoke(hash, old(objects), run)
    {
      uploads := [];
      if !IsVersion(run.version) {
        return Failed(BadVersion);
      }
      var payload := BuildPayload(hash, run.dist, run.installer, run.version);
      if payload.None? {
        return Failed(BadPayload);
      }
      status := PublishFiles(run, payload.value);
      if !status.Running? {
        return;
      }
      if run.phase.Stage? {
        return Staged;
      }
      status := PromoteVersion(run, |payload.value|);
    }
  }

  lemma {:induction false} StoppedForGood(hash: Hash, run: Run, p: Progress, entries: seq<Entry>, n: nat)
    requires n <= |entries| && !PublishAll(hash, run, p, entries[..n]).status.Running?
    ensures PublishAll(hash, run, p, entries) == PublishAll(hash, run, p, entries[..n])
    decreases |entries|
  {
    if n == |entries| {
      assert entries[..n] == entries;
    } else {
      assert entries[..|entries| - 1][..n] == entries[..n];
      StoppedForGood(hash, run, p, entries[..|entries| - 1], n);
    }
  }
}
