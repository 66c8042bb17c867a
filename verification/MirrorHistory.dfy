/** What holds of the mirror after any history of serialised invocations, each of
    any version, prefix and local directory, and each cut off at any step. */
module MirrorHistory {
  import opened Wrappers
  import opened Text
  import opened MirrorPayload
  import opened ReleaseMirror

  /** The store after a history. A run that dies is a member like any other. */
  function History(hash: Hash, runs: seq<Run>): Store {
    if runs == [] then map[] else
      Invoke(hash, History(hash, runs[..|runs| - 1]), runs[|runs| - 1]).store
  }

  // ----- the invariant -----

  ghost predicate ListedStored(hash: Hash, store: Store, prefix: string, version: string, manifest: Bytes) {
    var lines := SplitLines(manifest);
    forall i :: 0 <= i < |lines| ==>
      && ParseLine(lines[i]).Some?
      && var listed := ParseLine(lines[i]).value;
         && Key(prefix, version, listed.name) in store
         && hash(store[Key(prefix, version, listed.name)]) == listed.digest
  }

  /** A stored manifest is a promise already kept: it lists a complete artifact set, and
      each artifact is stored with the digest it lists. */
  ghost predicate ManifestLast(hash: Hash, store: Store, prefix: string, version: string)
    requires IsVersion(version)
  {
    var manifest := Key(prefix, version, MANIFEST);
    manifest in store ==>
      && ListedStored(hash, store, prefix, version, store[manifest])
      && CompleteSet(ListedNames(store[manifest]), version)
  }

  ghost predicate Released(hash: Hash, store: Store, prefix: string, version: string) {
    && IsVersion(version)
    && Key(prefix, version, MANIFEST) in store
    && Key(prefix, version, INSTALLER) in store
    && ManifestLast(hash, store, prefix, version)
  }

  /** The pointer is absent or names a released version. */
  ghost predicate PointerSafe(hash: Hash, store: Store, prefix: string) {
    var pointer := Key(prefix, LATEST, VERSION_FILE);
    pointer in store ==>
      exists version :: store[pointer] == version + "\n" && Released(hash, store, prefix, version)
  }

  ghost predicate Safe(hash: Hash, store: Store) {
    && (forall prefix, version :: IsVersion(version) ==> ManifestLast(hash, store, prefix, version))
    && (forall prefix :: PointerSafe(hash, store, prefix))
  }

  ghost predicate VersionedKey(key: string) {
    exists prefix, version, name ::
      IsVersion(version) && Free(name, '/') && key == Key(prefix, version, name)
  }

  /** Everything stored under a version directory is still there, unchanged. */
  ghost predicate Keeps(store: Store, store': Store) {
    forall key :: key in store && VersionedKey(key) ==> key in store' && store'[key] == store[key]
  }

  // ----- names and keys -----

  lemma {:induction false} SplitDigits(s: string, c: char)
    requires forall i :: 0 <= i < |Split(s, c)| ==> AllDigits(Split(s, c)[i])
    ensures forall i :: 0 <= i < |s| ==> s[i] == c || IsDigit(s[i])
  {
    if s != "" {
      var rest := Split(s[1..], c);
      if s[0] == c {
        assert Split(s, c)[1..] == rest;
        assert forall i :: 0 <= i < |rest| ==> rest[i] == Split(s, c)[i + 1];
      } else {
        var first := Split(s, c)[0];
        assert first == [s[0]] + rest[0];
        assert forall i :: 0 <= i < |rest[0]| ==> rest[0][i] == first[i + 1];
        assert IsDigit(first[0]);
        assert forall i :: 1 <= i < |rest| ==> rest[i] == Split(s, c)[i];
      }
      SplitDigits(s[1..], c);
    }
  }

  lemma {:induction false} VersionText(version: string)
    requires IsVersion(version)
    ensures forall i :: 0 <= i < |version| ==> version[i] == 'v' || version[i] == '.' || IsDigit(version[i])
    ensures Free(version, '/') && version != LATEST
  {
    SplitDigits(version[1..], '.');
    assert forall i :: 1 <= i < |version| ==> version[i] == version[1..][i - 1];
    assert LATEST[0] != 'v';
  }

  /** Two keys in version directories, or in `latest`, meet only if every part does. */
  lemma {:induction false} KeysApart(p: string, d: string, n: string, p': string, d': string, n': string)
    requires (IsVersion(d) || d == LATEST) && (IsVersion(d') || d' == LATEST)
    requires Free(n, '/') && Free(n', '/')
    ensures Key(p, d, n) == Key(p', d', n') ==> p == p' && d == d' && n == n'
  {
    if IsVersion(d) { VersionText(d); }
    if IsVersion(d') { VersionText(d'); }
    if Key(p, d, n) == Key(p', d', n') {
      KeyInjective(p, d, n, p', d', n');
    }
  }

  lemma {:induction false} FixedNames()
    ensures Free(MANIFEST, '/') && Free(INSTALLER, '/') && Free(VERSION_FILE, '/')
    ensures MANIFEST != INSTALLER && !StartsWith(MANIFEST, "scode") && !StartsWith(INSTALLER, "scode")
  {
    assert MANIFEST[0] != INSTALLER[0] && MANIFEST[0] != "scode"[0] && INSTALLER[0] != "scode"[0];
  }

  lemma {:induction false} KeptKey(store: Store, store': Store, prefix: string, version: string, name: string)
    requires Keeps(store, store') && IsVersion(version) && Free(name, '/')
    requires Key(prefix, version, name) in store
    ensures Key(prefix, version, name) in store'
    ensures store'[Key(prefix, version, name)] == store[Key(prefix, version, name)]
  {
    assert VersionedKey(Key(prefix, version, name));
  }

  lemma {:induction false} KeepsTransitive(a: Store, b: Store, c: Store)
    requires Keeps(a, b) && Keeps(b, c)
    ensures Keeps(a, c)
  {
  }

  // ----- what one upload keeps -----

  lemma {:induction false} ListedStays(hash: Hash, store: Store, store': Store, prefix: string, version: string, manifest: Bytes)
    requires IsVersion(version) && Keeps(store, store')
    requires ListedStored(hash, store, prefix, version, manifest)
    ensures ListedStored(hash, store', prefix, version, manifest)
  {
    var lines := SplitLines(manifest);
    forall i | 0 <= i < |lines|
      ensures Key(prefix, version, ParseLine(lines[i]).value.name) in store'
      ensures hash(store'[Key(prefix, version, ParseLine(lines[i]).value.name)]) == ParseLine(lines[i]).value.digest
    {
      ListedNameFree(lines[i]);
      KeptKey(store, store', prefix, version, ParseLine(lines[i]).value.name);
    }
  }

  lemma {:induction false} ListedNameFree(line: string)
    ensures ParseLine(line).Some? ==> Free(ParseLine(line).value.name, '/')
  {
    assert forall i :: 66 <= i < |line| ==> line[i] == line[66..][i - 66];
  }

  /** Adding an absent versioned object is safe; for a manifest, once its artifacts are stored. */
  lemma {:induction false} AddSafe(hash: Hash, store: Store, prefix: string, version: string, name: string, content: Bytes)
    requires Safe(hash, store) && IsVersion(version) && Free(name, '/')
    requires Key(prefix, version, name) !in store
    requires name == MANIFEST ==>
      ListedStored(hash, store, prefix, version, content) && CompleteSet(ListedNames(content), version)
    ensures Safe(hash, store[Key(prefix, version, name) := content])
    ensures Keeps(store, store[Key(prefix, version, name) := content])
  {
    var store' := store[Key(prefix, version, name) := content];
    assert Keeps(store, store');
    forall p, v | IsVersion(v) ensures ManifestLast(hash, store', p, v) {
      KeysApart(p, v, MANIFEST, prefix, version, name);
      var m := Key(p, v, MANIFEST);
      assert ManifestLast(hash, store, p, v);
      if m in store {
        ListedStays(hash, store, store', p, v, store[m]);
      } else if m in store' {
        ListedStays(hash, store, store', prefix, version, content);
      }
    }
    forall p ensures PointerSafe(hash, store', p) {
      KeysApart(p, LATEST, VERSION_FILE, prefix, version, name);
      PointerStays(hash, store, store', p);
    }
  }

  lemma {:induction false} ReleasedStays(hash: Hash, store: Store, store': Store, prefix: string, version: string)
    requires Keeps(store, store') && Released(hash, store, prefix, version)
    ensures Released(hash, store', prefix, version)
  {
    FixedNames();
    KeptKey(store, store', prefix, version, MANIFEST);
    KeptKey(store, store', prefix, version, INSTALLER);
    ListedStays(hash, store, store', prefix, version, store[Key(prefix, version, MANIFEST)]);
  }

  lemma {:induction false} PointerStays(hash: Hash, store: Store, store': Store, prefix: string)
    requires PointerSafe(hash, store, prefix) && Keeps(store, store')
    requires var pointer := Key(prefix, LATEST, VERSION_FILE);
      pointer in store' ==> pointer in store && store'[pointer] == store[pointer]
    ensures PointerSafe(hash, store', prefix)
  {
    var pointer := Key(prefix, LATEST, VERSION_FILE);
    if pointer in store' {
      var v :| store[pointer] == v + "\n" && Released(hash, store, prefix, v);
      ReleasedStays(hash, store, store', prefix, v);
    }
  }

  /** Overwriting a file under `latest/` is safe; the version file, once its version is released. */
  lemma {:induction false} MoveSafe(hash: Hash, store: Store, prefix: string, name: string, content: Bytes, version: string)
    requires Safe(hash, store) && Free(name, '/')
    requires name == VERSION_FILE ==> content == version + "\n" && Released(hash, store, prefix, version)
    ensures Safe(hash, store[Key(prefix, LATEST, name) := content])
    ensures Keeps(store, store[Key(prefix, LATEST, name) := content])
  {
    var key := Key(prefix, LATEST, name);
    var store' := store[key := content];
    forall k | VersionedKey(k) ensures k != key {
      var p, v, n :| IsVersion(v) && Free(n, '/') && k == Key(p, v, n);
      KeysApart(p, v, n, prefix, LATEST, name);
      VersionText(v);
    }
    forall p, v | IsVersion(v) ensures ManifestLast(hash, store', p, v) {
      if Key(p, v, MANIFEST) in store' {
        assert VersionedKey(Key(p, v, MANIFEST));
        assert ManifestLast(hash, store, p, v);
        ListedStays(hash, store, store', p, v, store[Key(p, v, MANIFEST)]);
      }
    }
    forall p ensures PointerSafe(hash, store', p) {
      KeysApart(p, LATEST, VERSION_FILE, prefix, LATEST, name);
      if Key(p, LATEST, VERSION_FILE) == key {
        assert Released(hash, store', prefix, version);
      } else {
        PointerStays(hash, store, store', p);
      }
    }
  }

  // ----- what one invocation keeps -----

  /** The first files of the payload are stored with the local digests. */
  ghost predicate Verified(hash: Hash, store: Store, run: Run, entries: seq<Entry>) {
    forall j :: 0 <= j < |entries| ==>
      var key := Key(StripSlashes(run.prefix), run.version, entries[j].name);
      key in store && hash(store[key]) == hash(entries[j].content)
  }

  ghost predicate FreeNames(entries: seq<Entry>) {
    forall j :: 0 <= j < |entries| ==> Free(entries[j].name, '/')
  }

  ghost predicate ListedAt(hash: Hash, line: string, entries: seq<Entry>, i: nat, m: nat)
    requires m < |entries|
  {
    && i < m && ParseLine(line).Some?
    && entries[i].name == ParseLine(line).value.name
    && hash(entries[i].content) == ParseLine(line).value.digest
  }

  ghost predicate ListedBefore(hash: Hash, version: string, entries: seq<Entry>, m: nat)
    requires IsVersion(version) && m < |entries|
  {
    && CompleteSet(ListedNames(entries[m].content), version)
    && var lines := SplitLines(entries[m].content);
       forall i :: 0 <= i < |lines| ==> ListedAt(hash, lines[i], entries, i, m)
  }

  /** A manifest in the payload lists a complete set, all of it earlier in the payload. */
  ghost predicate ManifestAfterListed(hash: Hash, run: Run, entries: seq<Entry>)
    requires IsVersion(run.version)
  {
    forall m :: 0 <= m < |entries| && entries[m].name == MANIFEST ==>
      ListedBefore(hash, run.version, entries, m)
  }

  lemma {:induction false} ListedEntry(hash: Hash, run: Run, entries: seq<Entry>, i: nat)
    requires IsVersion(run.version)
    requires Payload(hash, run.dist, run.installer, run.version) == Some(entries)
    requires i < |entries| - 2
    ensures var lines := SplitLines(run.dist[MANIFEST]);
      && MANIFEST in run.dist && |lines| == |entries| - 2
      && var listed := ParseLine(lines[i]);
         && listed.Some? && StartsWith(entries[i].name, "scode") && Free(entries[i].name, '/')
         && entries[i].name == listed.value.name && hash(entries[i].content) == listed.value.digest
  {
    PayloadMeaning(hash, run.dist, run.installer, run.version);
    var lines := SplitLines(run.dist[MANIFEST]);
    assert entries[..|lines|][i] == entries[i];
    assert LineHolds(hash, run.dist, lines[i]);
    ListedNameFree(lines[i]);
  }

  lemma {:induction false} ManifestEntry(hash: Hash, run: Run, entries: seq<Entry>)
    requires IsVersion(run.version)
    requires Payload(hash, run.dist, run.installer, run.version) == Some(entries)
    ensures |entries| >= 2 && MANIFEST in run.dist
    ensures entries[|entries| - 2] == Entry(MANIFEST, run.dist[MANIFEST])
    ensures entries[|entries| - 1] == Entry(INSTALLER, run.installer)
    ensures CompleteSet(ListedNames(run.dist[MANIFEST]), run.version)
    ensures |SplitLines(run.dist[MANIFEST])| == |entries| - 2
  {
    PayloadMeaning(hash, run.dist, run.installer, run.version);
  }

  lemma {:induction false} OneManifest(hash: Hash, run: Run, entries: seq<Entry>, m: nat)
    requires IsVersion(run.version)
    requires Payload(hash, run.dist, run.installer, run.version) == Some(entries)
    requires m < |entries| && entries[m].name == MANIFEST
    ensures m == |entries| - 2
  {
    FixedNames();
    ManifestEntry(hash, run, entries);
    if m < |entries| - 2 {
      ListedEntry(hash, run, entries, m);
    }
  }

  /** The payload is ordered so that its manifest comes after all it lists. */
  lemma {:induction false} PayloadOrdered(hash: Hash, run: Run, entries: seq<Entry>)
    requires IsVersion(run.version)
    requires Payload(hash, run.dist, run.installer, run.version) == Some(entries)
    ensures FreeNames(entries) && ManifestAfterListed(hash, run, entries)
  {
    FixedNames();
    ManifestEntry(hash, run, entries);
    forall j | 0 <= j < |entries| ensures Free(entries[j].name, '/') {
      if j < |entries| - 2 { ListedEntry(hash, run, entries, j); }
    }
    forall m | 0 <= m < |entries| && entries[m].name == MANIFEST
      ensures ListedBefore(hash, run.version, entries, m)
    {
      OneManifest(hash, run, entries, m);
      var lines := SplitLines(run.dist[MANIFEST]);
      forall i | 0 <= i < |lines| ensures ListedAt(hash, lines[i], entries, i, m) {
        ListedEntry(hash, run, entries, i);
      }
    }
  }

  lemma {:induction false} PublishKeeps(hash: Hash, run: Run, p: Progress, entries: seq<Entry>, n: nat, fault: Fault)
    requires p.status.Running? && Safe(hash, p.store) && IsVersion(run.version) && n < |entries|
    requires FreeNames(entries) && ManifestAfterListed(hash, run, entries)
    requires Verified(hash, p.store, run, entries[..n])
    ensures var done := Publish(hash, run, p, entries[n], fault);
      Safe(hash, done.store) && Keeps(p.store, done.store)
  {
    var prefix, e := StripSlashes(run.prefix), entries[n];
    if Publish(hash, run, p, e, fault).store != p.store {
      if e.name == MANIFEST {
        var lines := SplitLines(e.content);
        assert ListedBefore(hash, run.version, entries, n);
        forall i | 0 <= i < |lines|
          ensures Key(prefix, run.version, ParseLine(lines[i]).value.name) in p.store
          ensures hash(p.store[Key(prefix, run.version, ParseLine(lines[i]).value.name)])
               == ParseLine(lines[i]).value.digest
        {
          assert ListedAt(hash, lines[i], entries, i, n);
          assert entries[..n][i] == entries[i];
        }
      }
      AddSafe(hash, p.store, prefix, run.version, e.name, e.content);
    }
  }

  lemma {:induction false} PublishVerifies(hash: Hash, run: Run, p: Progress, entries: seq<Entry>, n: nat, fault: Fault)
    requires p.status.Running? && IsVersion(run.version) && n + 1 == |entries| && FreeNames(entries)
    requires Verified(hash, p.store, run, entries[..n])
    ensures var done := Publish(hash, run, p, entries[n], fault);
      done.status.Running? ==> Verified(hash, done.store, run, entries)
  {
    var done := Publish(hash, run, p, entries[n], fault);
    if done.status.Running? {
      forall j | 0 <= j < |entries|
        ensures var key := Key(StripSlashes(run.prefix), run.version, entries[j].name);
          key in done.store && hash(done.store[key]) == hash(entries[j].content)
      {
        if j < n { assert entries[..n][j] == entries[j]; }
      }
    }
  }

  lemma {:induction false} OrderedPrefix(hash: Hash, run: Run, entries: seq<Entry>, n: nat)
    requires IsVersion(run.version) && n <= |entries|
    requires FreeNames(entries) && ManifestAfterListed(hash, run, entries)
    ensures FreeNames(entries[..n]) && ManifestAfterListed(hash, run, entries[..n])
  {
    forall m | 0 <= m < n && entries[..n][m].name == MANIFEST
      ensures ListedBefore(hash, run.version, entries[..n], m)
    {
      assert ListedBefore(hash, run.version, entries, m);
      var lines := SplitLines(entries[m].content);
      forall i | 0 <= i < |lines| ensures ListedAt(hash, lines[i], entries[..n], i, m) {
        assert ListedAt(hash, lines[i], entries, i, m);
      }
    }
  }

  lemma {:induction false} PublishAllKeeps(hash: Hash, run: Run, p: Progress, entries: seq<Entry>)
    requires p.status.Running? && Safe(hash, p.store) && IsVersion(run.version)
    requires FreeNames(entries) && ManifestAfterListed(hash, run, entries)
    ensures var done := PublishAll(hash, run, p, entries);
      && Safe(hash, done.store) && Keeps(p.store, done.store)
      && (done.status.Running? ==> Verified(hash, done.store, run, entries))
  {
    if entries != [] {
      var n := |entries| - 1;
      OrderedPrefix(hash, run, entries, n);
      PublishAllKeeps(hash, run, p, entries[..n]);
      var before := PublishAll(hash, run, p, entries[..n]);
      if before.status.Running? {
        PublishKeeps(hash, run, before, entries, n, run.faults(n));
        PublishVerifies(hash, run, before, entries, n, run.faults(n));
        KeepsTransitive(p.store, before.store, PublishAll(hash, run, p, entries).store);
      }
    }
  }

  /** What a promotion can leave behind: it ended before, between or after its two uploads. */
  lemma {:induction false} MovePointerStores(run: Run, p: Progress, n: nat)
    requires p.status.Running? && IsVersion(run.version)
    ensures var prefix := StripSlashes(run.prefix);
      var moved := p.store[Key(prefix, LATEST, INSTALLER) := run.installer];
      var store := MovePointer(run, p, n).store;
      store == p.store || store == moved || store == moved[Key(prefix, LATEST, VERSION_FILE) := run.version + "\n"]
  {
  }

  lemma {:induction false} MovePointerKeeps(hash: Hash, run: Run, p: Progress, n: nat)
    requires p.status.Running? && Safe(hash, p.store)
    requires Released(hash, p.store, StripSlashes(run.prefix), run.version)
    ensures Safe(hash, MovePointer(run, p, n).store) && Keeps(p.store, MovePointer(run, p, n).store)
  {
    FixedNames();
    var prefix := StripSlashes(run.prefix);
    var moved := p.store[Key(prefix, LATEST, INSTALLER) := run.installer];
    MoveSafe(hash, p.store, prefix, INSTALLER, run.installer, run.version);
    ReleasedStays(hash, p.store, moved, prefix, run.version);
    MoveSafe(hash, moved, prefix, VERSION_FILE, run.version + "\n", run.version);
    KeepsTransitive(p.store, moved, moved[Key(prefix, LATEST, VERSION_FILE) := run.version + "\n"]);
    MovePointerStores(run, p, n);
  }

  /** A run that stored or verified its whole payload has released its version. */
  lemma {:induction false} VerifiedReleased(hash: Hash, run: Run, store: Store, entries: seq<Entry>)
    requires IsVersion(run.version) && Safe(hash, store)
    requires Payload(hash, run.dist, run.installer, run.version) == Some(entries)
    requires Verified(hash, store, run, entries)
    ensures Released(hash, store, StripSlashes(run.prefix), run.version)
  {
    ManifestEntry(hash, run, entries);
    assert entries[|entries| - 2].name == MANIFEST && entries[|entries| - 1].name == INSTALLER;
  }

  lemma {:induction false} InvokeKeeps(hash: Hash, store: Store, run: Run)
    requires Safe(hash, store)
    ensures Safe(hash, Invoke(hash, store, run).store) && Keeps(store, Invoke(hash, store, run).store)
  {
    if IsVersion(run.version) && Payload(hash, run.dist, run.installer, run.version).Some? {
      var entries := Payload(hash, run.dist, run.installer, run.version).value;
      var start := Progress(store, [], Running);
      PayloadOrdered(hash, run, entries);
      PublishAllKeeps(hash, run, start, entries);
      var done := PublishAll(hash, run, start, entries);
      if done.status.Running? && run.phase.Promote? {
        VerifiedReleased(hash, run, done.store, entries);
        MovePointerKeeps(hash, run, done, |entries|);
        KeepsTransitive(store, done.store, MovePointer(run, done, |entries|).store);
      }
    }
  }

  // ----- whole histories -----

  lemma {:induction false} HistoryStep(hash: Hash, runs: seq<Run>, run: Run)
    ensures History(hash, runs + [run]) == Invoke(hash, History(hash, runs), run).store
  {
    assert (runs + [run])[..|runs|] == runs;
  }

  /** In every reachable state of the mirror, each version whose manifest is stored is
      complete with the listed digests, and each pointer is absent or names a version
      whose whole payload is stored. */
  lemma {:induction false} HistorySafe(hash: Hash, runs: seq<Run>)
    ensures Safe(hash, History(hash, runs))
  {
    if runs != [] {
      HistorySafe(hash, runs[..|runs| - 1]);
      InvokeKeeps(hash, History(hash, runs[..|runs| - 1]), runs[|runs| - 1]);
    }
  }

  /** One more run keeps what every earlier state had under the version directories. */
  lemma {:induction false} KeepsOneMore(hash: Hash, before: Store, runs: seq<Run>, run: Run)
    requires Keeps(before, History(hash, runs))
    ensures Keeps(before, History(hash, runs + [run]))
  {
    HistorySafe(hash, runs);
    InvokeKeeps(hash, History(hash, runs), run);
    HistoryStep(hash, runs, run);
    KeepsTransitive(before, History(hash, runs), History(hash, runs + [run]));
  }

  /** A versioned object never changes once stored, whatever runs follow. */
  lemma {:induction false} VersionedObjectsImmutable(hash: Hash, runs: seq<Run>, later: seq<Run>)
    ensures Keeps(History(hash, runs), History(hash, runs + later))
    decreases |later|
  {
    if later == [] {
      assert runs + later == runs;
    } else {
      var n: nat :| |later| == n + 1;
      VersionedObjectsImmutable(hash, runs, later[..n]);
      KeepsOneMore(hash, History(hash, runs), runs + later[..n], later[n]);
      assert runs + later == runs + later[..n] + [later[n]];
    }
  }
}
