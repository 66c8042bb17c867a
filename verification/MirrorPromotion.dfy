/** Where the pointer comes from, and where a run may be cut off: a stored pointer was written by a
    promotion whose whole payload is still stored with the digests it checked, and every state
    within a run is the end of some run. */
module MirrorPromotion {
  import opened Wrappers
  import opened Text
  import opened MirrorPayload
  import opened ReleaseMirror
  import opened MirrorHistory
  import opened MirrorPointer

  // ----- the payload behind the pointer -----

  /** `run` promoted the version in the pointer file, and every file of its validated payload
      is stored with the digest that the run checked. */
  ghost predicate PromotedBy(hash: Hash, store: Store, prefix: string, run: Run) {
    && run.phase.Promote? && StripSlashes(run.prefix) == prefix && PointsTo(store, prefix, run.version)
    && var entries := Payload(hash, run.dist, run.installer, run.version);
       entries.Some? && Verified(hash, store, run, entries.value)
  }

  lemma {:induction false} VerifiedStays(hash: Hash, store: Store, store': Store, run: Run, entries: seq<Entry>)
    requires IsVersion(run.version) && FreeNames(entries)
    requires Keeps(store, store') && Verified(hash, store, run, entries)
    ensures Verified(hash, store', run, entries)
  {
    forall j | 0 <= j < |entries|
      ensures var key := Key(StripSlashes(run.prefix), run.version, entries[j].name);
        key in store' && hash(store'[key]) == hash(entries[j].content)
    {
      KeptKey(store, store', StripSlashes(run.prefix), run.version, entries[j].name);
    }
  }

  /** Only the promotion step writes the pointer. */
  lemma {:induction false} WriterMoves(hash: Hash, store: Store, run: Run, prefix: string, entries: seq<Entry>)
    requires Writes(hash, store, run, prefix)
    requires Payload(hash, run.dist, run.installer, run.version) == Some(entries) && IsVersion(run.version)
    requires FreeNames(entries)
    ensures var pointer, done := Key(prefix, LATEST, VERSION_FILE), PublishAll(hash, run, Progress(store, [], Running), entries);
      && done.status.Running? && run.phase.Promote? && pointer !in done.uploads
      && Invoke(hash, store, run) == MovePointer(run, done, |entries|)
      && pointer in MovePointer(run, done, |entries|).uploads
  {
    PublishLeavesPointer(hash, run, Progress(store, [], Running), entries, prefix);
  }

  /** A run that writes the pointer checked its whole payload before. */
  lemma {:induction false} WriterVerified(hash: Hash, store: Store, run: Run, prefix: string)
    requires Safe(hash, store) && Writes(hash, store, run, prefix)
    ensures PromotedBy(hash, Invoke(hash, store, run).store, prefix, run)
  {
    var entries := Payload(hash, run.dist, run.installer, run.version).value;
    var start := Progress(store, [], Running);
    var done := PublishAll(hash, run, start, entries);
    PayloadOrdered(hash, run, entries);
    WriterMoves(hash, store, run, prefix, entries);
    PublishAllKeeps(hash, run, start, entries);
    VerifiedReleased(hash, run, done.store, entries);
    MovePointerEffect(run, done, |entries|, prefix);
    MovePointerKeeps(hash, run, done, |entries|);
    VerifiedStays(hash, done.store, MovePointer(run, done, |entries|).store, run, entries);
  }

  lemma {:induction false} PromotedStays(hash: Hash, store: Store, later: Run, prefix: string, run: Run)
    requires Safe(hash, store) && PromotedBy(hash, store, prefix, run) && !Writes(hash, store, later, prefix)
    ensures PromotedBy(hash, Invoke(hash, store, later).store, prefix, run)
  {
    var entries := Payload(hash, run.dist, run.installer, run.version).value;
    var next := Invoke(hash, store, later).store;
    PointerStep(hash, store, later, prefix);
    InvokeKeeps(hash, store, later);
    PayloadOrdered(hash, run, entries);
    VerifiedStays(hash, store, next, run, entries);
  }

  /** In every reachable state, a stored pointer was written by one of the promotions, and the whole
      payload of that run is stored with the digests checked by it. */
  lemma {:induction false} PointerPayloadStored(hash: Hash, runs: seq<Run>, prefix: string) returns (k: nat)
    requires !NoPointer(History(hash, runs), prefix)
    ensures k < |runs| && Writes(hash, History(hash, runs[..k]), runs[k], prefix)
    ensures PromotedBy(hash, History(hash, runs), prefix, runs[k])
  {
    var n: nat :| |runs| == n + 1;
    var init := runs[..n];
    HistorySafe(hash, init);
    if Writes(hash, History(hash, init), runs[n], prefix) {
      k := n;
      WriterVerified(hash, History(hash, init), runs[n], prefix);
    } else {
      PointerStep(hash, History(hash, init), runs[n], prefix);
      k := PointerPayloadStored(hash, init, prefix);
      assert init[..k] == runs[..k];
      PromotedStays(hash, History(hash, init), runs[n], prefix, init[k]);
    }
  }

  // ----- a promotion stages nothing -----

  /** The upload loop of a promotion only checks: it stores nothing, and gets through it only if
      every file was there before with the local digest. */
  lemma {:induction false} PromotionOnlyChecks(hash: Hash, run: Run, p: Progress, entries: seq<Entry>)
    requires run.phase.Promote? && p.status.Running?
    ensures var done := PublishAll(hash, run, p, entries);
      && done.store == p.store && done.uploads == p.uploads
      && (done.status.Running? ==> Verified(hash, p.store, run, entries))
  {
    if entries != [] {
      var n: nat :| |entries| == n + 1;
      PromotionOnlyChecks(hash, run, p, entries[..n]);
      assert forall j :: 0 <= j < n ==> entries[..n][j] == entries[j];
    }
  }

  /** A promotion uploads no versioned file, and nothing at all unless every file of its payload was
      stored before with the local digest. */
  lemma {:induction false} PromotionNeedsStaging(hash: Hash, store: Store, run: Run)
    requires run.phase.Promote?
    ensures var done := Invoke(hash, store, run);
      && (forall key :: key in done.uploads ==> !VersionedKey(key))
      && (done.uploads != [] || done.status == LatestIsNewer || done.status == Promoted ==>
            && IsVersion(run.version)
            && var entries := Payload(hash, run.dist, run.installer, run.version);
               entries.Some? && Verified(hash, store, run, entries.value))
      && (done.uploads == [] ==> done.store == store)
  {
    if IsVersion(run.version) && Payload(hash, run.dist, run.installer, run.version).Some? {
      var entries := Payload(hash, run.dist, run.installer, run.version).value;
      var start := Progress(store, [], Running);
      PromotionOnlyChecks(hash, run, start, entries);
      PublishAllStatus(hash, run, start, entries);
      LatestUploads(run, PublishAll(hash, run, start, entries), |entries|);
      LatestNotVersioned(StripSlashes(run.prefix));
    }
  }

  lemma {:induction false} LatestUploads(run: Run, p: Progress, n: nat)
    requires IsVersion(run.version) && p.uploads == []
    ensures var done := MovePointer(run, p, n);
      var prefix := StripSlashes(run.prefix);
      && (forall key :: key in done.uploads ==> key == Key(prefix, LATEST, INSTALLER) || key == Key(prefix, LATEST, VERSION_FILE))
      && (done.uploads == [] ==> done.store == p.store)
  {
  }

  lemma {:induction false} LatestNotVersioned(prefix: string)
    ensures !VersionedKey(Key(prefix, LATEST, INSTALLER)) && !VersionedKey(Key(prefix, LATEST, VERSION_FILE))
  {
    FixedNames();
    forall name | name == INSTALLER || name == VERSION_FILE ensures !VersionedKey(Key(prefix, LATEST, name)) {
      if VersionedKey(Key(prefix, LATEST, name)) {
        var p, v, n :| IsVersion(v) && Free(n, '/') && Key(prefix, LATEST, name) == Key(p, v, n);
        KeysApart(prefix, LATEST, name, p, v, n);
        VersionText(v);
      }
    }
  }

  // ----- runs cut off anywhere -----

  /** The run with step `k` lost. */
  function CutAt(run: Run, k: nat): Run { run.(faults := (n: nat) => if n == k then Lost else run.faults(n)) }

  /** The store between two steps of a run: after its first `k` files, or between the two uploads
      of a promotion. */
  ghost predicate Passes(hash: Hash, store: Store, run: Run, entries: seq<Entry>, k: nat, state: Store)
    requires IsVersion(run.version)
  {
    var start := Progress(store, [], Running);
    if k <= |entries| then state == PublishAll(hash, run, start, entries[..k]).store else
      var done := PublishAll(hash, run, start, entries);
      var prefix := StripSlashes(run.prefix);
      && k == |entries| + 1 && done.status.Running? && run.phase.Promote?
      && !run.faults(|entries|).Lost? && Guard(Previous(done.store, prefix), run.version).Advance?
      && state == done.store[Key(prefix, LATEST, INSTALLER) := run.installer]
  }

  lemma {:induction false} SameUntil(hash: Hash, run: Run, k: nat, p: Progress, entries: seq<Entry>)
    requires |entries| <= k
    ensures PublishAll(hash, CutAt(run, k), p, entries) == PublishAll(hash, run, p, entries)
  {
    if entries != [] {
      SameUntil(hash, run, k, p, entries[..|entries| - 1]);
    }
  }

  lemma {:induction false} CutWithinFiles(hash: Hash, run: Run, k: nat, p: Progress, entries: seq<Entry>)
    requires k < |entries|
    ensures var cut := PublishAll(hash, CutAt(run, k), p, entries);
      cut.store == PublishAll(hash, run, p, entries[..k]).store && !cut.status.Running?
  {
    var cut := CutAt(run, k);
    SameUntil(hash, run, k, p, entries[..k]);
    assert entries[..k + 1][..k] == entries[..k];
    StoppedForGood(hash, cut, p, entries, k + 1);
  }

  lemma {:induction false} CutAfterFiles(run: Run, n: nat, p: Progress)
    requires IsVersion(run.version)
    ensures MovePointer(CutAt(run, n), p, n).store == p.store
  {
  }

  lemma {:induction false} CutBetweenUploads(run: Run, n: nat, p: Progress)
    requires IsVersion(run.version) && p.status.Running? && !run.faults(n).Lost?
    requires Guard(Previous(p.store, StripSlashes(run.prefix)), run.version).Advance?
    ensures MovePointer(CutAt(run, n + 1), p, n).store
      == p.store[Key(StripSlashes(run.prefix), LATEST, INSTALLER) := run.installer]
  {
  }

  lemma {:induction false} InvokeStore(hash: Hash, store: Store, run: Run, entries: seq<Entry>)
    requires IsVersion(run.version) && Payload(hash, run.dist, run.installer, run.version) == Some(entries)
    ensures var done := PublishAll(hash, run, Progress(store, [], Running), entries);
      Invoke(hash, store, run).store ==
        if done.status.Running? && run.phase.Promote? then MovePointer(run, done, |entries|).store else done.store
  {
  }

  lemma {:induction false} EndsAfterFiles(hash: Hash, store: Store, run: Run, entries: seq<Entry>, k: nat, state: Store)
    requires IsVersion(run.version) && Payload(hash, run.dist, run.installer, run.version) == Some(entries)
    requires k <= |entries| && Passes(hash, store, run, entries, k, state)
    ensures Invoke(hash, store, CutAt(run, k)).store == state
  {
    var start := Progress(store, [], Running);
    InvokeStore(hash, store, CutAt(run, k), entries);
    if k < |entries| {
      CutWithinFiles(hash, run, k, start, entries);
    } else {
      assert entries[..|entries|] == entries;
      SameUntil(hash, run, k, start, entries);
      CutAfterFiles(run, k, PublishAll(hash, run, start, entries));
    }
  }

  lemma {:induction false} EndsBetweenUploads(hash: Hash, store: Store, run: Run, entries: seq<Entry>, state: Store)
    requires IsVersion(run.version) && Payload(hash, run.dist, run.installer, run.version) == Some(entries)
    requires Passes(hash, store, run, entries, |entries| + 1, state)
    ensures Invoke(hash, store, CutAt(run, |entries| + 1)).store == state
  {
    var k, start := |entries| + 1, Progress(store, [], Running);
    InvokeStore(hash, store, CutAt(run, k), entries);
    SameUntil(hash, run, k, start, entries);
    CutBetweenUploads(run, |entries|, PublishAll(hash, run, start, entries));
  }

  /** Every state within a run is what the same run leaves when the next step is lost. */
  lemma {:induction false} EveryStateIsAnEnd(hash: Hash, store: Store, run: Run, entries: seq<Entry>, k: nat, state: Store)
    requires IsVersion(run.version) && Payload(hash, run.dist, run.installer, run.version) == Some(entries)
    requires Passes(hash, store, run, entries, k, state)
    ensures Invoke(hash, store, CutAt(run, k)).store == state
  {
    if k <= |entries| {
      EndsAfterFiles(hash, store, run, entries, k, state);
    } else {
      EndsBetweenUploads(hash, store, run, entries, state);
    }
  }

  /** So the mirror is safe not only between runs but at every step within them. */
  lemma {:induction false} SafeThroughout(hash: Hash, runs: seq<Run>, run: Run, entries: seq<Entry>, k: nat, state: Store)
    requires IsVersion(run.version) && Payload(hash, run.dist, run.installer, run.version) == Some(entries)
    requires Passes(hash, History(hash, runs), run, entries, k, state)
    ensures History(hash, runs + [CutAt(run, k)]) == state && Safe(hash, state)
  {
    EveryStateIsAnEnd(hash, History(hash, runs), run, entries, k, state);
    HistoryStep(hash, runs, CutAt(run, k));
    HistorySafe(hash, runs + [CutAt(run, k)]);
  }

  // ----- how a run ends -----

  lemma {:induction false} LoopProceeded(hash: Hash, run: Run, p: Progress, entries: seq<Entry>)
    requires p.status.Running? && PublishAll(hash, run, p, entries).status.Running?
    ensures forall n :: 0 <= n < |entries| ==> run.faults(n).Proceed?
  {
    if entries != [] {
      var n: nat :| |entries| == n + 1;
      LoopProceeded(hash, run, p, entries[..n]);
    }
  }

  lemma {:induction false} PromotionProceeded(run: Run, p: Progress, n: nat)
    requires p.status.Running? && IsVersion(run.version) && !MovePointer(run, p, n).status.Failed?
    ensures var status := MovePointer(run, p, n).status;
      && (status == Promoted || status == LatestIsNewer) && !run.faults(n).Lost?
      && (status == Promoted ==> run.faults(n).Proceed? && run.faults(n + 1).Proceed?)
  {
  }

  lemma {:induction false} InvokeStatus(hash: Hash, store: Store, run: Run, entries: seq<Entry>)
    requires IsVersion(run.version) && Payload(hash, run.dist, run.installer, run.version) == Some(entries)
    ensures var done := PublishAll(hash, run, Progress(store, [], Running), entries);
      Invoke(hash, store, run).status ==
        if !done.status.Running? then done.status
        else if run.phase.Stage? then Staged else MovePointer(run, done, |entries|).status
  {
  }

  /** A run that ends well had a directory it accepted and no fault at any step it took. */
  lemma {:induction false} CompletedRunProceeded(hash: Hash, store: Store, run: Run, entries: seq<Entry>)
    requires IsVersion(run.version) && Payload(hash, run.dist, run.installer, run.version) == Some(entries)
    requires !Invoke(hash, store, run).status.Failed?
    ensures var n, status := |entries|, Invoke(hash, store, run).status;
      && (forall i :: 0 <= i < n ==> run.faults(i).Proceed?)
      && (status == Staged <==> run.phase.Stage?)
      && (run.phase.Promote? ==> !run.faults(n).Lost?)
      && (status == Promoted ==> run.faults(n).Proceed? && run.faults(n + 1).Proceed?)
  {
    var start := Progress(store, [], Running);
    var done := PublishAll(hash, run, start, entries);
    InvokeStatus(hash, store, run, entries);
    PublishAllStatus(hash, run, start, entries);
    LoopProceeded(hash, run, start, entries);
    if run.phase.Promote? {
      PromotionProceeded(run, done, |entries|);
    }
  }

  /** A bad version or a bad directory is refused as such before anything is stored. */
  lemma {:induction false} BadInputRefused(hash: Hash, store: Store, run: Run)
    ensures !IsVersion(run.version) ==> Invoke(hash, store, run) == Progress(store, [], Failed(BadVersion))
    ensures IsVersion(run.version) && !Acceptable(hash, run.dist, run.version) ==>
      Invoke(hash, store, run) == Progress(store, [], Failed(BadPayload))
  {
    if IsVersion(run.version) {
      PayloadMeaning(hash, run.dist, run.installer, run.version);
    }
  }

  /** A stored file with another digest stops the run as an attempt to replace it, and stays. */
  lemma {:induction false} ReplacementRefused(hash: Hash, store: Store, run: Run, entries: seq<Entry>, n: nat)
    requires IsVersion(run.version) && Payload(hash, run.dist, run.installer, run.version) == Some(entries)
    requires n < |entries| && !run.faults(n).Lost?
    requires var before := PublishAll(hash, run, Progress(store, [], Running), entries[..n]);
      var key := Key(StripSlashes(run.prefix), run.version, entries[n].name);
      before.status.Running? && key in before.store && hash(before.store[key]) != hash(entries[n].content)
    ensures var before := PublishAll(hash, run, Progress(store, [], Running), entries[..n]);
      Invoke(hash, store, run) == before.Stop(Immutable)
  {
    assert entries[..n + 1][..n] == entries[..n];
    StoppedForGood(hash, run, Progress(store, [], Running), entries, n + 1);
  }
}
