/** A retry finishes what interrupted runs left: it uploads exactly what is missing,
    and what it staged can then be promoted. */
module MirrorRetry {
  import opened Wrappers
  import opened Text
  import opened MirrorPayload
  import opened ReleaseMirror
  import opened MirrorHistory
  import opened MirrorPointer

  function KeyOf(run: Run, entry: Entry): string { Key(StripSlashes(run.prefix), run.version, entry.name) }

  ghost predicate FaultFree(run: Run) { forall n :: run.faults(n).Proceed? }

  ghost predicate DistinctEntries(entries: seq<Entry>) {
    forall i, j :: 0 <= i < j < |entries| ==> entries[i].name != entries[j].name
  }

  /** Every file of the payload that is stored is stored with these very bytes. */
  ghost predicate Consistent(store: Store, run: Run, entries: seq<Entry>) {
    forall j :: 0 <= j < |entries| && KeyOf(run, entries[j]) in store ==>
      store[KeyOf(run, entries[j])] == entries[j].content
  }

  ghost predicate FullyStaged(store: Store, run: Run, entries: seq<Entry>) {
    Consistent(store, run, entries) && forall j :: 0 <= j < |entries| ==> KeyOf(run, entries[j]) in store
  }

  /** The keys of the payload that a store does not hold, in payload order. */
  function Absent(store: Store, run: Run, entries: seq<Entry>): seq<string> {
    if entries == [] then [] else
      var n := |entries| - 1;
      Absent(store, run, entries[..n]) + if KeyOf(run, entries[n]) in store then [] else [KeyOf(run, entries[n])]
  }

  /** Two runs publish the same release from the same local files. */
  predicate SameRelease(run: Run, other: Run) {
    StripSlashes(run.prefix) == StripSlashes(other.prefix) && run.version == other.version
  }

  predicate SameFiles(run: Run, other: Run) { run.dist == other.dist && run.installer == other.installer }

  // ----- keys of one payload, and of different releases -----

  lemma {:induction false} ListedDistinct(hash: Hash, run: Run, entries: seq<Entry>, i: nat, j: nat)
    requires IsVersion(run.version)
    requires Payload(hash, run.dist, run.installer, run.version) == Some(entries)
    requires i < j < |entries| - 2
    ensures entries[i].name != entries[j].name
  {
    ListedEntry(hash, run, entries, i);
    ListedEntry(hash, run, entries, j);
    PayloadMeaning(hash, run.dist, run.installer, run.version);
    assert DistinctNames(SplitLines(run.dist[MANIFEST]));
  }

  lemma {:induction false} PayloadDistinct(hash: Hash, run: Run, entries: seq<Entry>)
    requires IsVersion(run.version)
    requires Payload(hash, run.dist, run.installer, run.version) == Some(entries)
    ensures DistinctEntries(entries)
  {
    FixedNames();
    ManifestEntry(hash, run, entries);
    forall i, j | 0 <= i < j < |entries| ensures entries[i].name != entries[j].name {
      if i < |entries| - 2 {
        ListedEntry(hash, run, entries, i);
        if j < |entries| - 2 {
          ListedDistinct(hash, run, entries, i, j);
        } else {
          assert entries[j].name == MANIFEST || entries[j].name == INSTALLER;
        }
      }
    }
  }

  lemma {:induction false} EntryKeys(run: Run, entries: seq<Entry>, i: nat, j: nat)
    requires IsVersion(run.version) && FreeNames(entries) && DistinctEntries(entries)
    requires i < |entries| && j < |entries| && i != j
    ensures KeyOf(run, entries[i]) != KeyOf(run, entries[j])
  {
    var p := StripSlashes(run.prefix);
    KeysApart(p, run.version, entries[i].name, p, run.version, entries[j].name);
    assert entries[if i < j then i else j].name != entries[if i < j then j else i].name;
  }

  // ----- a fault-free stage -----

  lemma {:induction false} StageOne(hash: Hash, run: Run, p: Progress, entries: seq<Entry>)
    requires p.status.Running? && run.phase.Stage? && entries != []
    requires FullyStaged(p.store, run, entries[..|entries| - 1])
    requires Consistent(p.store, run, entries)
    requires forall j :: 0 <= j < |entries| - 1 ==> KeyOf(run, entries[j]) != KeyOf(run, entries[|entries| - 1])
    ensures var n := |entries| - 1;
      var key := KeyOf(run, entries[n]);
      var done := Publish(hash, run, p, entries[n], Proceed);
      && done.status.Running? && FullyStaged(done.store, run, entries)
      && done.uploads == p.uploads + if key in p.store then [] else [key]
  {
    var n := |entries| - 1;
    var done := Publish(hash, run, p, entries[n], Proceed);
    forall j | 0 <= j < |entries|
      ensures KeyOf(run, entries[j]) in done.store && done.store[KeyOf(run, entries[j])] == entries[j].content
    {
      if j < n { assert KeyOf(run, entries[..n][j]) in p.store; }
    }
  }

  lemma {:induction false} PublishLast(hash: Hash, run: Run, p: Progress, entries: seq<Entry>, n: nat)
    requires |entries| == n + 1 && PublishAll(hash, run, p, entries[..n]).status.Running?
    ensures PublishAll(hash, run, p, entries)
      == Publish(hash, run, PublishAll(hash, run, p, entries[..n]), entries[n], run.faults(n))
  {
  }

  lemma {:induction false} PayloadPrefix(store: Store, run: Run, entries: seq<Entry>, n: nat)
    requires n <= |entries| && FreeNames(entries) && DistinctEntries(entries) && Consistent(store, run, entries)
    ensures FreeNames(entries[..n]) && DistinctEntries(entries[..n]) && Consistent(store, run, entries[..n])
  {
    assert forall j :: 0 <= j < n ==> entries[..n][j] == entries[j];
  }

  lemma {:induction false} StageNext(hash: Hash, run: Run, p: Progress, before: Progress, entries: seq<Entry>, n: nat)
    requires |entries| == n + 1 && run.phase.Stage? && IsVersion(run.version)
    requires FreeNames(entries) && DistinctEntries(entries) && Consistent(p.store, run, entries)
    requires before == PublishAll(hash, run, p, entries[..n]) && before.status.Running?
    requires FullyStaged(before.store, run, entries[..n])
    ensures var key := KeyOf(run, entries[n]);
      var done := Publish(hash, run, before, entries[n], Proceed);
      && done.status.Running? && FullyStaged(done.store, run, entries)
      && done.uploads == before.uploads + if key in p.store then [] else [key]
  {
    forall j | 0 <= j < n ensures KeyOf(run, entries[j]) != KeyOf(run, entries[n]) {
      EntryKeys(run, entries, j, n);
    }
    assert forall j :: 0 <= j < n ==> entries[..n][j] == entries[j];
    PublishAllLeaves(hash, run, p, entries[..n], KeyOf(run, entries[n]));
    forall j | 0 <= j < n && KeyOf(run, entries[j]) in before.store
      ensures before.store[KeyOf(run, entries[j])] == entries[j].content
    {
      assert KeyOf(run, entries[..n][j]) in before.store;
    }
    StageOne(hash, run, before, entries);
  }

  lemma {:induction false} StageCompletes(hash: Hash, run: Run, p: Progress, entries: seq<Entry>)
    requires p.status.Running? && run.phase.Stage? && FaultFree(run) && IsVersion(run.version)
    requires FreeNames(entries) && DistinctEntries(entries) && Consistent(p.store, run, entries)
    ensures var done := PublishAll(hash, run, p, entries);
      && done.status.Running?
      && FullyStaged(done.store, run, entries)
      && done.uploads == p.uploads + Absent(p.store, run, entries)
  {
    if entries != [] {
      var n: nat :| |entries| == n + 1;
      PayloadPrefix(p.store, run, entries, n);
      StageCompletes(hash, run, p, entries[..n]);
      var before := PublishAll(hash, run, p, entries[..n]);
      assert run.faults(n) == Proceed;
      PublishLast(hash, run, p, entries, n);
      StageNext(hash, run, p, before, entries, n);
    }
  }

  /** Publishing over a fully staged payload changes nothing. */
  lemma {:induction false} StagedUnchanged(hash: Hash, run: Run, p: Progress, entries: seq<Entry>)
    requires p.status.Running? && FaultFree(run) && FullyStaged(p.store, run, entries)
    ensures PublishAll(hash, run, p, entries) == p
  {
    if entries != [] {
      var n := |entries| - 1;
      assert forall j :: 0 <= j < n ==> entries[..n][j] == entries[j];
      StagedUnchanged(hash, run, p, entries[..n]);
    }
  }

  // ----- interrupted runs with the same files -----

  lemma {:induction false} PublishConsistent(hash: Hash, run: Run, p: Progress, entries: seq<Entry>, mine: seq<Entry>)
    requires IsVersion(run.version) && FreeNames(entries) && DistinctEntries(entries)
    requires Consistent(p.store, run, entries) && mine <= entries
    ensures Consistent(PublishAll(hash, run, p, mine).store, run, entries)
  {
    if mine != [] {
      var n := |mine| - 1;
      PublishConsistent(hash, run, p, entries, mine[..n]);
      var done := PublishAll(hash, run, p, mine);
      forall j | 0 <= j < |entries| && KeyOf(run, entries[j]) in done.store
        ensures done.store[KeyOf(run, entries[j])] == entries[j].content
      {
        if j != n { EntryKeys(run, entries, j, n); }
      }
    }
  }

  lemma {:induction false} MovePointerLeaves(run: Run, p: Progress, n: nat, key: string)
    requires p.status.Running? && IsVersion(run.version) && VersionedKey(key)
    ensures var done := MovePointer(run, p, n);
      && (key in done.store <==> key in p.store)
      && (key in p.store ==> done.store[key] == p.store[key])
  {
    FixedNames();
    var prefix := StripSlashes(run.prefix);
    var q, v, name :| IsVersion(v) && Free(name, '/') && key == Key(q, v, name);
    VersionText(v);
    KeysApart(q, v, name, prefix, LATEST, INSTALLER);
    KeysApart(q, v, name, prefix, LATEST, VERSION_FILE);
    MovePointerStores(run, p, n);
  }

  /** One more run, of the same files or of another release, keeps a payload consistent. */
  lemma {:induction false} InvokeConsistent(hash: Hash, store: Store, other: Run, run: Run, entries: seq<Entry>)
    requires IsVersion(run.version) && Payload(hash, run.dist, run.installer, run.version) == Some(entries)
    requires SameRelease(other, run) ==> SameFiles(other, run)
    requires Consistent(store, run, entries)
    ensures Consistent(Invoke(hash, store, other).store, run, entries)
  {
    if IsVersion(other.version) && Payload(hash, other.dist, other.installer, other.version).Some? {
      var theirs := Payload(hash, other.dist, other.installer, other.version).value;
      var start := Progress(store, [], Running);
      PayloadOrdered(hash, run, entries);
      PayloadOrdered(hash, other, theirs);
      var done := PublishAll(hash, other, start, theirs);
      if SameRelease(other, run) {
        PayloadDistinct(hash, run, entries);
        assert forall e :: KeyOf(other, e) == KeyOf(run, e);
        assert Consistent(store, other, entries);
        PublishConsistent(hash, other, start, entries, theirs);
      } else {
        OtherRelease(hash, store, other, theirs, run, entries);
      }
      assert Consistent(done.store, run, entries);
      if done.status.Running? && other.phase.Promote? {
        forall j | 0 <= j < |entries|
          ensures var k := KeyOf(run, entries[j]); var last := MovePointer(other, done, |theirs|);
            k in last.store ==> k in done.store && last.store[k] == done.store[k]
        {
          assert VersionedKey(KeyOf(run, entries[j]));
          MovePointerLeaves(other, done, |theirs|, KeyOf(run, entries[j]));
        }
      }
    }
  }

  lemma {:induction false} OtherRelease(hash: Hash, store: Store, other: Run, theirs: seq<Entry>, run: Run, entries: seq<Entry>)
    requires IsVersion(run.version) && IsVersion(other.version) && !SameRelease(other, run)
    requires FreeNames(entries) && FreeNames(theirs) && Consistent(store, run, entries)
    ensures Consistent(PublishAll(hash, other, Progress(store, [], Running), theirs).store, run, entries)
  {
    forall j | 0 <= j < |entries|
      ensures var k := KeyOf(run, entries[j]);
        var done := PublishAll(hash, other, Progress(store, [], Running), theirs);
        k in done.store ==> k in store && done.store[k] == store[k]
    {
      forall i | 0 <= i < |theirs| ensures KeyOf(other, theirs[i]) != KeyOf(run, entries[j]) {
        KeysApart(StripSlashes(run.prefix), run.version, entries[j].name,
                  StripSlashes(other.prefix), other.version, theirs[i].name);
      }
      PublishAllLeaves(hash, other, Progress(store, [], Running), theirs, KeyOf(run, entries[j]));
    }
  }

  lemma {:induction false} HistoryConsistent(hash: Hash, runs: seq<Run>, run: Run, entries: seq<Entry>)
    requires IsVersion(run.version) && Payload(hash, run.dist, run.installer, run.version) == Some(entries)
    requires forall j :: 0 <= j < |runs| && SameRelease(runs[j], run) ==> SameFiles(runs[j], run)
    ensures Consistent(History(hash, runs), run, entries)
  {
    if runs != [] {
      var n := |runs| - 1;
      assert forall j :: 0 <= j < n ==> runs[..n][j] == runs[j];
      HistoryConsistent(hash, runs[..n], run, entries);
      InvokeConsistent(hash, History(hash, runs[..n]), runs[n], run, entries);
    }
  }

  // ----- the retry -----

  /** After any interrupted history in which this release always came from the same local
      files, a fault-free stage ends fully staged and uploads exactly the absent names, in
      payload order. */
  lemma {:induction false} RetryCompletes(hash: Hash, runs: seq<Run>, run: Run, entries: seq<Entry>)
    requires run.phase.Stage? && FaultFree(run) && IsVersion(run.version)
    requires Payload(hash, run.dist, run.installer, run.version) == Some(entries)
    requires forall j :: 0 <= j < |runs| && SameRelease(runs[j], run) ==> SameFiles(runs[j], run)
    ensures var before := History(hash, runs);
      var done := Invoke(hash, before, run);
      && done.status == Staged
      && FullyStaged(done.store, run, entries)
      && done.uploads == Absent(before, run, entries)
  {
    PayloadOrdered(hash, run, entries);
    PayloadDistinct(hash, run, entries);
    HistoryConsistent(hash, runs, run, entries);
    StageCompletes(hash, run, Progress(History(hash, runs), [], Running), entries);
  }

  /** A fault-free promotion step ends as its guard decides. */
  lemma {:induction false} MovePointerOutcome(run: Run, p: Progress, n: nat)
    requires p.status.Running? && FaultFree(run) && IsVersion(run.version)
    ensures var prefix := StripSlashes(run.prefix);
      var done := MovePointer(run, p, n);
      match Guard(Previous(p.store, prefix), run.version)
      case Refuse => done == p.Stop(BadPointer)
      case Remain => done == p.(status := LatestIsNewer)
      case Advance =>
        && done.status == Promoted && PointsTo(done.store, prefix, run.version)
        && done.uploads == p.uploads + [Key(prefix, LATEST, INSTALLER), Key(prefix, LATEST, VERSION_FILE)]
  {
    assert run.faults(n).Proceed? && run.faults(n + 1).Proceed?;
  }

  /** The version a promotion compares with, or None if there is no pointer. */
  ghost function Current(store: Store, prefix: string): (v: Option<string>)
    ensures v.Some? ==> PointsTo(store, prefix, v.value)
  {
    if v :| PointsTo(store, prefix, v) then Some(v) else None
  }

  lemma {:induction false} SafePointerNames(hash: Hash, store: Store, prefix: string)
    requires PointerSafe(hash, store, prefix)
    ensures NoPointer(store, prefix) <==> Current(store, prefix).None?
  {
    if !NoPointer(store, prefix) {
      var v :| store[Key(prefix, LATEST, VERSION_FILE)] == v + "\n" && Released(hash, store, prefix, v);
      assert PointsTo(store, prefix, v);
    }
  }

  lemma {:induction false} ReadBackText(version: string)
    requires IsVersion(version)
    ensures ReadPointer(version + "\n") == ReadBack(version) != ""
  {
    ReadsBack(version);
  }

  /** After any history a pointer, if there is one, names a version. */
  lemma {:induction false} GuardReadsPointer(hash: Hash, runs: seq<Run>, prefix: string)
    ensures var store := History(hash, runs);
      match Current(store, prefix)
      case None => NoPointer(store, prefix) && Previous(store, prefix) == ""
      case Some(v) => Previous(store, prefix) == ReadBack(v) != ""
  {
    var store := History(hash, runs);
    HistorySafe(hash, runs);
    SafePointerNames(hash, store, prefix);
    if Current(store, prefix).Some? {
      ReadBackText(Current(store, prefix).value);
    }
  }

  /** How a fault-free promotion of `version` ends when the pointer file holds `current`. */
  ghost function Outcome(current: Option<string>, version: string): Status
    requires IsVersion(version)
  {
    if current.None? then Promoted
    else if !IsVersion(ReadBack(current.value)) then Failed(BadPointer)
    else if NumbersOf(ReadBack(current.value)).Exceeds(NumbersOf(version)) then LatestIsNewer
    else Promoted
  }

  /** A fully staged release can be promoted: whatever came before, a fault-free promotion
      uploads no versioned file, and either leaves the pointer at its own version, or changes
      nothing because of what the first 128 characters of the pointer say. */
  lemma {:induction false} PromotionCompletes(hash: Hash, runs: seq<Run>, run: Run, entries: seq<Entry>)
    requires run.phase.Promote? && FaultFree(run) && IsVersion(run.version)
    requires Payload(hash, run.dist, run.installer, run.version) == Some(entries)
    requires FullyStaged(History(hash, runs), run, entries)
    ensures var prefix := StripSlashes(run.prefix);
      var before := History(hash, runs);
      var done := Invoke(hash, before, run);
      && done.status == Outcome(Current(before, prefix), run.version)
      && if done.status == Promoted
         then PointsTo(done.store, prefix, run.version)
           && done.uploads == [Key(prefix, LATEST, INSTALLER), Key(prefix, LATEST, VERSION_FILE)]
         else done.store == before && done.uploads == []
  {
    var before := History(hash, runs);
    var start := Progress(before, [], Running);
    StagedUnchanged(hash, run, start, entries);
    GuardReadsPointer(hash, runs, StripSlashes(run.prefix));
    MovePointerOutcome(run, start, |entries|);
  }

  /** Over consistent files a fault-free promotion gets as far as the first absent one. */
  lemma {:induction false} PromotionStopsAt(hash: Hash, run: Run, p: Progress, entries: seq<Entry>)
    requires p.status.Running? && run.phase.Promote? && FaultFree(run) && Consistent(p.store, run, entries)
    ensures PublishAll(hash, run, p, entries)
      == if FullyStaged(p.store, run, entries) then p else p.Stop(NotStaged)
  {
    if entries != [] {
      var n: nat :| |entries| == n + 1;
      assert forall j :: 0 <= j < n ==> entries[..n][j] == entries[j];
      PromotionStopsAt(hash, run, p, entries[..n]);
      assert run.faults(n).Proceed?;
      assert FullyStaged(p.store, run, entries) <==>
        FullyStaged(p.store, run, entries[..n]) && KeyOf(run, entries[n]) in p.store;
    }
  }

  /** A release that is not fully staged cannot be promoted: the run fails and changes nothing. */
  lemma {:induction false} UnstagedPromotionFails(hash: Hash, store: Store, run: Run, entries: seq<Entry>)
    requires run.phase.Promote? && FaultFree(run) && IsVersion(run.version)
    requires Payload(hash, run.dist, run.installer, run.version) == Some(entries)
    requires Consistent(store, run, entries) && !FullyStaged(store, run, entries)
    ensures Invoke(hash, store, run) == Progress(store, [], Failed(NotStaged))
  {
    PromotionStopsAt(hash, run, Progress(store, [], Running), entries);
  }

  /** Promotion in the terms of versions: with a protected pointer that can be read, a fully
      staged release ends promoted unless the pointer is ahead of it. */
  lemma {:induction false} PromotedUnlessAhead(hash: Hash, runs: seq<Run>, run: Run, entries: seq<Entry>, current: string)
    requires run.phase.Promote? && FaultFree(run) && IsVersion(run.version)
    requires Payload(hash, run.dist, run.installer, run.version) == Some(entries)
    requires FullyStaged(History(hash, runs), run, entries)
    requires PointsTo(History(hash, runs), StripSlashes(run.prefix), current)
    requires Protected(current) && IsVersion(ReadBack(current))
    ensures Invoke(hash, History(hash, runs), run).status ==
      if NumbersOf(current).Exceeds(NumbersOf(run.version)) then LatestIsNewer else Promoted
  {
    var store, prefix := History(hash, runs), StripSlashes(run.prefix);
    PromotionCompletes(hash, runs, run, entries);
    PointsToOne(store, prefix, current, Current(store, prefix).value);
    ReadsBack(current);
    GuardProtects(current, run.version);
  }

  /** Stage, then promote, with no fault and the same files: the promotion fails exactly when
      the pointer is too long to be read as a version; otherwise, if the pointer was protected,
      it ends at the release or past it. */
  lemma {:induction false} StageThenPromote(hash: Hash, runs: seq<Run>, run: Run, entries: seq<Entry>)
    requires run.phase.Stage? && FaultFree(run) && IsVersion(run.version)
    requires Payload(hash, run.dist, run.installer, run.version) == Some(entries)
    requires forall j :: 0 <= j < |runs| && SameRelease(runs[j], run) ==> SameFiles(runs[j], run)
    ensures var prefix := StripSlashes(run.prefix);
      var staged := History(hash, runs + [run]);
      var current := Current(staged, prefix);
      var done := Invoke(hash, staged, run.(phase := Promote));
      && (done.status.Failed? <==> current.Some? && !IsVersion(ReadBack(current.value)))
      && (!done.status.Failed? && (current.Some? ==> Protected(current.value)) ==>
            exists v :: PointsTo(done.store, prefix, v) && AtLeast(v, run.version))
  {
    var all, promote, prefix := runs + [run], run.(phase := Promote), StripSlashes(run.prefix);
    RetryCompletes(hash, runs, run, entries);
    HistoryStep(hash, runs, run);
    var staged := History(hash, all);
    assert forall e :: KeyOf(promote, e) == KeyOf(run, e);
    assert FullyStaged(staged, promote, entries);
    PromotionCompletes(hash, all, promote, entries);
    var current, done := Current(staged, prefix), Invoke(hash, staged, promote);
    if done.status == Promoted {
      assert PointsTo(done.store, prefix, run.version) && AtLeast(run.version, run.version);
    } else if current.Some? && Protected(current.value) && done.status == LatestIsNewer {
      ReadsBack(current.value);
      GuardProtects(current.value, run.version);
      assert PointsTo(done.store, prefix, current.value) && AtLeast(current.value, run.version);
    }
  }

  // ----- the roll-back -----

  /** An unprotected pointer is moved back by a fault-free promotion of the older release that
      its own first 128 characters name. */
  lemma {:induction false} RollsBack(hash: Hash, runs: seq<Run>, run: Run, entries: seq<Entry>, current: string)
    requires PointsTo(History(hash, runs), StripSlashes(run.prefix), current) && !Protected(current)
    requires run.phase.Promote? && FaultFree(run) && run.version == current[..READ_LIMIT]
    requires Payload(hash, run.dist, run.installer, run.version) == Some(entries)
    requires FullyStaged(History(hash, runs), run, entries)
    ensures NumbersOf(current).Exceeds(NumbersOf(run.version))
    ensures PointsTo(History(hash, runs + [run]), StripSlashes(run.prefix), run.version)
  {
    var store, prefix := History(hash, runs), StripSlashes(run.prefix);
    GuardAdmitsCut(current);
    PromotionCompletes(hash, runs, run, entries);
    PointsToOne(store, prefix, current, Current(store, prefix).value);
    HistoryStep(hash, runs, run);
  }

  lemma {:induction false} StageLeavesPointer(hash: Hash, store: Store, run: Run, prefix: string)
    requires run.phase.Stage?
    ensures SamePointer(store, Invoke(hash, store, run).store, prefix)
  {
    if IsVersion(run.version) && Payload(hash, run.dist, run.installer, run.version).Some? {
      var entries := Payload(hash, run.dist, run.installer, run.version).value;
      PayloadOrdered(hash, run, entries);
      PublishLeavesPointer(hash, run, Progress(store, [], Running), entries, prefix);
    }
  }

  /** Staging a release and promoting it over a pointer that lets it pass. */
  lemma {:induction false} StagedAndPromoted(hash: Hash, runs: seq<Run>, run: Run, entries: seq<Entry>)
    requires run.phase.Stage? && FaultFree(run) && IsVersion(run.version)
    requires Payload(hash, run.dist, run.installer, run.version) == Some(entries)
    requires forall j :: 0 <= j < |runs| && SameRelease(runs[j], run) ==> SameFiles(runs[j], run)
    requires var prefix := StripSlashes(run.prefix);
      Outcome(Current(History(hash, runs), prefix), run.version) == Promoted
    ensures PointsTo(History(hash, runs + [run, run.(phase := Promote)]), StripSlashes(run.prefix), run.version)
  {
    var staging, promote, prefix := runs + [run], run.(phase := Promote), StripSlashes(run.prefix);
    var before, staged := History(hash, runs), History(hash, staging);
    RetryCompletes(hash, runs, run, entries);
    HistoryStep(hash, runs, run);
    assert forall e :: KeyOf(promote, e) == KeyOf(run, e);
    assert FullyStaged(staged, promote, entries);
    StageLeavesPointer(hash, before, run, prefix);
    GuardReadsPointer(hash, runs, prefix);
    GuardReadsPointer(hash, staging, prefix);
    assert Previous(staged, prefix) == Previous(before, prefix);
    PromotionCompletes(hash, staging, promote, entries);
    HistoryStep(hash, staging, promote);
    assert runs + [run, promote] == staging + [promote];
  }

  lemma {:induction false} CutIsPromoted(store: Store, prefix: string, current: string)
    requires PointsTo(store, prefix, current) && !Protected(current)
    ensures IsVersion(current[..READ_LIMIT])
    ensures Outcome(Current(store, prefix), current[..READ_LIMIT]) == Promoted
  {
    GuardAdmitsCut(current);
    PointsToOne(store, prefix, current, Current(store, prefix).value);
  }

  /** From the empty mirror, with no fault at all: release an unprotected version, then retry the
      older release that its first 128 characters name, and the pointer goes back. */
  lemma {:induction false} FaultFreeRollBack(hash: Hash, newer: Run, older: Run, files: seq<Entry>, others: seq<Entry>)
    requires newer.phase.Stage? && FaultFree(newer) && IsVersion(newer.version) && !Protected(newer.version)
    requires older.phase.Stage? && FaultFree(older) && older.version == newer.version[..READ_LIMIT]
    requires StripSlashes(older.prefix) == StripSlashes(newer.prefix)
    requires Payload(hash, newer.dist, newer.installer, newer.version) == Some(files)
    requires Payload(hash, older.dist, older.installer, older.version) == Some(others)
    ensures var first := [newer, newer.(phase := Promote)];
      var prefix := StripSlashes(newer.prefix);
      && PointsTo(History(hash, first), prefix, newer.version)
      && PointsTo(History(hash, first + [older, older.(phase := Promote)]), prefix, older.version)
      && NumbersOf(newer.version).Exceeds(NumbersOf(older.version))
  {
    var prefix := StripSlashes(newer.prefix);
    var first := [newer, newer.(phase := Promote)];
    GuardAdmitsCut(newer.version);
    assert Current(History(hash, []), prefix).None?;
    StagedAndPromoted(hash, [], newer, files);
    assert [] + first == first;
    CutIsPromoted(History(hash, first), prefix, newer.version);
    StagedAndPromoted(hash, first, older, others);
  }
}
