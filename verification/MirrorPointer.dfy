/** The version pointer only moves forward: over any history, and exactly as far as the
    128 bytes the publisher reads back allow. */
module MirrorPointer {
  import opened Text
  import opened MirrorPayload
  import opened ReleaseMirror
  import opened MirrorHistory

  const READ_LIMIT := 128

  // ----- reading a pointer back -----

  lemma {:induction false} StripVersionText(text: string)
    requires text != "" && !IsSpace(text[0]) && !IsSpace(text[|text| - 1])
    ensures Strip(text) == text && Strip(text + "\n") == text
  {
    var line := text + "\n";
    assert line[0] == text[0] && line[|line| - 1] == '\n';
    assert line[..|line| - 1] == text;
  }

  function ReadBack(version: string): string {
    if |version| <= READ_LIMIT then version else version[..READ_LIMIT]
  }

  lemma {:induction false} VersionNotSpace(version: string, i: nat)
    requires IsVersion(version) && i < |version|
    ensures !IsSpace(version[i])
  {
    VersionText(version);
    assert version[i] == 'v' || version[i] == '.' || IsDigit(version[i]);
  }

  /** A pointer file reads back as the first 128 characters of its version. */
  lemma {:induction false} ReadsBack(version: string)
    requires IsVersion(version)
    ensures ReadPointer(version + "\n") == ReadBack(version)
  {
    VersionNotSpace(version, 0);
    if |version| < READ_LIMIT {
      VersionNotSpace(version, |version| - 1);
      StripVersionText(version);
    } else {
      var cut := version[..READ_LIMIT];
      assert (version + "\n")[..READ_LIMIT] == cut;
      assert |version| == READ_LIMIT ==> cut == version;
      VersionNotSpace(version, READ_LIMIT - 1);
      StripVersionText(cut);
    }
  }

  lemma {:induction false} JoinThree(parts: seq<string>, c: char)
    requires |parts| == 3
    ensures Join(parts, c) == parts[0] + [c] + (parts[1] + [c] + parts[2])
  {
    assert parts[1..][1..] == [parts[2]];
    assert Join(parts[1..], c) == parts[1] + [c] + Join(parts[1..][1..], c);
    assert Join([parts[2]], c) == parts[2];
  }

  /** A version cut short, if still a version, differs in its patch number alone,
      and is smaller unless that number is zero. */
  lemma {:induction false} CutVersion(version: string, k: nat)
    requires IsVersion(version) && 1 <= k < |version| && IsVersion(version[..k])
    ensures var n, m := NumbersOf(version), NumbersOf(version[..k]);
      && m.major == n.major && m.minor == n.minor && m.patch <= n.patch
      && (m.patch == n.patch <==> n.patch == 0)
  {
    var s := version[1..];
    assert version[..k][1..] == s[..k - 1];
    SplitPrefix(s, k - 1, '.');
    JoinSplit(s, '.');
    JoinSplit(s[..k - 1], '.');
    var p, q := Split(s[..k - 1], '.'), Split(s, '.');
    JoinThree(q, '.');
    JoinThree(p, '.');
    assert p[2] == q[2][..|p[2]|];
    ShorterNumeral(q[2], |p[2]|);
  }

  /** The whole text is read, or the part that is read is no version at all, or the patch
      number is zero. */
  predicate Protected(version: string)
    requires IsVersion(version)
  {
    |version| <= READ_LIMIT || !IsVersion(version[..READ_LIMIT]) || NumbersOf(version).patch == 0
  }

  /** What the guard says about a protected pointer is true of its version. */
  lemma {:induction false} GuardProtects(current: string, version: string)
    requires IsVersion(current) && IsVersion(version) && Protected(current)
    ensures var decision := Guard(ReadPointer(current + "\n"), version);
      && (decision.Advance? ==> !NumbersOf(current).Exceeds(NumbersOf(version)))
      && (decision.Remain? ==> NumbersOf(current).Exceeds(NumbersOf(version)))
      && (decision.Refuse? <==> !IsVersion(ReadBack(current)))
  {
    ReadsBack(current);
    VersionText(current);
    if |current| > READ_LIMIT && IsVersion(current[..READ_LIMIT]) {
      CutVersion(current, READ_LIMIT);
    }
  }

  /** An unprotected pointer lets its own first 128 characters through, an older version. */
  lemma {:induction false} GuardAdmitsCut(current: string)
    requires IsVersion(current) && !Protected(current)
    ensures var cut := current[..READ_LIMIT];
      && IsVersion(cut) && NumbersOf(current).Exceeds(NumbersOf(cut))
      && Guard(ReadPointer(current + "\n"), cut).Advance?
  {
    ReadsBack(current);
    CutVersion(current, READ_LIMIT);
  }

  /** A pointer to `current` protects against every older version exactly when the
      whole text was read, or the part that was read is no version at all, or the
      truncated patch number is zero. */
  lemma {:induction false} GuardExact(current: string)
    requires IsVersion(current)
    ensures (forall older :: IsVersion(older) && NumbersOf(current).Exceeds(NumbersOf(older)) ==>
               !Guard(ReadPointer(current + "\n"), older).Advance?)
       <==> (|current| <= READ_LIMIT || !IsVersion(current[..READ_LIMIT]) || NumbersOf(current).patch == 0)
  {
    if Protected(current) {
      forall older | IsVersion(older) && NumbersOf(current).Exceeds(NumbersOf(older))
        ensures !Guard(ReadPointer(current + "\n"), older).Advance?
      {
        GuardProtects(current, older);
      }
    } else {
      GuardAdmitsCut(current);
    }
  }

  function Repeat(c: char, n: nat): (s: string)
    ensures |s| == n && forall i :: 0 <= i < n ==> s[i] == c
  {
    if n == 0 then "" else [c] + Repeat(c, n - 1)
  }

  lemma {:induction false} SplitStep(a: string, b: string, c: char)
    requires Free(a, c)
    ensures Split(a + [c] + b, c) == [a] + Split(b, c)
    ensures Split(a, c) == [a]
  {
    if a == "" {
      assert a + [c] + b == [c] + b;
      assert ([c] + b)[1..] == b;
    } else {
      SplitStep(a[1..], b, c);
      assert (a + [c] + b)[1..] == a[1..] + [c] + b;
      assert [a[0]] + a[1..] == a;
      assert ([a[1..]] + Split(b, c))[1..] == Split(b, c);
    }
  }

  /** There are unprotected versions: one of 135 characters, with the older version that its
      own first 128 characters spell. */
  lemma {:induction false} LongVersionUnprotected() returns (current: string, older: string)
    ensures IsVersion(current) && IsVersion(older) && |current| == 135
    ensures !Protected(current) && older == current[..READ_LIMIT]
    ensures NumbersOf(current).Exceeds(NumbersOf(older))
    ensures Guard(ReadPointer(current + "\n"), older).Advance?
  {
    var ones := Repeat('1', 130);
    var patch := ones[..123];
    current := "v" + ("1" + ['.'] + ("0" + ['.'] + ones));
    older := "v" + ("1" + ['.'] + ("0" + ['.'] + patch));
    ThreeNumbers("1", "0", ones);
    ThreeNumbers("1", "0", patch);
    assert older == current[..READ_LIMIT];
    CutVersion(current, READ_LIMIT);
    assert Value(ones) != 0;
    GuardAdmitsCut(current);
  }

  lemma {:induction false} ThreeNumbers(a: string, b: string, c: string)
    requires a != "" && b != "" && c != "" && AllDigits(a) && AllDigits(b) && AllDigits(c)
    ensures var version := "v" + (a + ['.'] + (b + ['.'] + c));
      IsVersion(version) && NumbersOf(version) == Numbers(Value(a), Value(b), Value(c))
  {
    var tail := b + ['.'] + c;
    var s := a + ['.'] + tail;
    SplitStep(a, tail, '.');
    SplitStep(b, c, '.');
    SplitStep(c, "", '.');
    assert Split(s, '.') == [a, b, c] by {
      assert Split(tail, '.') == [b] + [c];
    }
    assert ("v" + s)[1..] == s;
  }

  // ----- what one run does to a key -----

  /** Publishing files leaves every other key alone. */
  lemma {:induction false} PublishAllLeaves(hash: Hash, run: Run, p: Progress, entries: seq<Entry>, key: string)
    requires forall j :: 0 <= j < |entries| ==> Key(StripSlashes(run.prefix), run.version, entries[j].name) != key
    ensures var done := PublishAll(hash, run, p, entries);
      && (key in done.store <==> key in p.store)
      && (key in p.store ==> done.store[key] == p.store[key])
      && (key in done.uploads <==> key in p.uploads)
  {
    if entries != [] {
      PublishAllLeaves(hash, run, p, entries[..|entries| - 1], key);
    }
  }

  ghost predicate PointsTo(store: Store, prefix: string, version: string) {
    && IsVersion(version)
    && Key(prefix, LATEST, VERSION_FILE) in store
    && store[Key(prefix, LATEST, VERSION_FILE)] == version + "\n"
  }

  ghost predicate NoPointer(store: Store, prefix: string) { Key(prefix, LATEST, VERSION_FILE) !in store }

  lemma {:induction false} PointsToOne(store: Store, prefix: string, v: string, w: string)
    requires PointsTo(store, prefix, v) && PointsTo(store, prefix, w)
    ensures v == w
  {
    assert v == (v + "\n")[..|v|] && w == (w + "\n")[..|w|];
  }

  /** The pointer upload of `run` took effect. */
  ghost predicate Writes(hash: Hash, store: Store, run: Run, prefix: string) {
    Key(prefix, LATEST, VERSION_FILE) in Invoke(hash, store, run).uploads
  }

  ghost predicate Completes(hash: Hash, store: Store, run: Run, prefix: string) {
    && StripSlashes(run.prefix) == prefix
    && (Invoke(hash, store, run).status == Promoted || Invoke(hash, store, run).status == LatestIsNewer)
  }

  lemma {:induction false} PublishLeavesPointer(hash: Hash, run: Run, p: Progress, entries: seq<Entry>, prefix: string)
    requires IsVersion(run.version) && FreeNames(entries)
    ensures var pointer := Key(prefix, LATEST, VERSION_FILE);
      var done := PublishAll(hash, run, p, entries);
      && (pointer in done.store <==> pointer in p.store)
      && (pointer in p.store ==> done.store[pointer] == p.store[pointer])
      && (pointer in done.uploads <==> pointer in p.uploads)
  {
    FixedNames();
    VersionText(run.version);
    forall j | 0 <= j < |entries|
      ensures Key(StripSlashes(run.prefix), run.version, entries[j].name) != Key(prefix, LATEST, VERSION_FILE)
    {
      KeysApart(StripSlashes(run.prefix), run.version, entries[j].name, prefix, LATEST, VERSION_FILE);
    }
    PublishAllLeaves(hash, run, p, entries, Key(prefix, LATEST, VERSION_FILE));
  }

  lemma {:induction false} NotInstallerKey(prefix: string, prefix': string)
    ensures Key(prefix, LATEST, VERSION_FILE) != Key(prefix', LATEST, INSTALLER)
    ensures Key(prefix, LATEST, VERSION_FILE) == Key(prefix', LATEST, VERSION_FILE) ==> prefix == prefix'
  {
    FixedNames();
    KeysApart(prefix, LATEST, VERSION_FILE, prefix', LATEST, INSTALLER);
    KeysApart(prefix, LATEST, VERSION_FILE, prefix', LATEST, VERSION_FILE);
    assert VERSION_FILE[0] != INSTALLER[0];
  }

  /** The promotion step, seen from one pointer: written, or left as it was. */
  lemma {:induction false} MovePointerEffect(run: Run, p: Progress, n: nat, prefix: string)
    requires p.status.Running? && IsVersion(run.version)
    requires Key(prefix, LATEST, VERSION_FILE) !in p.uploads
    ensures var key := Key(prefix, LATEST, VERSION_FILE);
      var mine := StripSlashes(run.prefix) == prefix;
      var done := MovePointer(run, p, n);
      var decision := Guard(if key in p.store then ReadPointer(p.store[key]) else "", run.version);
      && (key in done.uploads ==> mine && decision.Advance? && PointsTo(done.store, prefix, run.version))
      && (key !in done.uploads ==>
            && (key in done.store <==> key in p.store)
            && (key in p.store ==> done.store[key] == p.store[key]))
      && (mine && done.status == Promoted ==> key in done.uploads)
      && (mine && done.status == LatestIsNewer ==> decision.Remain? && key !in done.uploads)
  {
    NotInstallerKey(prefix, StripSlashes(run.prefix));
  }

  /** What a promotion would read from the version file. */
  ghost function Previous(store: Store, prefix: string): string {
    var key := Key(prefix, LATEST, VERSION_FILE);
    if key in store then ReadPointer(store[key]) else ""
  }

  ghost predicate SamePointer(store: Store, next: Store, prefix: string) {
    var key := Key(prefix, LATEST, VERSION_FILE);
    && (key in next <==> key in store)
    && (key in store ==> next[key] == store[key])
  }

  /** One run and one pointer: it is unchanged, or this run wrote its version there. */
  lemma {:induction false} PointerStep(hash: Hash, store: Store, run: Run, prefix: string)
    ensures var next := Invoke(hash, store, run).store;
      && (Writes(hash, store, run, prefix) ==>
            PointsTo(next, prefix, run.version) && Guard(Previous(store, prefix), run.version).Advance?)
      && (!Writes(hash, store, run, prefix) ==> SamePointer(store, next, prefix))
      && (Completes(hash, store, run, prefix) && !Writes(hash, store, run, prefix) ==>
            IsVersion(run.version) && Guard(Previous(store, prefix), run.version).Remain?)
  {
    if IsVersion(run.version) && Payload(hash, run.dist, run.installer, run.version).Some? {
      var entries := Payload(hash, run.dist, run.installer, run.version).value;
      var start := Progress(store, [], Running);
      PayloadOrdered(hash, run, entries);
      PublishLeavesPointer(hash, run, start, entries, prefix);
      var done := PublishAll(hash, run, start, entries);
      PublishAllStatus(hash, run, start, entries);
      if done.status.Running? && run.phase.Promote? {
        MovePointerEffect(run, done, |entries|, prefix);
      }
    }
  }

  lemma {:induction false} PublishAllStatus(hash: Hash, run: Run, p: Progress, entries: seq<Entry>)
    requires p.status.Running?
    ensures PublishAll(hash, run, p, entries).status.Running? || PublishAll(hash, run, p, entries).status.Failed?
  {
    if entries != [] {
      PublishAllStatus(hash, run, p, entries[..|entries| - 1]);
    }
  }

  // ----- whole histories -----

  ghost predicate AllProtected(runs: seq<Run>) {
    forall j :: 0 <= j < |runs| && IsVersion(runs[j].version) ==> Protected(runs[j].version)
  }

  /** What one run did to one pointer. */
  datatype Mark = Mark(version: string, wrote: bool, completed: bool)

  /** What each run of a history did to the pointer under `prefix`. */
  ghost function Marks(hash: Hash, runs: seq<Run>, prefix: string): (marks: seq<Mark>)
    ensures |marks| == |runs|
  {
    if runs == [] then [] else
      var init, run := runs[..|runs| - 1], runs[|runs| - 1];
      var store := History(hash, init);
      Marks(hash, init, prefix)
        + [Mark(run.version, Writes(hash, store, run, prefix), Completes(hash, store, run, prefix))]
  }

  ghost predicate AtLeast(version: string, other: string) {
    IsVersion(version) && IsVersion(other) && !NumbersOf(other).Exceeds(NumbersOf(version))
  }

  /** Run `k` wrote the pointer, and no version written or completed exceeds its own. */
  ghost predicate Leads(store: Store, marks: seq<Mark>, prefix: string, k: nat)
    requires k < |marks|
  {
    && marks[k].wrote
    && PointsTo(store, prefix, marks[k].version)
    && forall j :: 0 <= j < |marks| && (marks[j].wrote || marks[j].completed) ==>
         AtLeast(marks[k].version, marks[j].version)
  }

  /** The pointer is the largest version among the pointer uploads that took effect, and
      at least every version whose promotion completed. */
  ghost predicate Largest(store: Store, marks: seq<Mark>, prefix: string) {
    if NoPointer(store, prefix)
    then forall j :: 0 <= j < |marks| ==> !marks[j].wrote && !marks[j].completed
    else exists k :: 0 <= k < |marks| && Leads(store, marks, prefix, k)
  }

  /** `next` is `store` after a run that left `mark`. */
  ghost predicate MarkedStep(store: Store, next: Store, mark: Mark, prefix: string) {
    && (mark.wrote ==>
          PointsTo(next, prefix, mark.version) && Guard(Previous(store, prefix), mark.version).Advance?)
    && (!mark.wrote ==> SamePointer(store, next, prefix))
    && (mark.completed && !mark.wrote ==>
          IsVersion(mark.version) && Guard(Previous(store, prefix), mark.version).Remain?)
  }

  lemma {:induction false} FirstPointer(store: Store, next: Store, marks: seq<Mark>, mark: Mark, prefix: string)
    requires NoPointer(store, prefix) && Largest(store, marks, prefix) && MarkedStep(store, next, mark, prefix)
    ensures Largest(next, marks + [mark], prefix)
  {
    if mark.wrote {
      assert Leads(next, marks + [mark], prefix, |marks|);
    }
  }

  lemma {:induction false} NextPointer(store: Store, next: Store, marks: seq<Mark>, mark: Mark, prefix: string, k: nat)
    requires k < |marks| && Leads(store, marks, prefix, k) && Protected(marks[k].version)
    requires MarkedStep(store, next, mark, prefix)
    ensures Largest(next, marks + [mark], prefix)
  {
    assert Previous(store, prefix) == ReadPointer(marks[k].version + "\n");
    if IsVersion(mark.version) {
      GuardProtects(marks[k].version, mark.version);
    }
    if mark.wrote {
      assert AtLeast(mark.version, marks[k].version);
      assert Leads(next, marks + [mark], prefix, |marks|);
    } else {
      assert Leads(next, marks + [mark], prefix, k);
    }
  }

  lemma {:induction false} MarkVersions(hash: Hash, runs: seq<Run>, prefix: string)
    ensures forall j :: 0 <= j < |runs| ==> Marks(hash, runs, prefix)[j].version == runs[j].version
  {
    if runs != [] {
      MarkVersions(hash, runs[..|runs| - 1], prefix);
    }
  }

  /** Over any history of protected versions the pointer is the largest version written, and at
      least every version whose promotion completed. */
  lemma {:induction false} PointerIsLargest(hash: Hash, runs: seq<Run>, prefix: string)
    requires AllProtected(runs)
    ensures Largest(History(hash, runs), Marks(hash, runs, prefix), prefix)
  {
    if runs != [] {
      var init, run := runs[..|runs| - 1], runs[|runs| - 1];
      var store, marks := History(hash, init), Marks(hash, init, prefix);
      var next := Invoke(hash, store, run).store;
      var mark := Mark(run.version, Writes(hash, store, run, prefix), Completes(hash, store, run, prefix));
      PointerIsLargest(hash, init, prefix);
      PointerStep(hash, store, run, prefix);
      MarkVersions(hash, init, prefix);
      assert MarkedStep(store, next, mark, prefix);
      if NoPointer(store, prefix) {
        FirstPointer(store, next, marks, mark, prefix);
      } else {
        var k :| 0 <= k < |marks| && Leads(store, marks, prefix, k);
        assert init[k] == runs[k];
        NextPointer(store, next, marks, mark, prefix, k);
      }
    }
  }

  lemma {:induction false} MarksExtend(hash: Hash, runs: seq<Run>, later: seq<Run>, prefix: string)
    ensures Marks(hash, runs, prefix) <= Marks(hash, runs + later, prefix)
    decreases |later|
  {
    if later == [] {
      assert runs + later == runs;
    } else {
      MarksExtend(hash, runs, later[..|later| - 1], prefix);
      assert (runs + later)[..|runs + later| - 1] == runs + later[..|later| - 1];
    }
  }

  /** And it never moves backwards. */
  lemma {:induction false} PointerNeverRetreats(hash: Hash, runs: seq<Run>, later: seq<Run>, prefix: string, before: string)
    requires AllProtected(runs + later) && PointsTo(History(hash, runs), prefix, before)
    ensures exists after :: PointsTo(History(hash, runs + later), prefix, after) && AtLeast(after, before)
  {
    var all := runs + later;
    assert forall j :: 0 <= j < |runs| ==> all[j] == runs[j];
    PointerIsLargest(hash, runs, prefix);
    PointerIsLargest(hash, all, prefix);
    MarksExtend(hash, runs, later, prefix);
    var marks, every := Marks(hash, runs, prefix), Marks(hash, all, prefix);
    var k :| 0 <= k < |marks| && Leads(History(hash, runs), marks, prefix, k);
    PointsToOne(History(hash, runs), prefix, before, marks[k].version);
    assert every[k] == marks[k];
  }
}
