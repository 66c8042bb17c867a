/** Directories that the publisher accepts exist for every version, so the roll-back of an
    unprotected version does happen: the releases that show it are built here. */
module MirrorRollBack {
  import opened Wrappers
  import opened MirrorPayload
  import opened ReleaseMirror
  import opened MirrorHistory
  import opened MirrorPointer
  import opened MirrorRetry

  // ----- manifests -----

  predicate IsDigest(s: string) { |s| == 64 && forall i :: 0 <= i < 64 ==> IsHex(s[i]) }

  predicate IsName(s: string) { s != "" && forall c :: c in s ==> IsNameChar(c) }

  function ManifestLine(digest: string, name: string): string { digest + "  " + name }

  function Manifest(digest: string, names: seq<string>): string {
    if names == [] then "" else ManifestLine(digest, names[0]) + "\n" + Manifest(digest, names[1..])
  }

  function ManifestLines(digest: string, names: seq<string>): (lines: seq<string>)
    ensures |lines| == |names|
    ensures forall i :: 0 <= i < |lines| ==> lines[i] == ManifestLine(digest, names[i])
  {
    seq(|names|, i requires 0 <= i < |names| => ManifestLine(digest, names[i]))
  }

  lemma {:induction false} LineUnbroken(digest: string, name: string)
    requires IsDigest(digest) && IsName(name)
    ensures forall c :: c in ManifestLine(digest, name) ==> !IsLineBreak(c)
  {
    forall c | c in ManifestLine(digest, name) ensures !IsLineBreak(c) {
      assert c in digest || c in "  " || c in name;
      if c in digest { assert IsHex(c); }
    }
  }

  lemma {:induction false} ManifestSplits(digest: string, names: seq<string>)
    requires IsDigest(digest) && forall i :: 0 <= i < |names| ==> IsName(names[i])
    ensures SplitLines(Manifest(digest, names)) == ManifestLines(digest, names)
  {
    if names != [] {
      var first, rest := names[0], names[1..];
      assert forall i :: 0 <= i < |rest| ==> rest[i] == names[i + 1];
      ManifestSplits(digest, rest);
      LineUnbroken(digest, first);
      SplitFirstLine(ManifestLine(digest, first), Manifest(digest, rest));
      assert ManifestLines(digest, names) == [ManifestLine(digest, first)] + ManifestLines(digest, rest);
    }
  }

  lemma {:induction false} LineParses(digest: string, name: string)
    requires IsDigest(digest) && IsName(name)
    ensures ParseLine(ManifestLine(digest, name)) == Some(Listed(digest, name))
  {
    LineMeaning(ManifestLine(digest, name), digest, name);
  }

  // ----- the required names -----

  predicate IsArtifact(name: string) { IsName(name) && StartsWith(name, "scode") }

  lemma {:induction false} LinuxArtifact()
    ensures IsArtifact("scode-linux-x64.tar.gz")
  {
  }

  lemma {:induction false} LinuxArmArtifact()
    ensures IsArtifact("scode-linux-arm64.tar.gz")
  {
  }

  lemma {:induction false} BundleArtifact()
    ensures IsArtifact("scode-linux-arm64-bundle.tar.gz")
  {
  }

  lemma {:induction false} MacArtifacts()
    ensures IsArtifact("scode-macos-x64.tar.gz") && IsArtifact("scode-macos-arm64.tar.gz")
  {
  }

  lemma {:induction false} WindowsArtifacts()
    ensures IsArtifact("scode-windows-x64.zip") && IsArtifact("scode-windows-arm64.zip")
  {
  }

  lemma {:induction false} PackageSuffixes()
    ensures IsName("_amd64.deb") && IsName("_arm64.deb")
  {
  }

  lemma {:induction false} PackageArtifact(version: string, suffix: string)
    requires IsVersion(version) && IsName(suffix)
    ensures IsArtifact("scode_" + version[1..] + suffix)
  {
    VersionText(version);
    var name := "scode_" + version[1..] + suffix;
    forall c | c in name ensures IsNameChar(c) {
      assert c in "scode_" || c in version[1..] || c in suffix;
      if c in version[1..] {
        var i :| 0 <= i < |version[1..]| && version[1..][i] == c;
        assert c == version[i + 1];
      }
    }
  }

  lemma {:induction false} RequiredArtifacts(version: string)
    requires IsVersion(version)
    ensures forall name :: name in Required(version) ==> IsArtifact(name)
  {
    LinuxArtifact();
    LinuxArmArtifact();
    BundleArtifact();
    MacArtifacts();
    WindowsArtifacts();
    PackageSuffixes();
    PackageArtifact(version, "_amd64.deb");
    PackageArtifact(version, "_arm64.deb");
  }

  lemma {:induction false} Enumerate(names: set<string>) returns (list: seq<string>)
    ensures Distinct(list) && forall name :: name in list <==> name in names
  {
    if names == {} {
      list := [];
    } else {
      var name :| name in names;
      var rest := Enumerate(names - {name});
      list := [name] + rest;
    }
  }

  // ----- an accepted directory -----

  function Directory(content: Bytes, list: seq<string>, manifest: Bytes): map<string, Bytes> {
    (map name | name in list :: content)[MANIFEST := manifest]
  }

  ghost predicate Distinct(list: seq<string>) {
    forall i, j :: 0 <= i < j < |list| ==> list[i] != list[j]
  }

  ghost predicate Artifacts(list: seq<string>) {
    forall i :: 0 <= i < |list| ==> IsArtifact(list[i])
  }

  /** A manifest written for a list of names reads as that list. */
  lemma {:induction false} ManifestReads(digest: string, list: seq<string>)
    requires IsDigest(digest) && Artifacts(list)
    ensures var lines := SplitLines(Manifest(digest, list));
      |lines| == |list| && forall i :: 0 <= i < |list| ==> ParseLine(lines[i]) == Some(Listed(digest, list[i]))
  {
    assert forall i :: 0 <= i < |list| ==> IsArtifact(list[i]) ==> IsName(list[i]);
    ManifestSplits(digest, list);
    forall i | 0 <= i < |list| ensures ParseLine(SplitLines(Manifest(digest, list))[i]) == Some(Listed(digest, list[i])) {
      LineParses(digest, list[i]);
    }
  }

  lemma {:induction false} ManifestLists(digest: string, list: seq<string>)
    requires IsDigest(digest) && Artifacts(list)
    ensures forall name :: name in ListedNames(Manifest(digest, list)) <==> name in list
  {
    var lines := SplitLines(Manifest(digest, list));
    ManifestReads(digest, list);
    forall name | name in list ensures name in ListedNames(Manifest(digest, list)) {
      var i :| 0 <= i < |list| && list[i] == name;
      assert ParseLine(lines[i]).value.name == name;
    }
  }

  lemma {:induction false} DirectoryHolds(hash: Hash, content: Bytes, list: seq<string>, manifest: Bytes, i: nat)
    requires i < |list| && IsArtifact(list[i])
    ensures var dist := Directory(content, list, manifest); list[i] in dist && dist[list[i]] == content
  {
    FixedNames();
    assert list[i] in list;
  }

  lemma {:induction false} ManifestDistinct(digest: string, list: seq<string>)
    requires IsDigest(digest) && Artifacts(list) && Distinct(list)
    ensures DistinctNames(SplitLines(Manifest(digest, list)))
  {
    ManifestReads(digest, list);
  }

  lemma {:induction false} ManifestHolds(hash: Hash, content: Bytes, list: seq<string>)
    requires IsDigest(hash(content)) && Artifacts(list)
    ensures var manifest := Manifest(hash(content), list);
      var lines := SplitLines(manifest);
      forall i :: 0 <= i < |lines| ==> LineHolds(hash, Directory(content, list, manifest), lines[i])
  {
    var manifest := Manifest(hash(content), list);
    var lines := SplitLines(manifest);
    ManifestReads(hash(content), list);
    forall i | 0 <= i < |lines| ensures LineHolds(hash, Directory(content, list, manifest), lines[i]) {
      DirectoryHolds(hash, content, list, manifest, i);
    }
  }

  const BUNDLE := "scode-linux-x64-bundle.tar.gz"

  lemma {:induction false} OptionalArtifact()
    ensures IsArtifact(BUNDLE)
  {
  }

  /** What a release lists: what is required, and the optional bundle or not. */
  ghost predicate ListsRelease(list: seq<string>, version: string, bundled: bool)
    requires IsVersion(version)
  {
    forall name :: name in list <==> name in Required(version) || (bundled && name == BUNDLE)
  }

  lemma {:induction false} DirectoryAccepted(hash: Hash, content: Bytes, version: string, list: seq<string>, bundled: bool)
    requires IsVersion(version) && IsDigest(hash(content)) && Artifacts(list)
    requires Distinct(list) && ListsRelease(list, version, bundled)
    ensures Acceptable(hash, Directory(content, list, Manifest(hash(content), list)), version)
  {
    var manifest := Manifest(hash(content), list);
    ManifestHolds(hash, content, list);
    ManifestDistinct(hash(content), list);
    ManifestLists(hash(content), list);
    assert Directory(content, list, manifest)[MANIFEST] == manifest;
    assert BUNDLE in OPTIONAL;
    assert Required(version) <= ListedNames(manifest) <= Required(version) + OPTIONAL;
  }

  /** For every version, and every digest function with a digest of 64 hexadecimal digits, there is
      a local directory that the publisher accepts, with the optional bundle or without. */
  lemma {:induction false} AcceptableExists(hash: Hash, content: Bytes, version: string, bundled: bool)
    returns (dist: map<string, Bytes>)
    requires IsVersion(version) && IsDigest(hash(content))
    ensures Acceptable(hash, dist, version)
    ensures bundled ==> BUNDLE in ListedNames(dist[MANIFEST])
    ensures !bundled ==> ListedNames(dist[MANIFEST]) == Required(version)
  {
    var list := Enumerate(Required(version) + if bundled then {BUNDLE} else {});
    RequiredArtifacts(version);
    OptionalArtifact();
    forall i | 0 <= i < |list| ensures IsArtifact(list[i]) {
      assert list[i] in list;
    }
    DirectoryAccepted(hash, content, version, list, bundled);
    ManifestLists(hash(content), list);
    dist := Directory(content, list, Manifest(hash(content), list));
    assert dist[MANIFEST] == Manifest(hash(content), list);
  }

  /** A fault-free stage of any version, from such a directory. */
  lemma {:induction false} StageExists(hash: Hash, content: Bytes, version: string, prefix: string)
    returns (run: Run, entries: seq<Entry>)
    requires IsVersion(version) && IsDigest(hash(content))
    ensures run.phase.Stage? && FaultFree(run) && run.version == version && run.prefix == prefix
    ensures Payload(hash, run.dist, run.installer, version) == Some(entries)
  {
    var dist := AcceptableExists(hash, content, version, false);
    run := Run(Stage, version, dist, "", prefix, n => Proceed);
    PayloadMeaning(hash, dist, "", version);
    entries := Payload(hash, dist, "", version).value;
  }

  // ----- the roll-back happens -----

  /** Two fault-free releases, the newer first: each staged and promoted, and `latest` goes back. */
  ghost predicate RollBack(hash: Hash, newer: Run, older: Run) {
    var prefix := StripSlashes(newer.prefix);
    var first := [newer, newer.(phase := Promote)];
    && newer.phase.Stage? && older.phase.Stage? && FaultFree(newer) && FaultFree(older)
    && PointsTo(History(hash, first), prefix, newer.version)
    && PointsTo(History(hash, first + [older, older.(phase := Promote)]), prefix, older.version)
    && NumbersOf(newer.version).Exceeds(NumbersOf(older.version))
  }

  /** Every unprotected version is rolled back by some fault-free run of the publisher. */
  lemma {:induction false} UnprotectedRollsBack(hash: Hash, content: Bytes, version: string, prefix: string)
    returns (newer: Run, older: Run)
    requires IsDigest(hash(content)) && IsVersion(version) && !Protected(version)
    ensures newer.version == version && newer.prefix == prefix && RollBack(hash, newer, older)
  {
    var files, others: seq<Entry>;
    GuardAdmitsCut(version);
    newer, files := StageExists(hash, content, version, prefix);
    older, others := StageExists(hash, content, version[..READ_LIMIT], prefix);
    FaultFreeRollBack(hash, newer, older, files, others);
  }

  /** In particular, whatever the prefix, some history of four runs without a fault moves the
      pointer back. */
  lemma {:induction false} RollBackHappens(hash: Hash, content: Bytes, prefix: string) returns (newer: Run, older: Run)
    requires IsDigest(hash(content))
    ensures newer.prefix == prefix && |newer.version| == 135 && RollBack(hash, newer, older)
  {
    var current, cut := LongVersionUnprotected();
    newer, older := UnprotectedRollsBack(hash, content, current, prefix);
  }
}
