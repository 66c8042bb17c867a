/** Which local files make up a release, and in which order they are published
    (`payload` of the mirror publisher). */
module MirrorPayload {
  import opened Wrappers
  import opened Text

  type Bytes = string

  /** The digest function is arbitrary: nothing here needs it to be injective. */
  type Hash = Bytes -> string

  const MANIFEST := "SHA256SUMS.txt"
  const INSTALLER := "install.sh"

  // ----- versions -----

  /** `v\d+\.\d+\.\d+`, with ASCII digits. */
  predicate IsVersion(s: string) {
    && s != "" && s[0] == 'v'
    && var parts := Split(s[1..], '.');
       && |parts| == 3
       && forall i :: 0 <= i < 3 ==> parts[i] != "" && AllDigits(parts[i])
  }

  datatype Numbers = Numbers(major: nat, minor: nat, patch: nat) {
    predicate Exceeds(other: Numbers) {
      || major > other.major
      || (major == other.major && minor > other.minor)
      || (major == other.major && minor == other.minor && patch > other.patch)
    }
  }

  function NumbersOf(version: string): Numbers
    requires IsVersion(version)
  {
    var parts := Split(version[1..], '.');
    Numbers(Value(parts[0]), Value(parts[1]), Value(parts[2]))
  }

  /** Unequal versions are ordered one way, and the order is transitive. */
  lemma {:induction false} ExceedsOrders(a: Numbers, b: Numbers, c: Numbers)
    ensures a == b <==> !a.Exceeds(b) && !b.Exceeds(a)
    ensures !(a.Exceeds(b) && b.Exceeds(a))
    ensures a.Exceeds(b) && b.Exceeds(c) ==> a.Exceeds(c)
  {
  }

  lemma {:induction false} AtLeastOneBase(d: nat, base: nat)
    ensures (d + 1) * base >= base
  {
    assert (d + 1) * base == d * base + base;
  }

  lemma {:induction false} GreaterDigit(x: nat, r: nat, y: nat, s: nat, base: nat)
    requires x > y && r < base && s < base
    ensures x * base + r > y * base + s
  {
    var d: nat :| x == y + (d + 1);
    AtLeastOneBase(d, base);
    assert x * base == y * base + (d + 1) * base;
  }

  /** Two digits in one base. */
  lemma {:induction false} Positional(x: nat, r: nat, y: nat, s: nat, base: nat)
    requires r < base && s < base
    ensures x * base + r > y * base + s <==> x > y || (x == y && r > s)
  {
    if x > y {
      GreaterDigit(x, r, y, s, base);
    } else if y > x {
      GreaterDigit(y, s, x, r, base);
    }
  }

  /** In any base above all six numbers, the greater version is the greater three-digit number. */
  lemma {:induction false} ExceedsAsNumber(a: Numbers, b: Numbers, base: nat)
    requires a.minor < base && a.patch < base && b.minor < base && b.patch < base
    ensures a.Exceeds(b) <==>
      (a.major * base + a.minor) * base + a.patch > (b.major * base + b.minor) * base + b.patch
  {
    Positional(a.major, a.minor, b.major, b.minor, base);
    Positional(b.major, b.minor, a.major, a.minor, base);
    Positional(a.major * base + a.minor, a.patch, b.major * base + b.minor, b.patch, base);
  }

  // ----- the checksum manifest -----

  datatype Listed = Listed(digest: string, name: string)

  predicate IsHex(c: char) { 'a' <= c <= 'f' || IsDigit(c) }

  predicate IsNameChar(c: char) {
    'A' <= c <= 'Z' || 'a' <= c <= 'z' || IsDigit(c) || c == '_' || c == '.' || c == '-'
  }

  /** `([a-f0-9]{64})  ([A-Za-z0-9_.-]+)` matched against a whole line. */
  function ParseLine(line: string): Option<Listed> {
    if && |line| > 66
       && (forall i :: 0 <= i < 64 ==> IsHex(line[i]))
       && line[64] == ' ' && line[65] == ' '
       && (forall i :: 66 <= i < |line| ==> IsNameChar(line[i]))
    then Some(Listed(line[..64], line[66..]))
    else None
  }

  predicate IsLineBreak(c: char) {
    c in "\n\r\U{0b}\U{0c}\U{1c}\U{1d}\U{1e}\U{85}\U{2028}\U{2029}"
  }

  function LineEnd(text: string): (i: nat)
    ensures i <= |text|
  {
    if text == "" || IsLineBreak(text[0]) then 0 else 1 + LineEnd(text[1..])
  }

  /** Python's `splitlines`: no empty line after a final break. */
  function SplitLines(text: string): seq<string>
    decreases |text|
  {
    if text == "" then [] else
      var i := LineEnd(text);
      if i == |text| then [text] else
        var width := if text[i] == '\r' && i + 1 < |text| && text[i + 1] == '\n' then 2 else 1;
        [text[..i]] + SplitLines(text[i + width..])
  }

  // ----- the payload -----

  datatype Entry = Entry(name: string, content: Bytes)

  function Names(files: seq<Entry>): set<string> {
    set i | 0 <= i < |files| :: files[i].name
  }

  predicate StartsWith(s: string, prefix: string) { prefix <= s }

  function Required(version: string): set<string>
    requires IsVersion(version)
  {
    var v := version[1..];
    var platforms := {"scode-linux-x64.tar.gz", "scode-linux-arm64.tar.gz", "scode-macos-x64.tar.gz",
                      "scode-macos-arm64.tar.gz", "scode-windows-x64.zip", "scode-windows-arm64.zip",
                      "scode_" + v + "_amd64.deb"};
    if Numbers(0, 2, 32).Exceeds(NumbersOf(version)) then platforms
    else platforms + {"scode-linux-arm64-bundle.tar.gz", "scode_" + v + "_arm64.deb"}
  }

  const OPTIONAL := {"scode-linux-x64-bundle.tar.gz"}

  predicate CompleteSet(names: set<string>, version: string)
    requires IsVersion(version)
  {
    Required(version) <= names <= Required(version) + OPTIONAL
  }

  /** One manifest line is read: the file it names joins `files`, or the run fails. */
  function Admit(hash: Hash, dist: map<string, Bytes>, files: seq<Entry>, line: string): Option<seq<Entry>> {
    var listed :- ParseLine(line);
    if listed.name in Names(files) || !StartsWith(listed.name, "scode") then None
    else if listed.name !in dist || hash(dist[listed.name]) != listed.digest then None
    else Some(files + [Entry(listed.name, dist[listed.name])])
  }

  function AdmitAll(hash: Hash, dist: map<string, Bytes>, lines: seq<string>): Option<seq<Entry>> {
    if lines == [] then Some([]) else
      var files :- AdmitAll(hash, dist, lines[..|lines| - 1]);
      Admit(hash, dist, files, lines[|lines| - 1])
  }

  /** The files of a release in upload order, or None where the source raises. */
  function Payload(hash: Hash, dist: map<string, Bytes>, installer: Bytes, version: string): Option<seq<Entry>>
    requires IsVersion(version)
  {
    if MANIFEST !in dist then None else
      var files :- AdmitAll(hash, dist, SplitLines(dist[MANIFEST]));
      if !CompleteSet(Names(files), version) then None
      else Some(files + [Entry(MANIFEST, dist[MANIFEST]), Entry(INSTALLER, installer)])
  }

  /** The loop of `payload` over the manifest lines. */
  method BuildPayload(hash: Hash, dist: map<string, Bytes>, installer: Bytes, version: string)
    returns (entries: Option<seq<Entry>>)
    requires IsVersion(version)
    ensures entries == Payload(hash, dist, installer, version)
  {
    if MANIFEST !in dist {
      return None;
    }
    var lines := SplitLines(dist[MANIFEST]);
    var files: seq<Entry> := [];
    for n := 0 to |lines|
      invariant AdmitAll(hash, dist, lines[..n]) == Some(files)
    {
      assert lines[..n + 1][..n] == lines[..n];
      var next := Admit(hash, dist, files, lines[n]);
      if next.None? {
        AdmitFailsForGood(hash, dist, lines, n + 1);
        return None;
      }
      files := next.value;
    }
    assert lines[..|lines|] == lines;
    if !CompleteSet(Names(files), version) {
      return None;
    }
    return Some(files + [Entry(MANIFEST, dist[MANIFEST]), Entry(INSTALLER, installer)]);
  }

  lemma {:induction false} AdmitFailsForGood(hash: Hash, dist: map<string, Bytes>, lines: seq<string>, n: nat)
    requires n <= |lines| && AdmitAll(hash, dist, lines[..n]).None?
    ensures AdmitAll(hash, dist, lines).None?
    decreases |lines|
  {
    if n == |lines| {
      assert lines[..n] == lines;
    } else {
      assert lines[..|lines| - 1][..n] == lines[..n];
      AdmitFailsForGood(hash, dist, lines[..|lines| - 1], n);
    }
  }

  // ----- what an accepted payload means -----

  ghost predicate LineHolds(hash: Hash, dist: map<string, Bytes>, line: string) {
    var listed := ParseLine(line);
    && listed.Some?
    && StartsWith(listed.value.name, "scode")
    && listed.value.name in dist
    && hash(dist[listed.value.name]) == listed.value.digest
  }

  ghost predicate DistinctNames(lines: seq<string>) {
    forall i, j :: 0 <= i < j < |lines| && ParseLine(lines[i]).Some? && ParseLine(lines[j]).Some? ==>
      ParseLine(lines[i]).value.name != ParseLine(lines[j]).value.name
  }

  ghost function ListedNames(manifest: Bytes): set<string> {
    var lines := SplitLines(manifest);
    set i | 0 <= i < |lines| && ParseLine(lines[i]).Some? :: ParseLine(lines[i]).value.name
  }

  /** A local directory the publisher accepts, said without its loop. */
  ghost predicate Acceptable(hash: Hash, dist: map<string, Bytes>, version: string)
    requires IsVersion(version)
  {
    && MANIFEST in dist
    && var lines := SplitLines(dist[MANIFEST]);
       && (forall i :: 0 <= i < |lines| ==> LineHolds(hash, dist, lines[i]))
       && DistinctNames(lines)
       && CompleteSet(ListedNames(dist[MANIFEST]), version)
  }

  ghost predicate Follows(dist: map<string, Bytes>, lines: seq<string>, files: seq<Entry>) {
    && |files| == |lines|
    && forall i :: 0 <= i < |lines| ==>
         && ParseLine(lines[i]).Some?
         && files[i].name == ParseLine(lines[i]).value.name
         && files[i].name in dist
         && files[i].content == dist[files[i].name]
  }

  ghost predicate Named(lines: seq<string>, name: string) {
    exists i :: 0 <= i < |lines| && ParseLine(lines[i]).Some? && ParseLine(lines[i]).value.name == name
  }

  lemma {:induction false} NamesOfLines(dist: map<string, Bytes>, lines: seq<string>, files: seq<Entry>, name: string)
    requires Follows(dist, lines, files)
    ensures name in Names(files) <==> Named(lines, name)
  {
    if i :| 0 <= i < |lines| && ParseLine(lines[i]).Some? && ParseLine(lines[i]).value.name == name {
      assert files[i].name == name;
    }
  }

  lemma {:induction false} AdmitMeaning(hash: Hash, dist: map<string, Bytes>, lines: seq<string>, files: seq<Entry>, line: string)
    requires Follows(dist, lines, files)
    ensures var r := Admit(hash, dist, files, line);
      && (r.Some? <==> LineHolds(hash, dist, line) && !Named(lines, ParseLine(line).value.name))
      && (r.Some? ==> Follows(dist, lines + [line], r.value))
  {
    if ParseLine(line).Some? {
      NamesOfLines(dist, lines, files, ParseLine(line).value.name);
    }
  }

  lemma {:induction false} DistinctNamesStep(lines: seq<string>, line: string)
    requires ParseLine(line).Some?
    ensures DistinctNames(lines + [line]) <==> DistinctNames(lines) && !Named(lines, ParseLine(line).value.name)
  {
    var all := lines + [line];
    assert forall i :: 0 <= i < |lines| ==> all[i] == lines[i];
    assert all[|lines|] == line;
  }

  lemma {:induction false} AdmitAllMeaning(hash: Hash, dist: map<string, Bytes>, lines: seq<string>)
    ensures var r := AdmitAll(hash, dist, lines);
      && (r.Some? <==> (forall i :: 0 <= i < |lines| ==> LineHolds(hash, dist, lines[i])) && DistinctNames(lines))
      && (r.Some? ==> Follows(dist, lines, r.value))
  {
    if lines != [] {
      var n: nat :| |lines| == n + 1;
      var init, last := lines[..n], lines[n];
      assert lines == init + [last];
      AdmitAllMeaning(hash, dist, init);
      var files := AdmitAll(hash, dist, init);
      if ParseLine(last).Some? {
        DistinctNamesStep(init, last);
      }
      if files.Some? {
        AdmitMeaning(hash, dist, init, files.value, last);
      }
    }
  }

  /** The payload is accepted exactly for an acceptable directory, and then holds
      the listed files in manifest order, the manifest, and last the installer. */
  lemma {:induction false} PayloadMeaning(hash: Hash, dist: map<string, Bytes>, installer: Bytes, version: string)
    requires IsVersion(version)
    ensures var r := Payload(hash, dist, installer, version);
      && (r.Some? <==> Acceptable(hash, dist, version))
      && (r.Some? ==>
            var lines := SplitLines(dist[MANIFEST]);
            && |r.value| == |lines| + 2
            && Follows(dist, lines, r.value[..|lines|])
            && r.value[|lines|] == Entry(MANIFEST, dist[MANIFEST])
            && r.value[|lines| + 1] == Entry(INSTALLER, installer))
  {
    if MANIFEST in dist {
      var lines := SplitLines(dist[MANIFEST]);
      AdmitAllMeaning(hash, dist, lines);
      var files := AdmitAll(hash, dist, lines);
      if files.Some? {
        FollowsNames(dist, lines, files.value);
        assert (files.value + [Entry(MANIFEST, dist[MANIFEST]), Entry(INSTALLER, installer)])[..|lines|] == files.value;
      }
    }
  }

  lemma {:induction false} FollowsNames(dist: map<string, Bytes>, lines: seq<string>, files: seq<Entry>)
    requires Follows(dist, lines, files)
    ensures Names(files) == set i | 0 <= i < |lines| && ParseLine(lines[i]).Some? :: ParseLine(lines[i]).value.name
  {
    forall i | 0 <= i < |files| ensures files[i].name == ParseLine(lines[i]).value.name {
    }
  }

  // ----- which artifacts a release has -----

  const PLATFORM_ARCHIVES := ["scode-linux-x64.tar.gz", "scode-linux-arm64.tar.gz", "scode-macos-x64.tar.gz",
                              "scode-macos-arm64.tar.gz", "scode-windows-x64.zip", "scode-windows-arm64.zip"]

  const ARM_BUNDLE := "scode-linux-arm64-bundle.tar.gz"

  /** Every accepted release lists the archives of the six platforms and its own package. */
  lemma {:induction false} PlatformsListed(hash: Hash, dist: map<string, Bytes>, version: string, i: nat)
    requires IsVersion(version) && Acceptable(hash, dist, version) && i < |PLATFORM_ARCHIVES|
    ensures PLATFORM_ARCHIVES[i] in ListedNames(dist[MANIFEST])
    ensures "scode_" + version[1..] + "_amd64.deb" in ListedNames(dist[MANIFEST])
  {
    assert PLATFORM_ARCHIVES[i] in Required(version);
  }

  function ArmPackage(version: string): string
    requires version != ""
  {
    "scode_" + version[1..] + "_arm64.deb"
  }

  lemma {:induction false} BundleApart(v: string)
    ensures ARM_BUNDLE !in {"scode_" + v + "_amd64.deb", "scode_" + v + "_arm64.deb"} + OPTIONAL
    ensures ARM_BUNDLE !in PLATFORM_ARCHIVES
  {
    assert ARM_BUNDLE[5] == '-' && ("scode_" + v + "_amd64.deb")[5] == '_' && ("scode_" + v + "_arm64.deb")[5] == '_';
    assert ARM_BUNDLE[12] == 'a' && "scode-linux-x64-bundle.tar.gz"[12] == 'x';
    assert |ARM_BUNDLE| == 31;
    assert forall i :: 0 <= i < |PLATFORM_ARCHIVES| ==> |PLATFORM_ARCHIVES[i]| < 31;
  }

  lemma {:induction false} PackageApart(v: string)
    ensures "scode_" + v + "_arm64.deb" !in {"scode_" + v + "_amd64.deb"} + OPTIONAL
    ensures "scode_" + v + "_arm64.deb" !in PLATFORM_ARCHIVES
  {
    var package := "scode_" + v + "_arm64.deb";
    assert package[5] == '_' && "scode-linux-x64-bundle.tar.gz"[5] == '-';
    assert package[|package| - 8] == 'r' && ("scode_" + v + "_amd64.deb")[|package| - 8] == 'm';
    assert forall i :: 0 <= i < |PLATFORM_ARCHIVES| ==> PLATFORM_ARCHIVES[i][5] == '-';
  }

  /** From version 0.2.32 on, and not before, a release has the bundle and the package for the second
      Linux platform. */
  lemma {:induction false} BundleThreshold(hash: Hash, dist: map<string, Bytes>, version: string)
    requires IsVersion(version) && Acceptable(hash, dist, version)
    ensures var recent := NumbersOf(version) == Numbers(0, 2, 32) || NumbersOf(version).Exceeds(Numbers(0, 2, 32));
      && (ARM_BUNDLE in ListedNames(dist[MANIFEST]) <==> recent)
      && (ArmPackage(version) in ListedNames(dist[MANIFEST]) <==> recent)
  {
    var numbers := NumbersOf(version);
    ExceedsOrders(numbers, Numbers(0, 2, 32), numbers);
    BundleApart(version[1..]);
    PackageApart(version[1..]);
    if Numbers(0, 2, 32).Exceeds(numbers) {
      forall name | name in Required(version) + OPTIONAL ensures name != ARM_BUNDLE && name != ArmPackage(version) {
        if name in Required(version) && name != "scode_" + version[1..] + "_amd64.deb" {
          assert name in PLATFORM_ARCHIVES;
        }
      }
    }
  }

  /** A manifest line is a digest, two spaces and a name, and nothing else is one. */
  lemma {:induction false} LineMeaning(line: string, digest: string, name: string)
    ensures ParseLine(line) == Some(Listed(digest, name)) <==>
      && line == digest + "  " + name && |digest| == 64 && name != ""
      && (forall c :: c in digest ==> IsHex(c)) && (forall c :: c in name ==> IsNameChar(c))
  {
    if line == digest + "  " + name && |digest| == 64 && name != "" {
      assert line[..64] == digest && line[66..] == name;
      assert forall i :: 0 <= i < 64 ==> line[i] == digest[i];
      assert forall i :: 66 <= i < |line| ==> line[i] == name[i - 66];
      assert forall i :: 0 <= i < |name| ==> name[i] == line[66 + i];
    }
    if ParseLine(line) == Some(Listed(digest, name)) {
      assert line == line[..64] + line[64..66] + line[66..];
      assert line[64..66] == "  ";
    }
  }

  lemma {:induction false} LineEndBefore(line: string, break_: char, rest: string)
    requires (forall c :: c in line ==> !IsLineBreak(c)) && IsLineBreak(break_)
    ensures LineEnd(line + ([break_] + rest)) == |line|
  {
    var text := line + ([break_] + rest);
    if line == "" {
      assert text[0] == break_;
    } else {
      assert text[0] == line[0] && text[1..] == line[1..] + ([break_] + rest);
      LineEndBefore(line[1..], break_, rest);
    }
  }

  lemma {:induction false} LineEndLast(line: string)
    requires forall c :: c in line ==> !IsLineBreak(c)
    ensures LineEnd(line) == |line|
  {
    if line != "" {
      LineEndLast(line[1..]);
    }
  }

  /** A line ends with a newline, with a carriage return and a newline together, or with the text. */
  lemma {:induction false} SplitFirstLine(line: string, rest: string)
    requires forall c :: c in line ==> !IsLineBreak(c)
    ensures SplitLines(line + "\n" + rest) == [line] + SplitLines(rest)
    ensures SplitLines(line + "\r\n" + rest) == [line] + SplitLines(rest)
    ensures SplitLines(line) == if line == "" then [] else [line]
  {
    var unix, windows := line + (['\n'] + rest), line + (['\r'] + (['\n'] + rest));
    assert line + "\n" + rest == unix && line + "\r\n" + rest == windows;
    LineEndBefore(line, '\n', rest);
    LineEndBefore(line, '\r', ['\n'] + rest);
    LineEndLast(line);
    assert unix[..|line|] == line && unix[|line| + 1..] == rest && unix[|line|] == '\n';
    assert windows[..|line|] == line && windows[|line| + 2..] == rest;
    assert windows[|line|] == '\r' && windows[|line| + 1] == '\n';
  }
}
