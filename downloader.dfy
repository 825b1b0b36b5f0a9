/** The dependency checks and download bookkeeping of the PaperMC
    downloader: the `java -version` parse, the Python version rule, the
    version table, the jar and plugin file names, and the order in which
    the Java installer approaches are tried. Process output, exit codes
    and download outcomes are inputs. */
module Downloader {
  import opened Text

  // ------------------------------------------------------------ jar names

  /** `f"paper-{version}.jar"`: the file a PaperMC version is saved as. */
  function JarName(version: string): (jar: string)
    ensures StartsWith(jar, "paper-") && EndsWith(jar, ".jar")
    ensures |jar| == |version| + 10 && jar[6..|jar| - 4] == version
  {
    "paper-" + version + ".jar"
  }

  /** Distinct versions are saved under distinct file names. */
  lemma JarNameInjective(v: string, w: string)
    requires JarName(v) == JarName(w)
    ensures v == w
  {
    var a, b := JarName(v), JarName(w);
    assert a[6..|a| - 4] == b[6..|b| - 4];
  }

  // -------------------------------------------------------- version table

  /** The built-in version table used when no local version file exists,
      newest first. */
  const FallbackVersions: seq<(string, string)> := [
    ("1.21.8", "https://api.papermc.io/v2/projects/paper/versions/1.21.8/builds/39/downloads/paper-1.21.8-39.jar"),
    ("1.21.7", "https://api.papermc.io/v2/projects/paper/versions/1.21.7/builds/32/downloads/paper-1.21.7-32.jar"),
    ("1.21.6", "https://api.papermc.io/v2/projects/paper/versions/1.21.6/builds/48/downloads/paper-1.21.6-48.jar"),
    ("1.21.5", "https://api.papermc.io/v2/projects/paper/versions/1.21.5/builds/114/downloads/paper-1.21.5-114.jar"),
    ("1.21.4", "https://api.papermc.io/v2/projects/paper/versions/1.21.4/builds/232/downloads/paper-1.21.4-232.jar"),
    ("1.20.6", "https://api.papermc.io/v2/projects/paper/versions/1.20.6/builds/151/downloads/paper-1.20.6-151.jar"),
    ("1.20.4", "https://api.papermc.io/v2/projects/paper/versions/1.20.4/builds/499/downloads/paper-1.20.4-499.jar"),
    ("1.19.4", "https://api.papermc.io/v2/projects/paper/versions/1.19.4/builds/550/downloads/paper-1.19.4-550.jar")
  ]

  /** A version table is an ordered dictionary: a sequence of
      (version, url) pairs with distinct versions. */
  predicate IsTable(versions: seq<(string, string)>) {
    forall i, j :: 0 <= i < j < |versions| ==> versions[i].0 != versions[j].0
  }

  predicate HasVersion(versions: seq<(string, string)>, v: string) {
    exists i :: 0 <= i < |versions| && versions[i].0 == v
  }

  /** `get_latest_version`: the first key of the table, or "1.21.8" when
      the table is empty. */
  function LatestVersion(versions: seq<(string, string)>): (v: string)
    ensures versions != [] ==> HasVersion(versions, v) && v == versions[0].0
    ensures versions == [] ==> v == "1.21.8"
  {
    if versions != [] then versions[0].0 else "1.21.8"
  }

  /** With the built-in table the latest version is its newest entry,
      which is also the constant used when no table is available. */
  lemma LatestOfFallback()
    ensures IsTable(FallbackVersions)
    ensures LatestVersion(FallbackVersions) == "1.21.8"
    ensures LatestVersion(FallbackVersions) == LatestVersion([])
  {
  }

  /** The jar `download_paper_jar` writes: none (it reports False before
      any request) when the version is not in the table, otherwise the
      version's jar name. */
  function PaperJarTarget(versions: seq<(string, string)>, version: string): (jar: Option<string>)
    ensures jar.None? <==> !HasVersion(versions, version)
    ensures jar.Some? ==> StartsWith(jar.value, "paper-") && EndsWith(jar.value, ".jar")
    ensures jar.Some? ==> |jar.value| == |version| + 10 && jar.value[6..|jar.value| - 4] == version
  {
    if HasVersion(versions, version) then Some(JarName(version)) else None
  }

  // ---------------------------------------------------------- plugin pack

  /** The names of the basic plugin pack, in download order. */
  const BasicPluginPack: seq<string> :=
    ["ServerNaptime", "ViaBackwards", "ViaVersion", "EssentialsX", "Geyser", "Floodgate", "AuthMe"]

  /** The file a pack plugin is saved as: the Geyser and Floodgate builds
      are Spigot builds and say so in their name. */
  function PluginFileName(name: string): (file: string)
    ensures StartsWith(file, name) && EndsWith(file, ".jar")
    ensures (name == "Geyser" || name == "Floodgate") <==> file == name + "-Spigot.jar"
  {
    if name == "Geyser" || name == "Floodgate" then name + "-Spigot.jar" else name + ".jar"
  }

  /** The pack position a file's fourth letter points at. */
  function PackIndexOf(file: string): (k: int) {
    if |file| < 4 then -1
    else
      var c := file[3];
      if c == 'v' then 0 else if c == 'B' then 1 else if c == 'V' then 2 else if c == 'e' then 3
      else if c == 's' then 4 else if c == 'o' then 5 else if c == 'h' then 6 else -1
  }

  lemma PackIndexOfFile(k: nat)
    requires k < |BasicPluginPack|
    ensures PackIndexOf(PluginFileName(BasicPluginPack[k])) == k
  {
    assert PluginFileName(BasicPluginPack[k])[3] == BasicPluginPack[k][3];
  }

  /** The basic pack's plugins are saved under pairwise distinct names,
      so no download overwrites another. */
  lemma BasicPackFileNamesDistinct()
    ensures forall i, j :: 0 <= i < j < |BasicPluginPack| ==>
      PluginFileName(BasicPluginPack[i]) != PluginFileName(BasicPluginPack[j])
  {
    forall i, j | 0 <= i < j < |BasicPluginPack|
      ensures PluginFileName(BasicPluginPack[i]) != PluginFileName(BasicPluginPack[j])
    {
      PackIndexOfFile(i);
      PackIndexOfFile(j);
    }
  }

  /** The files saved for `names`, in order, leaving out the plugins in
      `skip`. */
  function FilesOf(names: seq<string>, skip: set<string>): (files: seq<string>)
    ensures |files| <= |names|
  {
    if names == [] then []
    else
      var last := names[|names| - 1];
      FilesOf(names[..|names| - 1], skip) + (if last in skip then [] else [PluginFileName(last)])
  }

  /** A file is listed exactly when some plugin outside `skip` is saved
      under its name. */
  lemma {:induction false} FilesOfMembers(names: seq<string>, skip: set<string>)
    ensures forall f :: f in FilesOf(names, skip) <==> exists n :: n in names && n !in skip && f == PluginFileName(n)
    decreases |names|
  {
    if names != [] {
      var init, last := names[..|names| - 1], names[|names| - 1];
      FilesOfMembers(init, skip);
      assert names == init + [last];
      forall f ensures f in FilesOf(names, skip) <==> exists n :: n in names && n !in skip && f == PluginFileName(n) {
        if f in FilesOf(names, skip) && f !in FilesOf(init, skip) {
          assert last in names;
        }
        if exists n :: n in names && n !in skip && f == PluginFileName(n) {
          var n :| n in names && n !in skip && f == PluginFileName(n);
          if n != last {
            assert n in init;
          }
        }
      }
    }
  }

  /** One more plugin adds its file unless it is skipped. */
  lemma FilesOfNext(names: seq<string>, i: nat, skip: set<string>)
    requires i < |names|
    ensures FilesOf(names[..i + 1], skip) ==
      FilesOf(names[..i], skip) + (if names[i] in skip then [] else [PluginFileName(names[i])])
  {
    assert names[..i + 1][..i] == names[..i];
  }

  /** Skipping more plugins never lists more files. */
  lemma {:induction false} FilesOfShorter(names: seq<string>, skip: set<string>, more: set<string>)
    requires skip <= more
    ensures |FilesOf(names, more)| <= |FilesOf(names, skip)|
    decreases |names|
  {
    if names != [] {
      FilesOfShorter(names[..|names| - 1], skip, more);
    }
  }

  /** `download_basic_plugin_pack`: each plugin in `pack` is downloaded in
      turn. A plugin in `failedBeforeOpen` raises before its file is
      opened (the request or its status check fails); one in
      `failedAfterOpen` raises while the body is streamed into the file
      it has already opened, and leaves that file truncated. Either kind
      is recorded as False, every other plugin as True. `created` lists
      the files created, in download order; `complete` those that hold a
      whole download. */
  method DownloadPluginPack(pack: seq<string>, failedBeforeOpen: set<string>, failedAfterOpen: set<string>)
    returns (results: map<string, bool>, created: seq<string>, complete: seq<string>)
    ensures results.Keys == set n | n in pack
    ensures forall n :: n in results ==> results[n] == (n !in failedBeforeOpen && n !in failedAfterOpen)
    ensures created == FilesOf(pack, failedBeforeOpen)
    ensures complete == FilesOf(pack, failedBeforeOpen + failedAfterOpen)
    ensures forall f :: f in created <==> exists n :: n in pack && n !in failedBeforeOpen && f == PluginFileName(n)
    ensures forall f :: f in complete <==>
      exists n :: n in pack && n !in failedBeforeOpen + failedAfterOpen && f == PluginFileName(n)
    ensures |complete| <= |created| <= |pack|
  {
    results := map[];
    created := [];
    complete := [];
    var i := 0;
    while i < |pack|
      invariant 0 <= i <= |pack|
      invariant forall n :: n in results <==> n in pack[..i]
      invariant forall n :: n in results ==> results[n] == (n !in failedBeforeOpen && n !in failedAfterOpen)
      invariant created == FilesOf(pack[..i], failedBeforeOpen)
      invariant complete == FilesOf(pack[..i], failedBeforeOpen + failedAfterOpen)
    {
      var name := pack[i];
      FilesOfNext(pack, i, failedBeforeOpen);
      FilesOfNext(pack, i, failedBeforeOpen + failedAfterOpen);
      if name !in failedBeforeOpen {
        created := created + [PluginFileName(name)];
      }
      if name !in failedBeforeOpen + failedAfterOpen {
        complete := complete + [PluginFileName(name)];
      }
      results := results[name := name !in failedBeforeOpen && name !in failedAfterOpen];
      assert pack[..i + 1] == pack[..i] + [name];
      i := i + 1;
    }
    assert pack[..i] == pack;
    FilesOfMembers(pack, failedBeforeOpen);
    FilesOfMembers(pack, failedBeforeOpen + failedAfterOpen);
    FilesOfShorter(pack, failedBeforeOpen, failedBeforeOpen + failedAfterOpen);
  }

  // ------------------------------------------------------ Java installer

  /** How one `msiexec` approach ended. */
  datatype InstallOutcome = Exit(code: int) | TimedOut | Raised

  /** An outcome that ends the approach loop: success, or another
      installation in progress (exit code 1618). */
  predicate Decisive(o: InstallOutcome) {
    o == Exit(0) || o == Exit(1618)
  }

  const InstallApproachCount := 3
  const MinMsiSize := 50 * 1024 * 1024

  /** `install_java_windows`: a missing or suspiciously small MSI is
      refused before any approach runs; then the approaches are tried in
      order, exit code 0 succeeds, 1618 gives up at once, and every other
      outcome moves on to the next approach. */
  method InstallJavaWindows(msiExists: bool, msiSize: int, outcomes: seq<InstallOutcome>)
    returns (ok: bool, attempts: nat)
    requires |outcomes| == InstallApproachCount
    ensures attempts <= |outcomes|
    ensures (!msiExists || msiSize < MinMsiSize) ==> !ok && attempts == 0
    ensures ok <==> (msiExists && msiSize >= MinMsiSize &&
      exists i :: 0 <= i < |outcomes| && outcomes[i] == Exit(0) &&
        forall j :: 0 <= j < i ==> !Decisive(outcomes[j]))
    ensures forall j :: 0 <= j < attempts - 1 ==> !Decisive(outcomes[j])
    ensures msiExists && msiSize >= MinMsiSize ==> attempts >= 1
    ensures 0 < attempts < |outcomes| ==> Decisive(outcomes[attempts - 1])
  {
    if !msiExists || msiSize < MinMsiSize {
      return false, 0;
    }
    attempts := 0;
    while attempts < |outcomes|
      invariant 0 <= attempts <= |outcomes|
      invariant forall j :: 0 <= j < attempts ==> !Decisive(outcomes[j])
    {
      var outcome := outcomes[attempts];
      attempts := attempts + 1;
      if outcome == Exit(0) {
        return true, attempts;
      } else if outcome == Exit(1618) {
        return false, attempts;
      }
    }
    ok := false;
  }

  // ----------------------------------------------------------- Java check

  /** What `check_java` reports. */
  datatype JavaInfo = JavaInfo(installed: bool, version: Option<string>, compatible: bool)

  /** The index of the first line whose lower-case form mentions "version". */
  function VersionLine(lines: seq<string>): (i: Option<nat>)
    ensures i.Some? ==> i.value < |lines| && Contains(Lower(lines[i.value]), "version")
    ensures i.Some? ==> forall j :: 0 <= j < i.value ==> !Contains(Lower(lines[j]), "version")
    ensures i.None? ==> forall j :: 0 <= j < |lines| ==> !Contains(Lower(lines[j]), "version")
  {
    if lines == [] then None
    else if Contains(Lower(lines[0]), "version") then Some(0)
    else match VersionLine(lines[1..])
      case None => None
      case Some(k) => Some(k + 1)
  }

  /** The line holds at least two double quotes. */
  predicate TwoQuotes(line: string) {
    exists i, j :: 0 <= i < j < |line| && line[i] == '"' && line[j] == '"'
  }

  /** `v` sits between the quote at `i`, the line's first, and the next
      quote. */
  predicate QuotedAt(line: string, i: nat, v: string) {
    && i + |v| + 2 <= |line|
    && '"' !in line[..i] && line[i] == '"'
    && line[i + 1..i + 1 + |v|] == v && line[i + 1 + |v|] == '"'
  }

  /** The group of `re.search(r'"([^"]*)"', line)`: the text between the
      first two double quotes, or None when there are fewer than two. */
  function Quoted(line: string): (v: Option<string>)
    ensures v.None? <==> !TwoQuotes(line)
    ensures v.Some? ==> '"' !in v.value && exists i :: QuotedAt(line, i, v.value)
  {
    if '"' !in line then None
    else
      var i := IndexOf(line, '"');
      var rest := line[i + 1..];
      if '"' !in rest then
        NoSecondQuote(line, i);
        None
      else
        var k := IndexOf(rest, '"');
        assert line[i + 1 + k] == '"';
        assert QuotedAt(line, i, rest[..k]);
        Some(rest[..k])
  }

  /** A line whose first quote has no quote after it holds only one. */
  lemma NoSecondQuote(line: string, i: nat)
    requires i < |line| && '"' !in line[..i] && '"' !in line[i + 1..]
    ensures !TwoQuotes(line)
  {
    forall a, b | 0 <= a < b < |line| && line[a] == '"'
      ensures line[b] != '"'
    {
      if a >= i {
        assert line[b] == line[i + 1..][b - i - 1];
      }
    }
  }

  /** The quoted text is read back exactly from a line that carries it
      after a quote-free prefix. */
  lemma QuotedRoundTrip(pre: string, v: string, post: string)
    requires '"' !in pre && '"' !in v
    ensures Quoted(pre + "\"" + v + "\"" + post) == Some(v)
  {
    var line := pre + "\"" + v + "\"" + post;
    assert line[|pre|] == '"';
    var i := IndexOf(line, '"');
    assert i == |pre|;
    var rest := line[i + 1..];
    assert rest == v + "\"" + post;
    assert rest[|v|] == '"';
    var k := IndexOf(rest, '"');
    assert k == |v|;
    assert rest[..k] == v;
  }

  /** The compatibility rule: the first '.'-component read by `int()` must
      be at least 17; if it does not parse, a "1.x" string is judged by
      its second component instead. */
  predicate JavaVersionCompatible(v: string) {
    var parts := SplitOn(v, '.');
    match PyInt(parts[0])
    case Some(major) => major >= 17
    case None =>
      StartsWith(v, "1.") && |parts| > 1 && PyInt(parts[1]).Some? && PyInt(parts[1]).value >= 17
  }

  /** `check_java`, given the output of `java -version` (None when the
      command is missing or fails). Only the first line mentioning
      "version" is inspected. */
  function CheckJava(output: Option<string>): (r: JavaInfo)
    ensures r.installed <==> output.Some?
    ensures r.compatible ==> r.installed && r.version.Some? && JavaVersionCompatible(r.version.value)
    ensures r.version.Some? ==> JavaVersionCompatible(r.version.value) == r.compatible
    ensures r.version.None? ==> !r.compatible
    ensures output.Some? ==>
      var lines := SplitOn(output.value, '\n');
      match VersionLine(lines)
      case None => r.version.None?
      case Some(i) => r.version == Quoted(lines[i])
  {
    match output
    case None => JavaInfo(false, None, false)
    case Some(out) =>
      var lines := SplitOn(out, '\n');
      match VersionLine(lines)
      case None => JavaInfo(true, None, false)
      case Some(i) =>
        match Quoted(lines[i])
        case None => JavaInfo(true, None, false)
        case Some(v) => JavaInfo(true, Some(v), JavaVersionCompatible(v))
  }

  /** A version string beginning "1." has first component "1", which
      parses, so the "1." fallback never runs and every such version is
      judged incompatible. */
  lemma LegacyFallbackUnreachable(v: string)
    requires StartsWith(v, "1.")
    ensures PyInt(SplitOn(v, '.')[0]) == Some(1)
    ensures !JavaVersionCompatible(v)
  {
    var parts := SplitOn(v, '.');
    assert v == "1" + "." + v[2..];
    FirstPiece("1", v[2..], '.');
    assert parts[0] == "1";
    assert PyInt("1") == Some(1) by {
      StripTrimmed("1");
      assert Strip("1") == "1";
      assert ParseNat("1") == Some(1) by {
        assert DigitsValue("1") == DigitsValue("") * 10 + DigitValue('1');
      }
    }
  }

  /** `s.split(c)[0]` for `s = a + c + b` with no `c` in `a` is `a`. */
  lemma FirstPiece(a: string, b: string, c: char)
    requires c !in a
    ensures SplitOn(a + [c] + b, c)[0] == a
  {
    var s := a + [c] + b;
    assert s[|a|] == c;
    var i := IndexOf(s, c);
    assert i == |a| && s[..i] == a;
  }

  /** A pre-release build such as "17-ea" has a first component that does
      not parse, and it does not begin "1.", so it is incompatible. */
  lemma EarlyAccessIncompatible()
    ensures !JavaVersionCompatible("17-ea")
  {
    var v := "17-ea";
    assert '.' !in v;
    assert SplitOn(v, '.') == [v];
    assert Strip(v) == v by { StripTrimmed(v); }
    assert !AllDigits(v) by { assert !IsDigit(v[2]); }
    assert v[0] != '-' && v[0] != '+';
    assert v[1] != '.';
  }

  /** The first line that mentions "version" is the one read, wherever
      it stands in the output. */
  lemma {:induction false} VersionLineAfter(before: seq<string>, rest: seq<string>)
    requires forall j :: 0 <= j < |before| ==> !Contains(Lower(before[j]), "version")
    requires rest != [] && Contains(Lower(rest[0]), "version")
    ensures VersionLine(before + rest) == Some(|before|)
    decreases |before|
  {
    if before != [] {
      assert (before + rest)[0] == before[0];
      assert (before + rest)[1..] == before[1..] + rest;
      VersionLineAfter(before[1..], rest);
    } else {
      assert before + rest == rest;
    }
  }

  lemma VersionLineOfReport(before: seq<string>, line: string, after: seq<string>)
    requires forall j :: 0 <= j < |before| ==> !Contains(Lower(before[j]), "version")
    requires Contains(Lower(line), "version")
    ensures VersionLine(before + [line] + after) == Some(|before|)
  {
    var rest := [line] + after;
    assert rest[0] == line;
    VersionLineAfter(before, rest);
    assert before + [line] + after == before + rest;
  }

  /** A report whose first line mentioning "version" is `pre"v"post`,
      followed and preceded by any other lines, is installed, carries
      version `v`, and is compatible exactly when `v` satisfies the rule:
      the shape of `java -version` output, whose first line names the
      version and whose later lines describe the runtime. */
  lemma CheckJavaReadsQuotedVersion(before: seq<string>, pre: string, v: string, post: string, after: seq<string>)
    requires '"' !in pre && '"' !in v && '\n' !in pre + v + post
    requires Contains(Lower(pre), "version")
    requires forall j :: 0 <= j < |before| ==> !Contains(Lower(before[j]), "version") && '\n' !in before[j]
    requires forall j :: 0 <= j < |after| ==> '\n' !in after[j]
    ensures var out := Join(before + [pre + "\"" + v + "\"" + post] + after, '\n');
      CheckJava(Some(out)) == JavaInfo(true, Some(v), JavaVersionCompatible(v))
  {
    var line := pre + "\"" + v + "\"" + post;
    QuotedLineFacts(pre, v, post);
    var lines := before + [line] + after;
    LinesOfReport(before, line, after);
    VersionLineOfReport(before, line, after);
    assert lines[|before|] == line;
    QuotedRoundTrip(pre, v, post);
    CheckJavaOfLines(Join(lines, '\n'), lines, |before|, v);
  }

  /** `check_java` reads the version from the line `VersionLine` picks. */
  lemma CheckJavaOfLines(out: string, lines: seq<string>, i: nat, v: string)
    requires SplitOn(out, '\n') == lines && VersionLine(lines) == Some(i)
    requires i < |lines| && Quoted(lines[i]) == Some(v)
    ensures CheckJava(Some(out)) == JavaInfo(true, Some(v), JavaVersionCompatible(v))
  {
  }

  /** The version line holds no line break and mentions "version" when
      its prefix does. */
  lemma QuotedLineFacts(pre: string, v: string, post: string)
    requires '\n' !in pre + v + post
    ensures var line := pre + "\"" + v + "\"" + post;
      '\n' !in line && (Contains(Lower(pre), "version") ==> Contains(Lower(line), "version"))
  {
    var line := pre + "\"" + v + "\"" + post;
    forall k | 0 <= k < |line| ensures line[k] != '\n' {
      if k < |pre| { assert line[k] == (pre + v + post)[k]; }
      else if k == |pre| || k == |pre| + |v| + 1 { }
      else if k <= |pre| + |v| { assert line[k] == (pre + v + post)[k - 1]; }
      else { assert line[k] == (pre + v + post)[k - 2]; }
    }
    if Contains(Lower(pre), "version") {
      assert Lower(pre) == Lower(line)[..|pre|];
      ContainsSlice(Lower(line), "version", 0, |pre|);
    }
  }

  /** Lines without line breaks are split back out of their join. */
  lemma LinesOfReport(before: seq<string>, line: string, after: seq<string>)
    requires '\n' !in line
    requires forall j :: 0 <= j < |before| ==> '\n' !in before[j]
    requires forall j :: 0 <= j < |after| ==> '\n' !in after[j]
    ensures SplitOn(Join(before + [line] + after, '\n'), '\n') == before + [line] + after
  {
    var lines := before + [line] + after;
    NoBreakInLines(before, line, after);
    SplitOnJoin(lines, '\n');
  }

  lemma NoBreakInLines(before: seq<string>, line: string, after: seq<string>)
    requires '\n' !in line
    requires forall j :: 0 <= j < |before| ==> '\n' !in before[j]
    requires forall j :: 0 <= j < |after| ==> '\n' !in after[j]
    ensures forall j :: 0 <= j < |before + [line] + after| ==> '\n' !in (before + [line] + after)[j]
  {
    var lines := before + [line] + after;
    forall j | 0 <= j < |lines| ensures '\n' !in lines[j] {
      if j < |before| { assert lines[j] == before[j]; }
      else if j > |before| { assert lines[j] == after[j - |before| - 1]; }
    }
  }

  // --------------------------------------------------------- Python check

  /** What `check_python` reports. */
  datatype PythonInfo = PythonInfo(installed: bool, version: string, compatible: bool)

  /** `check_python` as written: compatible iff major >= 3 and minor >= 8,
      each component tested on its own. */
  function CheckPython(major: nat, minor: nat, micro: nat): (r: PythonInfo)
    ensures r.installed
    ensures r.version == NatToString(major) + "." + NatToString(minor) + "." + NatToString(micro)
    ensures r.compatible <==> major >= 3 && minor >= 8
  {
    PythonInfo(true, NatToString(major) + "." + NatToString(minor) + "." + NatToString(micro),
               major >= 3 && minor >= 8)
  }

  /** The per-component test rejects a Python 4.0 interpreter, which is
      newer than the 3.8 the check means to require. */
  lemma CheckPythonRejectsFourZero()
    ensures !CheckPython(4, 0, 0).compatible
    ensures PythonAtLeast(4, 0, 3, 8)
  {
  }

  /** Lexicographic version order: (major, minor) is at least (m, n). */
  predicate PythonAtLeast(major: nat, minor: nat, m: nat, n: nat) {
    major > m || (major == m && minor >= n)
  }

  /** `check_python` as its comment intends: compatible iff the version
      is 3.8 or newer. */
  function CheckPythonIntended(major: nat, minor: nat, micro: nat): (r: PythonInfo)
    ensures r.installed && r.version == CheckPython(major, minor, micro).version
    ensures r.compatible <==> PythonAtLeast(major, minor, 3, 8)
  {
    CheckPython(major, minor, micro).(compatible := major > 3 || (major == 3 && minor >= 8))
  }

  /** The two rules agree on every Python 3 release, and the intended
      rule accepts every later major version. */
  lemma CheckPythonRulesAgreeOnThree(minor: nat, micro: nat)
    ensures CheckPython(3, minor, micro) == CheckPythonIntended(3, minor, micro)
    ensures forall major: nat, mi: nat :: major > 3 ==> CheckPythonIntended(major, mi, micro).compatible
  {
  }
}
