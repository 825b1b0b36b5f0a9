/** The `server.properties` handling of the desktop window: reading the
    file into a key/value map, merging the edited settings back into the
    file's lines, the connection address shown to the user, the file-size
    labels of the file and plugin lists, and which server buttons are
    enabled. File reading and splitting into lines are not modelled: the
    operations take the lines. */
module MainWindow {
  import opened Text
  import ServerManager

  // ------------------------------------------------------------ the parse

  /** A line the parser uses, after stripping: not empty, not a comment,
      and with an '='. */
  predicate IsSetting(stripped: string) {
    stripped != [] && stripped[0] != '#' && '=' in stripped
  }

  /** `line.split('=', 1)` on a line with an '=': the text before the
      first '=' and the text after it. */
  function SplitSetting(line: string): (kv: (string, string))
    requires '=' in line
  {
    var i := IndexOf(line, '=');
    assert line == line[..i] + "=" + line[i + 1..];
    (line[..i], line[i + 1..])
  }

  /** The key and value a line of the file sets, if it is a setting
      line. */
  function Parsed(line: string): (p: Option<(string, string)>)
    ensures p.Some? <==> IsSetting(Strip(line))
  {
    var stripped := Strip(line);
    if IsSetting(stripped) then
      var kv := SplitSetting(stripped);
      Some((Strip(kv.0), Strip(kv.1)))
    else None
  }

  /** `split('=', 1)` cuts at the first '='. */
  lemma SplitSettingShape(line: string)
    requires '=' in line
    ensures var kv := SplitSetting(line); line == kv.0 + "=" + kv.1 && '=' !in kv.0
  {
    var i := IndexOf(line, '=');
    assert line == line[..i] + "=" + line[i + 1..];
  }

  /** A setting line yields a key without '=' and a key and value that
      are already stripped. */
  lemma ParsedShape(line: string)
    requires Parsed(line).Some?
    ensures var kv := Parsed(line).value;
      '=' !in kv.0 && Strip(kv.0) == kv.0 && Strip(kv.1) == kv.1
  {
    var kv := SplitSetting(Strip(line));
    SplitSettingShape(Strip(line));
    StripKeepsChars(kv.0, '=');
    StripIdempotent(kv.0);
    StripIdempotent(kv.1);
  }

  /** What each line of the file sets, in file order. */
  function ParsedLines(lines: seq<string>): (os: seq<Option<(string, string)>>)
    ensures |os| == |lines|
  {
    seq(|lines|, i requires 0 <= i < |lines| => Parsed(lines[i]))
  }

  /** A dictionary filled in order, each present pair overriding any
      earlier value of its key. */
  function FromOptions(os: seq<Option<(string, string)>>): map<string, string> {
    if os == [] then map[]
    else
      var m := FromOptions(os[..|os| - 1]);
      match os[|os| - 1]
      case Some(kv) => m[kv.0 := kv.1]
      case None => m
  }

  /** The map `load_server_properties` builds from the file's lines. */
  function PropertiesOf(lines: seq<string>): map<string, string> {
    FromOptions(ParsedLines(lines))
  }

  lemma PropertiesOfNext(lines: seq<string>, i: nat)
    requires i < |lines|
    ensures var p := Parsed(lines[i]);
      PropertiesOf(lines[..i + 1]) == if p.Some? then PropertiesOf(lines[..i])[p.value.0 := p.value.1] else PropertiesOf(lines[..i])
  {
    ParsedLinesNext(lines, i);
    FromOptionsSnoc(ParsedLines(lines[..i]), Parsed(lines[i]));
  }

  lemma ParsedLinesNext(lines: seq<string>, i: nat)
    requires i < |lines|
    ensures ParsedLines(lines[..i + 1]) == ParsedLines(lines[..i]) + [Parsed(lines[i])]
  {
    var a, b := ParsedLines(lines[..i + 1]), ParsedLines(lines[..i]) + [Parsed(lines[i])];
    forall j | 0 <= j <= i ensures a[j] == b[j] {
      assert lines[..i + 1][j] == lines[j];
    }
  }

  lemma FromOptionsSnoc(os: seq<Option<(string, string)>>, o: Option<(string, string)>)
    ensures FromOptions(os + [o]) == if o.Some? then FromOptions(os)[o.value.0 := o.value.1] else FromOptions(os)
  {
    assert (os + [o])[..|os|] == os;
  }

  /** The loop of `load_server_properties`. */
  method ParseProperties(lines: seq<string>) returns (properties: map<string, string>)
    ensures properties == PropertiesOf(lines)
  {
    properties := map[];
    var i := 0;
    while i < |lines|
      invariant 0 <= i <= |lines|
      invariant properties == PropertiesOf(lines[..i])
    {
      var line := Strip(lines[i]);
      if IsSetting(line) {
        var kv := SplitSetting(line);
        properties := properties[Strip(kv.0) := Strip(kv.1)];
      }
      PropertiesOfNext(lines, i);
      i := i + 1;
    }
    assert lines[..i] == lines;
  }

  /** Entry `i` sets `key`. */
  predicate SetsAt(os: seq<Option<(string, string)>>, i: int, key: string) {
    0 <= i < |os| && os[i].Some? && os[i].value.0 == key
  }

  /** A key is in the dictionary exactly when some entry sets it, and
      its value is that of the last such entry. */
  lemma {:induction false} LastEntryWins(os: seq<Option<(string, string)>>, key: string)
    ensures key in FromOptions(os) <==> exists i :: SetsAt(os, i, key)
    ensures key in FromOptions(os) ==> exists i :: (SetsAt(os, i, key) && os[i].value.1 == FromOptions(os)[key]
      && forall j :: i < j < |os| ==> !SetsAt(os, j, key))
    decreases |os|
  {
    if os != [] {
      var n := |os| - 1;
      var init := os[..n];
      LastEntryWins(init, key);
      assert forall i :: 0 <= i < n ==> init[i] == os[i];
      if SetsAt(os, n, key) {
        assert os[n].value.1 == FromOptions(os)[key];
      } else if key in FromOptions(init) {
        assert key in FromOptions(os) && FromOptions(os)[key] == FromOptions(init)[key];
        var i :| SetsAt(init, i, key) && init[i].value.1 == FromOptions(init)[key]
          && forall j :: i < j < n ==> !SetsAt(init, j, key);
        assert SetsAt(os, i, key);
        forall j | i < j < |os| ensures !SetsAt(os, j, key) {
          if j < n {
            assert !SetsAt(init, j, key);
          }
        }
      } else {
        assert key !in FromOptions(os);
        forall i | 0 <= i < n ensures !SetsAt(os, i, key) {
          assert !SetsAt(init, i, key);
        }
      }
    }
  }

  /** Line `i` of the file sets `key`. */
  predicate LineSets(lines: seq<string>, i: int, key: string) {
    0 <= i < |lines| && Parsed(lines[i]).Some? && Parsed(lines[i]).value.0 == key
  }

  /** A key is in the parsed map exactly when some setting line defines
      it, and its value is the one given by the last such line. */
  lemma LastSettingWins(lines: seq<string>, key: string)
    ensures key in PropertiesOf(lines) <==> exists i :: LineSets(lines, i, key)
    ensures key in PropertiesOf(lines) ==> exists i :: (LineSets(lines, i, key)
      && Parsed(lines[i]).value.1 == PropertiesOf(lines)[key]
      && forall j :: i < j < |lines| ==> !LineSets(lines, j, key))
  {
    var os := ParsedLines(lines);
    assert forall i :: SetsAt(os, i, key) <==> LineSets(lines, i, key);
    LastEntryWins(os, key);
  }

  // ------------------------------------------------------------ the merge

  /** The settings the Properties tab manages, as an ordered dictionary:
      a sequence of pairs whose keys are distinct. */
  predicate DistinctKeys(props: seq<(string, string)>) {
    forall i, j :: 0 <= i < j < |props| ==> props[i].0 != props[j].0
  }

  predicate IsKey(props: seq<(string, string)>, k: string) {
    exists i :: 0 <= i < |props| && props[i].0 == k
  }

  /** `properties[k]` for a managed key. */
  function ValueOf(props: seq<(string, string)>, k: string): (v: string)
    requires IsKey(props, k)
    ensures exists i :: 0 <= i < |props| && props[i] == (k, v)
  {
    if props[0].0 == k then props[0].1 else ValueOf(props[1..], k)
  }

  /** A line the merge looks at: it has an '=' and is not a comment. */
  predicate HasKey(line: string) {
    '=' in line && !StartsWith(Strip(line), "#")
  }

  /** The key such a line sets: the stripped text before the first '='. */
  function KeyOf(line: string): (k: Option<string>)
    ensures k.Some? <==> HasKey(line)
  {
    if HasKey(line) then Some(Strip(SplitSetting(line).0)) else None
  }

  function Entry(k: string, v: string): string {
    k + "=" + v + "\n"
  }

  /** What the merge writes for one input line: a line setting a managed
      key becomes `key=value\n`; every other line is copied verbatim. */
  function MergedLine(line: string, props: seq<(string, string)>): string {
    match KeyOf(line)
    case Some(k) => if IsKey(props, k) then Entry(k, ValueOf(props, k)) else line
    case None => line
  }

  /** The keys of the file's lines, in file order. */
  function KeysOf(lines: seq<string>): (ks: seq<Option<string>>)
    ensures |ks| == |lines|
  {
    seq(|lines|, i requires 0 <= i < |lines| => KeyOf(lines[i]))
  }

  /** The managed keys among `ks`. */
  function Used(ks: seq<Option<string>>, props: seq<(string, string)>): set<string> {
    if ks == [] then {}
    else
      var k := ks[|ks| - 1];
      Used(ks[..|ks| - 1], props) + if k.Some? && IsKey(props, k.value) then {k.value} else {}
  }

  /** The managed keys some line of the file sets (`used_keys`). */
  function UsedKeys(lines: seq<string>, props: seq<(string, string)>): set<string> {
    Used(KeysOf(lines), props)
  }

  lemma {:induction false} UsedMembers(ks: seq<Option<string>>, props: seq<(string, string)>, k: string)
    ensures k in Used(ks, props) <==> IsKey(props, k) && Some(k) in ks
    decreases |ks|
  {
    if ks != [] {
      var n := |ks| - 1;
      UsedMembers(ks[..n], props, k);
      assert ks == ks[..n] + [ks[n]];
    }
  }

  /** A managed key is used exactly when some line of the file sets it. */
  lemma UsedKeysMembers(lines: seq<string>, props: seq<(string, string)>, k: string)
    ensures k in UsedKeys(lines, props) <==>
      IsKey(props, k) && exists i :: 0 <= i < |lines| && KeyOf(lines[i]) == Some(k)
  {
    var ks := KeysOf(lines);
    UsedMembers(ks, props, k);
    if Some(k) in ks {
      var i :| 0 <= i < |ks| && ks[i] == Some(k);
      assert KeyOf(lines[i]) == Some(k);
    }
    if exists i :: 0 <= i < |lines| && KeyOf(lines[i]) == Some(k) {
      var i :| 0 <= i < |lines| && KeyOf(lines[i]) == Some(k);
      assert ks[i] == Some(k);
    }
  }

  lemma UsedKeysNext(lines: seq<string>, props: seq<(string, string)>, i: nat)
    requires i < |lines|
    ensures var k := KeyOf(lines[i]);
      UsedKeys(lines[..i + 1], props) ==
        UsedKeys(lines[..i], props) + if k.Some? && IsKey(props, k.value) then {k.value} else {}
  {
    var ks := KeysOf(lines[..i + 1]);
    forall j | 0 <= j < i ensures ks[j] == KeysOf(lines[..i])[j] {
      assert lines[..i + 1][j] == lines[..i][j];
    }
    assert ks[..i] == KeysOf(lines[..i]);
    assert ks[i] == KeyOf(lines[i]);
  }

  /** The entries appended for managed keys the file never set, in
      dictionary order. */
  function Appended(props: seq<(string, string)>, used: set<string>): (r: seq<string>)
    ensures |r| <= |props|
  {
    if props == [] then []
    else (if props[0].0 in used then [] else [Entry(props[0].0, props[0].1)]) + Appended(props[1..], used)
  }

  /** The file's lines after rewriting. */
  function Rewritten(lines: seq<string>, props: seq<(string, string)>): (r: seq<string>)
    ensures |r| == |lines|
  {
    seq(|lines|, i requires 0 <= i < |lines| => MergedLine(lines[i], props))
  }

  lemma RewrittenNext(lines: seq<string>, props: seq<(string, string)>, i: nat)
    requires i < |lines|
    ensures Rewritten(lines[..i + 1], props) == Rewritten(lines[..i], props) + [MergedLine(lines[i], props)]
  {
    var a, b := Rewritten(lines[..i + 1], props), Rewritten(lines[..i], props) + [MergedLine(lines[i], props)];
    forall j | 0 <= j <= i ensures a[j] == b[j] {
      assert lines[..i + 1][j] == lines[j];
    }
  }

  /** The file `save_server_properties` writes. */
  function Merged(lines: seq<string>, props: seq<(string, string)>): seq<string> {
    Rewritten(lines, props) + Appended(props, UsedKeys(lines, props))
  }

  /** The loops of `save_server_properties`. */
  method MergeProperties(lines: seq<string>, props: seq<(string, string)>)
    returns (updated: seq<string>, used: set<string>)
    ensures used == UsedKeys(lines, props)
    ensures updated == Merged(lines, props)
  {
    updated := [];
    used := {};
    var i := 0;
    while i < |lines|
      invariant 0 <= i <= |lines|
      invariant updated == Rewritten(lines[..i], props)
      invariant used == UsedKeys(lines[..i], props)
    {
      var out, key := RewriteLine(lines[i], props);
      updated := updated + [out];
      if key.Some? {
        used := used + {key.value};
      }
      RewrittenNext(lines, props, i);
      UsedKeysNext(lines, props, i);
      i := i + 1;
    }
    assert lines[..i] == lines;
    updated := AppendUnused(updated, props, used);
  }

  /** One pass of the first loop: the line written for `line`, and the
      managed key it sets, if any. */
  method RewriteLine(line: string, props: seq<(string, string)>) returns (out: string, key: Option<string>)
    ensures out == MergedLine(line, props)
    ensures key.Some? <==> KeyOf(line).Some? && IsKey(props, KeyOf(line).value)
    ensures key.Some? ==> key == KeyOf(line)
  {
    var k := KeyOf(line);
    if k.Some? && IsKey(props, k.value) {
      out, key := Entry(k.value, ValueOf(props, k.value)), k;
    } else {
      out, key := line, None;
    }
  }

  /** The second loop of `save_server_properties`: every managed key not
      met in the file is appended, in the managed order. */
  method AppendUnused(head: seq<string>, props: seq<(string, string)>, used: set<string>)
    returns (updated: seq<string>)
    ensures updated == head + Appended(props, used)
  {
    updated := head;
    var k := 0;
    while k < |props|
      invariant 0 <= k <= |props|
      invariant updated == head + Appended(props[..k], used)
    {
      if props[k].0 !in used {
        updated := updated + [Entry(props[k].0, props[k].1)];
      }
      AppendedSnoc(props[..k], props[k], used);
      assert props[..k + 1] == props[..k] + [props[k]];
      k := k + 1;
    }
    assert props[..k] == props;
  }

  lemma {:induction false} AppendedSnoc(props: seq<(string, string)>, p: (string, string), used: set<string>)
    ensures Appended(props + [p], used) == Appended(props, used) + (if p.0 in used then [] else [Entry(p.0, p.1)])
    decreases |props|
  {
    if props == [] {
      assert props + [p] == [p];
    } else {
      assert (props + [p])[1..] == props[1..] + [p];
      AppendedSnoc(props[1..], p, used);
    }
  }

  lemma ValueOfDistinct(props: seq<(string, string)>, idx: nat)
    requires DistinctKeys(props) && idx < |props|
    ensures IsKey(props, props[idx].0) && ValueOf(props, props[idx].0) == props[idx].1
  {
    var v := ValueOf(props, props[idx].0);
    var j :| 0 <= j < |props| && props[j] == (props[idx].0, v);
    assert j == idx;
  }

  lemma {:induction false} AppendedHas(props: seq<(string, string)>, used: set<string>, idx: nat)
    requires idx < |props| && props[idx].0 !in used
    ensures Entry(props[idx].0, props[idx].1) in Appended(props, used)
    decreases |props|
  {
    if idx > 0 {
      AppendedHas(props[1..], used, idx - 1);
    }
  }

  /** A line whose key is a managed one is rewritten to that key's entry. */
  lemma RewrittenManagedLine(lines: seq<string>, props: seq<(string, string)>, idx: nat, i: nat)
    requires DistinctKeys(props) && idx < |props| && i < |lines|
    requires KeyOf(lines[i]) == Some(props[idx].0)
    ensures Rewritten(lines, props)[i] == Entry(props[idx].0, props[idx].1)
  {
    ValueOfDistinct(props, idx);
  }

  /** Every managed key is set in the merged file to its managed value:
      by a rewritten line if the file had one, otherwise by an appended
      entry. */
  lemma EveryManagedKeyWritten(lines: seq<string>, props: seq<(string, string)>, idx: nat)
    requires DistinctKeys(props) && idx < |props|
    ensures Entry(props[idx].0, props[idx].1) in Merged(lines, props)
  {
    var out := Merged(lines, props);
    var k := props[idx].0;
    UsedKeysMembers(lines, props, k);
    if k in UsedKeys(lines, props) {
      var i :| 0 <= i < |lines| && KeyOf(lines[i]) == Some(k);
      RewrittenManagedLine(lines, props, idx, i);
      assert out[i] == Rewritten(lines, props)[i];
    } else {
      AppendedHas(props, UsedKeys(lines, props), idx);
    }
  }

  /** Only managed keys the file lacks are appended: every appended entry
      is a managed pair whose key no line of the file sets. */
  lemma {:induction false} AppendedOnlyMissing(props: seq<(string, string)>, used: set<string>, e: string)
    requires e in Appended(props, used)
    ensures exists i :: 0 <= i < |props| && e == Entry(props[i].0, props[i].1) && props[i].0 !in used
    decreases |props|
  {
    if props[0].0 !in used && e == Entry(props[0].0, props[0].1) {
    } else {
      AppendedOnlyMissing(props[1..], used, e);
      var i :| 0 <= i < |props[1..]| && e == Entry(props[1..][i].0, props[1..][i].1) && props[1..][i].0 !in used;
      assert props[i + 1] == props[1..][i];
    }
  }

  /** The file's own lines keep their places: comments and lines that
      set no managed key are copied verbatim, and a line setting a
      managed key is rewritten to that key with its managed value. */
  lemma MergedLinesInPlace(lines: seq<string>, props: seq<(string, string)>, i: nat)
    requires DistinctKeys(props) && i < |lines|
    ensures |Merged(lines, props)| >= |lines|
    ensures StartsWith(Strip(lines[i]), "#") ==> Merged(lines, props)[i] == lines[i]
    ensures (KeyOf(lines[i]).None? || !IsKey(props, KeyOf(lines[i]).value)) ==> Merged(lines, props)[i] == lines[i]
    ensures KeyOf(lines[i]).Some? && IsKey(props, KeyOf(lines[i]).value) ==>
      exists j :: 0 <= j < |props| && props[j].0 == KeyOf(lines[i]).value
        && Merged(lines, props)[i] == Entry(props[j].0, props[j].1)
  {
  }

  // ------------------------------------------------- the text written back

  /** `f.writelines(chunks)`: the chunks written one after another, with
      no separator added. */
  function Concat(chunks: seq<string>): (text: string)
    ensures chunks != [] ==> StartsWith(text, chunks[0])
  {
    if chunks == [] then [] else chunks[0] + Concat(chunks[1..])
  }

  /** As written, a file whose last line has no line break and sets no
      managed key gets the first missing entry written onto that same
      line: the saved text starts with the old line immediately followed
      by `key=value`, so neither line reads as it should. */
  lemma UnterminatedLastLineGluesEntry(line: string, props: seq<(string, string)>)
    requires DistinctKeys(props) && props != []
    requires '\n' !in line
    requires KeyOf(line).None? || !IsKey(props, KeyOf(line).value)
    ensures Merged([line], props) == [line] + Appended(props, {})
    ensures StartsWith(Concat(Merged([line], props)), line + Entry(props[0].0, props[0].1))
  {
    var k := props[0].0;
    UsedKeysMembers([line], props, k);
    forall key ensures key !in UsedKeys([line], props) {
      UsedKeysMembers([line], props, key);
    }
    assert UsedKeys([line], props) == {};
    assert Rewritten([line], props) == [line];
    var e := Entry(props[0].0, props[0].1);
    var tail := Appended(props[1..], {});
    assert Appended(props, {}) == [e] + tail;
    var out := [line] + ([e] + tail);
    assert Merged([line], props) == out;
    assert out[1..] == [e] + tail;
    assert Concat(out) == line + (e + Concat(tail));
    assert line + (e + Concat(tail)) == (line + e) + Concat(tail);
  }

  /** The file's chunks with a line break added to the last one when it
      lacks it. */
  function Terminated(lines: seq<string>): (r: seq<string>)
    ensures |r| == |lines|
    ensures forall i :: 0 <= i < |lines| - 1 ==> r[i] == lines[i]
    ensures lines != [] ==> EndsWith(r[|r| - 1], "\n")
    ensures lines != [] && EndsWith(lines[|lines| - 1], "\n") ==> r == lines
  {
    if lines == [] || EndsWith(lines[|lines| - 1], "\n") then lines
    else
      var last := lines[|lines| - 1] + "\n";
      assert last[|last| - 1..] == "\n";
      lines[..|lines| - 1] + [last]
  }

  /** The merge as intended: the same rewrite and appends over the
      terminated chunks. */
  function MergedIntended(lines: seq<string>, props: seq<(string, string)>): seq<string> {
    Merged(Terminated(lines), props)
  }

  lemma EntryTerminated(k: string, v: string)
    ensures EndsWith(Entry(k, v), "\n")
  {
    var e := Entry(k, v);
    assert e[|e| - 1..] == "\n";
  }

  /** With the last line terminated, every chunk written is a whole line
      (it ends with the only line break it holds when the file's own
      lines do), and every managed key still gets its entry. The file's
      chunks come from `readlines()`, so each but the last ends with a
      line break. */
  lemma MergedIntendedTerminated(lines: seq<string>, props: seq<(string, string)>)
    requires forall i :: 0 <= i < |lines| - 1 ==> EndsWith(lines[i], "\n")
    requires DistinctKeys(props)
    ensures forall c :: c in MergedIntended(lines, props) ==> EndsWith(c, "\n")
    ensures forall idx :: 0 <= idx < |props| ==> Entry(props[idx].0, props[idx].1) in MergedIntended(lines, props)
  {
    var t := Terminated(lines);
    forall i | 0 <= i < |t| ensures EndsWith(t[i], "\n") {
      if i < |lines| - 1 {
        assert t[i] == lines[i];
      }
    }
    RewrittenTerminated(t, props);
    AppendedTerminated(props, UsedKeys(t, props));
    forall idx | 0 <= idx < |props| ensures Entry(props[idx].0, props[idx].1) in MergedIntended(lines, props) {
      EveryManagedKeyWritten(t, props, idx);
    }
  }

  /** Rewriting keeps every chunk terminated. */
  lemma RewrittenTerminated(t: seq<string>, props: seq<(string, string)>)
    requires forall i :: 0 <= i < |t| ==> EndsWith(t[i], "\n")
    ensures forall c :: c in Rewritten(t, props) ==> EndsWith(c, "\n")
  {
    forall i | 0 <= i < |t| ensures EndsWith(MergedLine(t[i], props), "\n") {
      match KeyOf(t[i])
      case Some(k) =>
        if IsKey(props, k) {
          EntryTerminated(k, ValueOf(props, k));
        }
      case None =>
    }
  }

  /** Every appended entry is terminated. */
  lemma AppendedTerminated(props: seq<(string, string)>, used: set<string>)
    ensures forall c :: c in Appended(props, used) ==> EndsWith(c, "\n")
  {
    forall c | c in Appended(props, used) ensures EndsWith(c, "\n") {
      AppendedOnlyMissing(props, used, c);
      var j :| 0 <= j < |props| && c == Entry(props[j].0, props[j].1) && props[j].0 !in used;
      EntryTerminated(props[j].0, props[j].1);
    }
  }

  // -------------------------------------------------------- managed values

  /** The widget values of the Properties tab. */
  datatype Ui = Ui(
    onlineMode: bool, serverIp: string, serverPort: nat, maxPlayers: nat, motd: string,
    resourcePack: string, requireResourcePack: bool, gamemode: string, difficulty: string,
    hardcore: bool, pvp: bool, levelName: string, levelType: string, generateStructures: bool)

  function Flag(b: bool): string { if b then "true" else "false" }

  /** The dictionary `save_server_properties` writes, in its order. An
      empty (after stripping) message of the day or level name falls back
      to "A Minecraft Server" and "world". */
  function ManagedProperties(ui: Ui): seq<(string, string)> {
    Zip(ManagedKeys, ManagedValues(ui))
  }

  /** Keys paired with values, in order. */
  function Zip(keys: seq<string>, values: seq<string>): (p: seq<(string, string)>)
    requires |keys| == |values|
    ensures |p| == |keys| && forall i :: 0 <= i < |p| ==> p[i] == (keys[i], values[i])
  {
    seq(|keys|, i requires 0 <= i < |keys| => (keys[i], values[i]))
  }

  /** The keys of the managed dictionary, in its order. */
  const ManagedKeys: seq<string> := [
    "online-mode", "server-ip", "server-port", "max-players", "motd", "resource-pack",
    "require-resource-pack", "gamemode", "difficulty", "hardcore", "pvp", "level-name",
    "level-type", "generate-structures"]

  /** Python's `s or fallback` on strings. */
  function Or(s: string, fallback: string): (r: string)
    ensures s != [] ==> r == s
    ensures s == [] ==> r == fallback
  {
    if s == [] then fallback else s
  }

  /** Their values, in the same order. */
  function ManagedValues(ui: Ui): (vs: seq<string>)
    ensures |vs| == |ManagedKeys|
  {
    seq(|ManagedKeys|, i requires 0 <= i < |ManagedKeys| => ManagedValue(ui, i))
  }

  /** The value written for the key `ManagedKeys[i]`. */
  function ManagedValue(ui: Ui, i: nat): string {
    if i == 0 then Flag(ui.onlineMode)
    else if i == 1 then Strip(ui.serverIp)
    else if i == 2 then NatToString(ui.serverPort)
    else if i == 3 then NatToString(ui.maxPlayers)
    else if i == 4 then Or(Strip(ui.motd), "A Minecraft Server")
    else if i == 5 then Strip(ui.resourcePack)
    else if i == 6 then Flag(ui.requireResourcePack)
    else if i == 7 then ui.gamemode
    else if i == 8 then ui.difficulty
    else if i == 9 then Flag(ui.hardcore)
    else if i == 10 then Flag(ui.pvp)
    else if i == 11 then Or(Strip(ui.levelName), "world")
    else if i == 12 then ui.levelType
    else Flag(ui.generateStructures)
  }

  /** The managed dictionary has the fourteen keys above, which are
      distinct, so each is written once. */
  lemma ManagedKeysDistinct()
    ensures forall i, j :: 0 <= i < j < |ManagedKeys| ==> ManagedKeys[i] != ManagedKeys[j]
  {
    forall i, j | 0 <= i < j < |ManagedKeys| ensures ManagedKeys[i] != ManagedKeys[j] {
      var a, b := ManagedKeys[i], ManagedKeys[j];
      assert |a| != |b| || a[0] != b[0] || a[|a| - 2] != b[|b| - 2];
    }
  }

  /** The managed dictionary has distinct keys. */
  lemma ManagedPropertiesDistinct(ui: Ui)
    ensures DistinctKeys(ManagedProperties(ui))
  {
    ManagedZipDistinct(ManagedValues(ui));
  }

  lemma ManagedZipDistinct(values: seq<string>)
    requires |values| == |ManagedKeys|
    ensures DistinctKeys(Zip(ManagedKeys, values))
  {
    ManagedKeysDistinct();
    var p := Zip(ManagedKeys, values);
    forall i, j | 0 <= i < j < |p| ensures p[i].0 != p[j].0 {
      assert p[i].0 == ManagedKeys[i] && p[j].0 == ManagedKeys[j];
    }
  }

  /** Each managed key is written with its value. */
  lemma ManagedEntryWritten(lines: seq<string>, values: seq<string>, idx: nat)
    requires |values| == |ManagedKeys| && idx < |ManagedKeys|
    ensures Entry(ManagedKeys[idx], values[idx]) in Merged(lines, Zip(ManagedKeys, values))
  {
    ManagedZipDistinct(values);
    EveryManagedKeyWritten(lines, Zip(ManagedKeys, values), idx);
  }

  lemma ManagedKeyNames()
    ensures ManagedKeys[2] == "server-port" && ManagedKeys[4] == "motd" && ManagedKeys[11] == "level-name"
  {
  }

  /** The message of the day is never written empty: a blank field
      falls back to "A Minecraft Server", anything else is written
      stripped. */
  lemma MotdFallback(ui: Ui)
    ensures ManagedValues(ui)[4] == Or(Strip(ui.motd), "A Minecraft Server")
  {
  }

  /** The level name is never written empty: a blank field falls back to
      "world", anything else is written stripped. */
  lemma LevelNameFallback(ui: Ui)
    ensures ManagedValues(ui)[11] == Or(Strip(ui.levelName), "world")
  {
  }

  /** The port is written in decimal. */
  lemma PortWritten(ui: Ui)
    ensures ManagedValues(ui)[2] == NatToString(ui.serverPort)
  {
  }

  /** Whatever the file held before, the saved file has a non-empty
      `motd=` line. */
  lemma MotdAlwaysWritten(lines: seq<string>, ui: Ui)
    ensures var motd := Or(Strip(ui.motd), "A Minecraft Server");
      && motd != [] && (Strip(ui.motd) != [] ==> motd == Strip(ui.motd))
      && Entry("motd", motd) in Merged(lines, ManagedProperties(ui))
  {
    MotdFallback(ui);
    ManagedKeyNames();
    ManagedEntryWritten(lines, ManagedValues(ui), 4);
  }

  /** Whatever the file held before, the saved file has a non-empty
      `level-name=` line. */
  lemma LevelNameAlwaysWritten(lines: seq<string>, ui: Ui)
    ensures var name := Or(Strip(ui.levelName), "world");
      && name != [] && (Strip(ui.levelName) != [] ==> name == Strip(ui.levelName))
      && Entry("level-name", name) in Merged(lines, ManagedProperties(ui))
  {
    LevelNameFallback(ui);
    ManagedKeyNames();
    ManagedEntryWritten(lines, ManagedValues(ui), 11);
  }

  /** The saved file has a `server-port=` line whose value reads back as
      the port chosen. */
  lemma PortAlwaysWritten(lines: seq<string>, ui: Ui)
    ensures ParseNat(NatToString(ui.serverPort)) == Some(ui.serverPort)
    ensures Entry("server-port", NatToString(ui.serverPort)) in Merged(lines, ManagedProperties(ui))
  {
    PortWritten(ui);
    ManagedKeyNames();
    ManagedEntryWritten(lines, ManagedValues(ui), 2);
    NatToStringRoundTrip(ui.serverPort);
  }

  // ----------------------------------------------------- connection display

  /** The address `update_connection_display` shows. */
  datatype Connection = Connection(host: string, port: string)

  /** The address after one more line: a `server-ip=` line with a
      non-empty value sets the host; a `server-port=` line sets the port;
      any other line changes nothing. */
  function ConnectionStep(c: Connection, line: string): Connection {
    if StartsWith(line, "server-ip=") then
      var v := Strip(line[10..]);
      if v != [] then c.(host := v) else c
    else if StartsWith(line, "server-port=") then c.(port := Strip(line[12..]))
    else c
  }

  /** The address after the given lines, starting from localhost:25565. */
  function ConnectionOf(lines: seq<string>): Connection {
    if lines == [] then Connection("localhost", "25565")
    else ConnectionStep(ConnectionOf(lines[..|lines| - 1]), lines[|lines| - 1])
  }

  lemma ConnectionOfNext(lines: seq<string>, i: nat)
    requires i < |lines|
    ensures ConnectionOf(lines[..i + 1]) == ConnectionStep(ConnectionOf(lines[..i]), lines[i])
  {
    var l := lines[..i + 1];
    assert l[..|l| - 1] == lines[..i];
    assert l[|l| - 1] == lines[i];
  }

  /** After a prefix ending in its only '=', `split('=', 1)[1]` is the
      rest of the line. */
  lemma SplitAfterPrefix(line: string, prefix: string)
    requires StartsWith(line, prefix) && prefix != [] && prefix[|prefix| - 1] == '='
    requires '=' !in prefix[..|prefix| - 1]
    ensures '=' in line && SplitSetting(line).1 == line[|prefix|..]
  {
    var k := |prefix| - 1;
    assert line[k] == prefix[k];
  }

  /** One line's effect, in the terms the parse loop computes it. */
  lemma ConnectionStepSplit(c: Connection, line: string)
    ensures StartsWith(line, "server-ip=") ==> ('=' in line &&
      ConnectionStep(c, line) == (var v := Strip(SplitSetting(line).1); if v != [] then c.(host := v) else c))
    ensures !StartsWith(line, "server-ip=") && StartsWith(line, "server-port=") ==> ('=' in line &&
      ConnectionStep(c, line) == c.(port := Strip(SplitSetting(line).1)))
    ensures !StartsWith(line, "server-ip=") && !StartsWith(line, "server-port=") ==> ConnectionStep(c, line) == c
  {
    if StartsWith(line, "server-ip=") {
      SplitAfterPrefix(line, "server-ip=");
    } else if StartsWith(line, "server-port=") {
      SplitAfterPrefix(line, "server-port=");
    }
  }

  /** The parse loop of `update_connection_display`. */
  method ConnectionTarget(lines: seq<string>) returns (host: string, port: string)
    ensures Connection(host, port) == ConnectionOf(lines)
  {
    host, port := "localhost", "25565";
    var i := 0;
    while i < |lines|
      invariant 0 <= i <= |lines|
      invariant Connection(host, port) == ConnectionOf(lines[..i])
    {
      var line := lines[i];
      ConnectionStepSplit(Connection(host, port), line);
      ConnectionOfNext(lines, i);
      if StartsWith(line, "server-ip=") {
        var v := Strip(SplitSetting(line).1);
        if v != [] {
          host := v;
        }
      } else if StartsWith(line, "server-port=") {
        port := Strip(SplitSetting(line).1);
      }
      i := i + 1;
    }
    assert lines[..i] == lines;
  }

  /** The host is never empty, and a file without `server-port=` lines
      shows port 25565. */
  lemma {:induction false} ConnectionDefaults(lines: seq<string>)
    ensures ConnectionOf(lines).host != []
    ensures (forall i :: 0 <= i < |lines| ==> !StartsWith(lines[i], "server-port=")) ==>
      ConnectionOf(lines).port == "25565"
    decreases |lines|
  {
    if lines != [] {
      var init := lines[..|lines| - 1];
      assert forall i :: 0 <= i < |init| ==> init[i] == lines[i];
      ConnectionDefaults(init);
    }
  }

  /** A later `server-port=` line wins over everything before it, and a
      later line that is neither kind changes nothing. */
  lemma LastPortWins(lines: seq<string>, value: string, other: string)
    requires !StartsWith(other, "server-ip=") && !StartsWith(other, "server-port=")
    ensures ConnectionOf(lines + ["server-port=" + value]).port == Strip(value)
    ensures ConnectionOf(lines + [other]) == ConnectionOf(lines)
  {
    var l := lines + ["server-port=" + value];
    assert l[..|l| - 1] == lines;
    assert StartsWith("server-port=" + value, "server-port=");
    assert ("server-port=" + value)[12..] == value;
    assert !StartsWith("server-port=" + value, "server-ip=") by {
      assert ("server-port=" + value)[7] != "server-ip="[7];
    }
    var m := lines + [other];
    assert m[..|m| - 1] == lines;
  }

  // ------------------------------------------------------------ size labels

  /** The unit a size is counted in, in bytes. */
  function Scale(unit: string): nat {
    if unit == "B" then 1 else if unit == "KB" then 1024 else 1024 * 1024
  }

  /** The size label of `add_file_item`: bytes below 1 KiB, whole KiB
      below 1 MiB, whole MiB above. */
  function FileSizeLabel(size: nat): string {
    if size < 1024 then NatToString(size) + " B"
    else if size < 1024 * 1024 then NatToString(size / 1024) + " KB"
    else NatToString(size / (1024 * 1024)) + " MB"
  }

  /** The size label of `refresh_plugins`: whole KiB below 1 MiB (so a
      file under 1 KiB shows "0 KB"), whole MiB above. */
  function PluginSizeLabel(size: nat): string {
    if size < 1024 * 1024 then NatToString(size / 1024) + " KB"
    else NatToString(size / (1024 * 1024)) + " MB"
  }

  /** `n` whole units of `scale` bytes, rounded down, make `size`. */
  predicate CountsIn(size: nat, n: nat, scale: nat) {
    n * scale <= size < (n + 1) * scale
  }

  /** A file label names the number `n` and the unit it counts in: the
      size rounded down to that unit; the unit is the largest of B, KB,
      MB the size reaches, and a KB figure lies in 1..1023. */
  lemma FileSizeLabelMeaning(size: nat)
    ensures exists n: nat, unit :: (unit in ["B", "KB", "MB"] && FileSizeLabel(size) == NatToString(n) + " " + unit
      && CountsIn(size, n, Scale(unit))
      && (unit == "B" <==> size < 1024) && (unit == "KB" ==> 1 <= n < 1024) && (unit == "MB" ==> n >= 1))
  {
    if size < 1024 {
      assert FileSizeLabel(size) == NatToString(size) + " " + "B";
      assert CountsIn(size, size, Scale("B"));
    } else if size < 1024 * 1024 {
      var n := size / 1024;
      assert CountsIn(size, n, 1024) && 1 <= n < 1024;
      assert FileSizeLabel(size) == NatToString(n) + " " + "KB";
      assert Scale("KB") == 1024;
    } else {
      var n := size / (1024 * 1024);
      assert CountsIn(size, n, 1024 * 1024) && n >= 1;
      assert FileSizeLabel(size) == NatToString(n) + " " + "MB";
      assert Scale("MB") == 1024 * 1024 by { assert "MB" != "B" && "MB" != "KB"; }
    }
  }

  /** The label's number is recovered by reading its digits back. */
  lemma FileSizeLabelNumber(size: nat)
    ensures var n := if size < 1024 then size else if size < 1024 * 1024 then size / 1024 else size / (1024 * 1024);
      var shown := FileSizeLabel(size); var digits := NatToString(n);
      shown[..|digits|] == digits && ParseNat(shown[..|digits|]) == Some(n) && shown[|digits|] == ' '
  {
    var n := if size < 1024 then size else if size < 1024 * 1024 then size / 1024 else size / (1024 * 1024);
    NatToStringRoundTrip(n);
  }

  /** The two lists agree from 1 KiB up; below it the plugin list shows
      "0 KB" where the file list shows bytes. */
  lemma SizeLabelsAgreeFromOneKiB(size: nat)
    ensures size >= 1024 ==> PluginSizeLabel(size) == FileSizeLabel(size)
    ensures size < 1024 ==> PluginSizeLabel(size) == "0 KB"
    ensures size < 1024 ==> FileSizeLabel(size) != "0 KB"
  {
    if size < 1024 {
      assert NatToString(0) == "0";
      var shown := FileSizeLabel(size);
      assert shown == NatToString(size) + " B";
      assert shown[|shown| - 2] == ' ';
    }
  }

  // ---------------------------------------------------------------- buttons

  /** Which of start, stop and restart are enabled. */
  datatype Buttons = Buttons(start: bool, stop: bool, restart: bool)

  /** `ServerCard.update_buttons`. */
  function ButtonStates(status: string): (b: Buttons)
    ensures b.start <==> status != "running"
    ensures b.stop == b.restart && b.stop == !b.start
  {
    var running := status == "running";
    Buttons(!running, running, running)
  }

  /** After a completed stop the card offers start and nothing else;
      after the readiness marker it offers stop and restart. */
  lemma ButtonsFollowLifecycle(s: ServerManager.MinecraftServer, live: set<int>, writeOk: bool,
                               raw: string, stamp: string)
    ensures ServerManager.Stop(s, live, writeOk).ok ==>
      ButtonStates(ServerManager.Stop(s, live, writeOk).server.status) == Buttons(true, false, false)
    ensures Strip(raw) != [] && ServerManager.ReadyMarker(Strip(raw)) ==>
      ButtonStates(ServerManager.LineRead(s, raw, stamp).status) == Buttons(false, true, true)
  {
  }
}
