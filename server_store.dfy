/** The unified server-record store: a JSON file mapping a server name to
    its record, shared by the desktop and the web panel.

    The filesystem is a map from path to content. A file holds either a
    JSON document or bytes that do not parse. The outcome of the I/O steps
    of a save (writing the temporary file, moving it over the target) is
    an input: `writeOk`. */
module ServerStore {
  import opened Json
  import Text

  /** The nine fields every stored record carries. */
  const SchemaKeys: set<string> :=
    {"name", "path", "jar", "min_ram", "max_ram", "port", "storage_limit", "pid", "status"}

  /** The record the store would write for `key` if the input gave no field. */
  function DefaultRecord(key: string): (d: map<string, Json>)
    ensures d.Keys == SchemaKeys
  {
    map[
      "name" := JStr(key),
      "path" := JStr("servers/" + key),
      "jar" := JStr("paper-1.20.1.jar"),
      "min_ram" := JStr("512M"),
      "max_ram" := JStr("1024M"),
      "port" := JInt(25565),
      "storage_limit" := JInt(10),
      "pid" := JNull,
      "status" := JStr("stopped")
    ]
  }

  /** One record: every schema field from the input or its default, then
      every extra field of the input unchanged. */
  function NormalizeRecord(key: string, rec: map<string, Json>): map<string, Json> {
    var defaults := DefaultRecord(key);
    var schema := map f | f in SchemaKeys :: Get(rec, f, defaults[f]);
    var extras := map f | f in rec && f !in SchemaKeys :: rec[f];
    schema + extras
  }

  /** A normalised record is the default record overlaid with the input:
      every input field keeps its value, every missing schema field gets
      its default, nothing else is added. */
  lemma NormalizeRecordIsOverlay(key: string, rec: map<string, Json>)
    ensures NormalizeRecord(key, rec) == DefaultRecord(key) + rec
  {
    var r := NormalizeRecord(key, rec);
    var o := DefaultRecord(key) + rec;
    assert r.Keys == o.Keys;
    forall k | k in r ensures r[k] == o[k] {
    }
  }

  /** `_validate_and_normalize`: anything but an object becomes the empty
      map; entries whose value is not an object are dropped; every kept
      record is normalised under its own key. */
  function Normalize(data: Json): (r: map<string, Json>)
    ensures !data.JObj? ==> r == map[]
    ensures data.JObj? ==> forall k :: k in r <==> k in data.fields && data.fields[k].JObj?
    ensures forall k :: k in r ==> r[k].JObj?
  {
    if !data.JObj? then map[]
    else
      var d := data.fields;
      map k | k in d && d[k].JObj? :: JObj(NormalizeRecord(k, d[k].fields))
  }

  /** Every normalised record has all schema fields; each takes the
      input's value when present and its default otherwise, and every
      field of the input keeps its value. */
  lemma NormalizedFields(data: Json, k: string)
    requires data.JObj? && k in data.fields && data.fields[k].JObj?
    ensures var rec := data.fields[k].fields; var r := Normalize(data)[k].fields;
      && r.Keys == SchemaKeys + rec.Keys
      && (forall f :: f in SchemaKeys && f !in rec ==> r[f] == DefaultRecord(k)[f])
      && (forall f :: f in rec ==> r[f] == rec[f])
  {
    NormalizeRecordIsOverlay(k, data.fields[k].fields);
  }

  /** Normalising a normalised record changes nothing. */
  lemma NormalizeRecordIdempotent(key: string, rec: map<string, Json>)
    ensures NormalizeRecord(key, NormalizeRecord(key, rec)) == NormalizeRecord(key, rec)
  {
    var d := DefaultRecord(key);
    NormalizeRecordIsOverlay(key, rec);
    NormalizeRecordIsOverlay(key, d + rec);
    assert d + (d + rec) == d + rec;
  }

  /** Normalising a normalised map changes nothing. */
  lemma NormalizeIdempotent(data: Json)
    ensures Normalize(JObj(Normalize(data))) == Normalize(data)
  {
    var n := Normalize(data);
    var nn := Normalize(JObj(n));
    assert nn.Keys == n.Keys;
    forall k | k in n ensures nn[k] == n[k] {
      NormalizeRecordIdempotent(k, data.fields[k].fields);
    }
  }

  /** What a file holds: a JSON document, or bytes `json.load` rejects. */
  datatype FileContent = Doc(value: Json) | Garbage(bytes: string)

  function ServersFile(dir: string): string { dir + "/servers.json" }
  /** `with_suffix('.tmp')` of the servers file. */
  function TempFile(dir: string): string { dir + "/servers.tmp" }
  /** `with_suffix('.json.backup')` of the servers file. */
  function BackupFile(dir: string): string { dir + "/servers.json.backup" }

  /** The three sibling paths the store uses are distinct. */
  lemma SiblingsDistinct(dir: string)
    ensures ServersFile(dir) != TempFile(dir)
    ensures ServersFile(dir) != BackupFile(dir)
    ensures TempFile(dir) != BackupFile(dir)
  {
    assert |ServersFile(dir)| != |TempFile(dir)|;
    assert |ServersFile(dir)| != |BackupFile(dir)|;
    assert |TempFile(dir)| != |BackupFile(dir)|;
  }

  /** What `load_servers` returns for a given filesystem: the normalised
      document, or the empty map when the file is missing or corrupt. */
  function Loaded(files: map<string, FileContent>, dir: string): (r: map<string, Json>)
    ensures ServersFile(dir) !in files ==> r == map[]
    ensures forall k :: k in r ==> r[k].JObj?
  {
    var path := ServersFile(dir);
    if path in files && files[path].Doc? then Normalize(files[path].value) else map[]
  }

  /** The filesystem after `_save_servers_atomic(data)`. On success the
      target holds the normalised data; either way no temporary file is
      left and no other path changes. */
  function AfterSave(files: map<string, FileContent>, dir: string, data: Json, writeOk: bool)
    : map<string, FileContent>
  {
    if writeOk then files[ServersFile(dir) := Doc(JObj(Normalize(data)))] - {TempFile(dir)}
    else files - {TempFile(dir)}
  }

  /** The filesystem after `load_servers`: a missing file is initialised
      with `{}`, a corrupt one is first copied to the backup sibling and
      then replaced by `{}`; a readable document is left alone. */
  function AfterLoad(files: map<string, FileContent>, dir: string, writeOk: bool)
    : map<string, FileContent>
  {
    var path := ServersFile(dir);
    if path !in files then AfterSave(files, dir, JObj(map[]), writeOk)
    else if files[path].Garbage? then
      AfterSave(files[BackupFile(dir) := files[path]], dir, JObj(map[]), writeOk)
    else files
  }

  /** Every path other than the store's three siblings is the same in
      `before` and `after`. */
  ghost predicate OtherPathsKept(before: map<string, FileContent>, after: map<string, FileContent>, dir: string) {
    forall p :: p != ServersFile(dir) && p != TempFile(dir) && p != BackupFile(dir) ==>
      (p in after <==> p in before) && (p in after ==> after[p] == before[p])
  }

  /** A save touches only the servers file and its temporary sibling. */
  lemma SaveKeepsOtherPaths(files: map<string, FileContent>, dir: string, data: Json, writeOk: bool)
    ensures OtherPathsKept(files, AfterSave(files, dir, data, writeOk), dir)
  {
  }

  /** A load touches only the servers file and its two siblings. */
  lemma LoadKeepsOtherPaths(files: map<string, FileContent>, dir: string, writeOk: bool)
    ensures OtherPathsKept(files, AfterLoad(files, dir, writeOk), dir)
  {
    var path := ServersFile(dir);
    if path !in files {
      SaveKeepsOtherPaths(files, dir, JObj(map[]), writeOk);
    } else if files[path].Garbage? {
      SaveKeepsOtherPaths(files[BackupFile(dir) := files[path]], dir, JObj(map[]), writeOk);
    }
  }

  /** A load followed by a save touches only the three siblings. */
  lemma LoadSaveKeepsOtherPaths(files: map<string, FileContent>, dir: string, loadOk: bool, data: Json, saveOk: bool)
    ensures OtherPathsKept(files, AfterSave(AfterLoad(files, dir, loadOk), dir, data, saveOk), dir)
  {
    LoadKeepsOtherPaths(files, dir, loadOk);
    SaveKeepsOtherPaths(AfterLoad(files, dir, loadOk), dir, data, saveOk);
  }

  /** Loading changes nothing a later load sees, whether or not the
      initialising write succeeds; a corrupt file survives as the backup. */
  lemma LoadIsStable(files: map<string, FileContent>, dir: string, writeOk: bool)
    ensures Loaded(AfterLoad(files, dir, writeOk), dir) == Loaded(files, dir)
    ensures ServersFile(dir) in files && files[ServersFile(dir)].Garbage? ==>
      BackupFile(dir) in AfterLoad(files, dir, writeOk) &&
      AfterLoad(files, dir, writeOk)[BackupFile(dir)] == files[ServersFile(dir)]
  {
    SiblingsDistinct(dir);
    var path := ServersFile(dir);
    if path !in files || files[path].Garbage? {
      assert Normalize(JObj(map[])) == map[];
    }
  }

  /** A successful save is read back as the normalised data (P5). */
  lemma {:induction false} SaveThenLoad(files: map<string, FileContent>, dir: string, data: Json)
    ensures Loaded(AfterSave(files, dir, data, true), dir) == Normalize(data)
  {
    SiblingsDistinct(dir);
    var saved := Doc(JObj(Normalize(data)));
    var after := AfterSave(files, dir, data, true);
    assert after == files[ServersFile(dir) := saved] - {TempFile(dir)};
    assert after[ServersFile(dir)] == saved;
    assert Loaded(after, dir) == Normalize(JObj(Normalize(data)));
    NormalizeIdempotent(data);
  }

  /** A failed save leaves what `load_servers` sees untouched. */
  lemma FailedSaveKeepsTarget(files: map<string, FileContent>, dir: string, data: Json)
    ensures Loaded(AfterSave(files, dir, data, false), dir) == Loaded(files, dir)
    ensures forall p :: p != TempFile(dir) ==>
      (p in AfterSave(files, dir, data, false) <==> p in files)
  {
    SiblingsDistinct(dir);
  }

  /** Re-saving what was loaded changes nothing a later load sees. */
  lemma ResaveLoadedIsStable(files: map<string, FileContent>, dir: string)
    ensures Loaded(AfterSave(files, dir, JObj(Loaded(files, dir)), true), dir) == Loaded(files, dir)
  {
    SaveThenLoad(files, dir, JObj(Loaded(files, dir)));
    LoadedIsNormalized(files, dir);
  }

  /** What `load_servers` returns is already normalised. */
  lemma LoadedIsNormalized(files: map<string, FileContent>, dir: string)
    ensures Normalize(JObj(Loaded(files, dir))) == Loaded(files, dir)
  {
    var path := ServersFile(dir);
    if path in files && files[path].Doc? {
      NormalizeIdempotent(files[path].value);
    }
  }

  /** Setting one entry of a normalised map and normalising the result
      changes only that entry: a record is stored normalised, a value that
      is not an object removes the entry. */
  lemma SetOneEntry(m: map<string, Json>, name: string, value: Json)
    requires Normalize(JObj(m)) == m
    ensures var r := Normalize(JObj(m[name := value]));
      && (name in r <==> value.JObj?)
      && (value.JObj? ==> r[name] == JObj(DefaultRecord(name) + value.fields))
      && forall k :: k != name ==> (k in r <==> k in m) && (k in r ==> r[k] == m[k])
  {
    if value.JObj? {
      NormalizeRecordIsOverlay(name, value.fields);
    }
    var r := Normalize(JObj(m[name := value]));
    forall k | k != name && k in m ensures k in r && r[k] == m[k] {
      assert k in Normalize(JObj(m));
    }
  }

  /** Deleting one entry of a normalised map keeps the others as they were. */
  lemma RemoveOneEntry(m: map<string, Json>, name: string)
    requires Normalize(JObj(m)) == m
    ensures Normalize(JObj(m - {name})) == m - {name}
  {
    var r := Normalize(JObj(m - {name}));
    forall k | k in m - {name} ensures k in r && r[k] == m[k] {
      assert k in Normalize(JObj(m));
    }
  }

  /** The store object. `dir` is the data directory chosen at start-up. */
  /** `list(d.keys())`: each key of the map exactly once. */
  method ListKeys(m: map<string, Json>) returns (names: seq<string>)
    ensures forall k :: k in names <==> k in m
    ensures forall i, j :: 0 <= i < j < |names| ==> names[i] != names[j]
  {
    var rest := m.Keys;
    names := [];
    while rest != {}
      invariant forall k :: k in m <==> k in names || k in rest
      invariant forall k :: k in names ==> k !in rest
      invariant forall i, j :: 0 <= i < j < |names| ==> names[i] != names[j]
      decreases rest
    {
      var k :| k in rest;
      names := names + [k];
      rest := rest - {k};
    }
  }

  class Store {
    const dir: string
    var files: map<string, FileContent>

    constructor (dir: string, files: map<string, FileContent>)
      ensures this.dir == dir && this.files == files
    {
      this.dir := dir;
      this.files := files;
    }

    /** `_save_servers_atomic` / `save_servers`: normalise, write the
        temporary sibling, move it over the target; on failure remove the
        temporary file and report False. */
    method Save(data: Json, writeOk: bool) returns (ok: bool)
      modifies this
      ensures ok == writeOk
      ensures files == AfterSave(old(files), dir, data, writeOk)
    {
      var validated := Normalize(data);
      var target, temp := ServersFile(dir), TempFile(dir);
      SiblingsDistinct(dir);
      files := files[temp := Doc(JObj(validated))];
      if !writeOk {
        files := files - {temp};
        return false;
      }
      files := files[target := files[temp]] - {temp};
      ok := true;
    }

    /** `load_servers`: a missing file is initialised with `{}`; a corrupt
        file is copied to the `.json.backup` sibling and replaced by `{}`;
        otherwise the document is normalised. */
    method Load(writeOk: bool) returns (servers: map<string, Json>)
      modifies this
      ensures servers == Loaded(old(files), dir)
      ensures files == AfterLoad(old(files), dir, writeOk)
    {
      var path := ServersFile(dir);
      if path !in files {
        var _ := Save(JObj(map[]), writeOk);
        return map[];
      }
      match files[path]
      case Garbage(_) =>
        files := files[BackupFile(dir) := files[path]];
        var _ := Save(JObj(map[]), writeOk);
        servers := map[];
      case Doc(v) =>
        servers := Normalize(v);
    }

    /** `add_server`: load, set one entry, save. */
    method AddServer(name: string, record: Json, loadOk: bool, saveOk: bool) returns (ok: bool)
      modifies this
      ensures ok == saveOk
      ensures var before := Loaded(old(files), dir);
        ok ==> Loaded(files, dir) == Normalize(JObj(before[name := record]))
      ensures !ok ==> Loaded(files, dir) == Loaded(old(files), dir)
      ensures files == AfterSave(AfterLoad(old(files), dir, loadOk), dir,
                                 JObj(Loaded(old(files), dir)[name := record]), saveOk)
      ensures OtherPathsKept(old(files), files, dir)
    {
      var servers := Load(loadOk);
      ghost var mid := files;
      LoadSaveKeepsOtherPaths(old(files), dir, loadOk, JObj(servers[name := record]), saveOk);
      servers := servers[name := record];
      ok := Save(JObj(servers), saveOk);
      SiblingsDistinct(dir);
      if ok {
        SaveThenLoad(mid, dir, JObj(servers));
      } else {
        FailedSaveKeepsTarget(mid, dir, JObj(servers));
      }
    }

    /** `update_server`: an unknown name reports False without saving;
        otherwise the updates are merged into that one record. */
    method UpdateServer(name: string, updates: map<string, Json>, loadOk: bool, saveOk: bool)
      returns (ok: bool)
      modifies this
      ensures var before := Loaded(old(files), dir);
        && (name !in before ==> !ok && Loaded(files, dir) == before)
        && (name in before ==> ok == saveOk)
        && (name in before && ok ==>
              Loaded(files, dir) == Normalize(JObj(before[name := JObj(before[name].fields + updates)])))
        && (!ok ==> Loaded(files, dir) == before)
      ensures var before := Loaded(old(files), dir);
        files == if name in before
          then AfterSave(AfterLoad(old(files), dir, loadOk), dir,
                         JObj(before[name := JObj(before[name].fields + updates)]), saveOk)
          else AfterLoad(old(files), dir, loadOk)
      ensures OtherPathsKept(old(files), files, dir)
    {
      var servers := Load(loadOk);
      ghost var mid := files;
      SiblingsDistinct(dir);
      if name !in servers {
        LoadKeepsOtherPaths(old(files), dir, loadOk);
        return false;
      }
      servers := servers[name := JObj(servers[name].fields + updates)];
      LoadSaveKeepsOtherPaths(old(files), dir, loadOk, JObj(servers), saveOk);
      ok := Save(JObj(servers), saveOk);
      if ok {
        SaveThenLoad(mid, dir, JObj(servers));
      } else {
        FailedSaveKeepsTarget(mid, dir, JObj(servers));
      }
    }

    /** `remove_server`: delete exactly that key, or report False. */
    method RemoveServer(name: string, loadOk: bool, saveOk: bool) returns (ok: bool)
      modifies this
      ensures var before := Loaded(old(files), dir);
        && (name !in before ==> !ok && Loaded(files, dir) == before)
        && (name in before ==> ok == saveOk)
        && (ok ==> Loaded(files, dir) == Normalize(JObj(before - {name})))
        && (!ok ==> Loaded(files, dir) == before)
      ensures var before := Loaded(old(files), dir);
        files == if name in before
          then AfterSave(AfterLoad(old(files), dir, loadOk), dir, JObj(before - {name}), saveOk)
          else AfterLoad(old(files), dir, loadOk)
      ensures OtherPathsKept(old(files), files, dir)
    {
      var servers := Load(loadOk);
      ghost var mid := files;
      SiblingsDistinct(dir);
      if name in servers {
        servers := servers - {name};
        LoadSaveKeepsOtherPaths(old(files), dir, loadOk, JObj(servers), saveOk);
        ok := Save(JObj(servers), saveOk);
        if ok {
          SaveThenLoad(mid, dir, JObj(servers));
        } else {
          FailedSaveKeepsTarget(mid, dir, JObj(servers));
        }
      } else {
        LoadKeepsOtherPaths(old(files), dir, loadOk);
        ok := false;
      }
    }

    /** `get_server`: the normalised record, if any. */
    method GetServer(name: string, loadOk: bool) returns (r: Text.Option<Json>)
      modifies this
      ensures var before := Loaded(old(files), dir);
        if name in before then r == Text.Some(before[name]) else r == Text.None
      ensures files == AfterLoad(old(files), dir, loadOk)
    {
      var servers := Load(loadOk);
      r := if name in servers then Text.Some(servers[name]) else Text.None;
    }

    /** `list_servers`: every stored name once; loading may quarantine or
        recreate the file exactly as `Load` does. */
    method ListServers(loadOk: bool) returns (names: seq<string>)
      modifies this
      ensures var before := Loaded(old(files), dir);
        (forall k :: k in names <==> k in before) &&
        (forall i, j :: 0 <= i < j < |names| ==> names[i] != names[j])
      ensures files == AfterLoad(old(files), dir, loadOk)
    {
      var servers := Load(loadOk);
      names := ListKeys(servers);
    }
  }
}
