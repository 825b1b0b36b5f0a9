/** The server registry and the lifecycle bookkeeping of the desktop
    panel: the record of one Minecraft server, its dictionary form, the
    console buffer, and the status changes made by start, stop, restart,
    delete, the console reader and the periodic monitor.

    Processes are not run. Whether a pid is alive is the input `live`
    (a set of pids); the Java check, the directory and jar checks, the
    spawn and the pipe writes are inputs as well. Every save goes through
    the server store, whose own outcome is the input `saveOk`. */
module ServerManager {
  import opened Text
  import opened Json
  import ServerStore
  import Downloader

  // ---------------------------------------------------------------- record

  /** A spawned server process: its pid and the lines written to its
      standard input so far. */
  datatype Proc = Proc(pid: int, stdin: seq<string>)

  /** `MinecraftServer`. CPU and RAM samples are floating point and are
      not part of this model. */
  datatype MinecraftServer = MinecraftServer(
    name: string,
    path: string,
    jar: string,
    minRam: string,
    maxRam: string,
    port: int,
    storageLimit: int,
    process: Option<Proc>,
    pid: Option<int>,
    status: string,
    consoleLines: seq<string>)

  /** A freshly constructed record: no process, stopped, empty console. */
  function NewServer(name: string, path: string, jar: string, minRam: string, maxRam: string,
                     port: int, storageLimit: int): MinecraftServer
  {
    MinecraftServer(name, path, jar, minRam, maxRam, port, storageLimit, None, None, "stopped", [])
  }

  /** The part of a record that survives a round trip through the store:
      the process handle and the console are not persisted. */
  function Persisted(s: MinecraftServer): MinecraftServer {
    s.(process := None, consoleLines := [])
  }

  function PidJson(pid: Option<int>): Json {
    match pid
    case None => JNull
    case Some(n) => JInt(n)
  }

  /** `to_dict`: the nine persisted fields. */
  function ToDict(s: MinecraftServer): map<string, Json> {
    map[
      "name" := JStr(s.name),
      "path" := JStr(s.path),
      "jar" := JStr(s.jar),
      "min_ram" := JStr(s.minRam),
      "max_ram" := JStr(s.maxRam),
      "port" := JInt(s.port),
      "storage_limit" := JInt(s.storageLimit),
      "pid" := PidJson(s.pid),
      "status" := JStr(s.status)
    ]
  }

  /** The keys `from_dict` reads with `data[...]`, in evaluation order. */
  const RequiredKeys: seq<string> := ["name", "path", "jar", "min_ram", "max_ram"]

  /** The outcome of `from_dict`: a record, the KeyError raised for the
      first required key that is missing, or a value of a type this model
      does not represent. */
  datatype FromDictResult = Decoded(server: MinecraftServer) | KeyError(key: string) | TypeError

  /** `from_dict`: the five required keys must be present; `port`,
      `storage_limit`, `pid` and `status` default to 25565, 10, None and
      "stopped". The process and the console start empty. */
  function FromDict(d: map<string, Json>): (r: FromDictResult)
    ensures r.KeyError? <==> exists i :: 0 <= i < |RequiredKeys| && RequiredKeys[i] !in d
    ensures r.KeyError? ==> exists i :: (0 <= i < |RequiredKeys| && RequiredKeys[i] == r.key &&
      r.key !in d && forall j :: 0 <= j < i ==> RequiredKeys[j] in d)
    ensures r.Decoded? ==> r.server.process.None? && r.server.consoleLines == []
    ensures r.Decoded? ==> forall f :: f in d && f in ServerStore.SchemaKeys ==> ToDict(r.server)[f] == d[f]
    ensures r.Decoded? ==>
      && ("port" !in d ==> r.server.port == 25565)
      && ("storage_limit" !in d ==> r.server.storageLimit == 10)
      && ("pid" !in d ==> r.server.pid.None?)
      && ("status" !in d ==> r.server.status == "stopped")
  {
    match FirstMissing(RequiredKeys, d)
    case Some(i) => KeyError(RequiredKeys[i])
    case None =>
      assert "name" == RequiredKeys[0] && "path" == RequiredKeys[1] && "jar" == RequiredKeys[2];
      assert "min_ram" == RequiredKeys[3] && "max_ram" == RequiredKeys[4];
      var name, path, jar, minRam, maxRam := d["name"], d["path"], d["jar"], d["min_ram"], d["max_ram"];
      var port := Get(d, "port", JInt(25565));
      var limit := Get(d, "storage_limit", JInt(10));
      var pid := Get(d, "pid", JNull);
      var status := Get(d, "status", JStr("stopped"));
      if name.JStr? && path.JStr? && jar.JStr? && minRam.JStr? && maxRam.JStr?
         && port.JInt? && limit.JInt? && (pid.JNull? || pid.JInt?) && status.JStr?
      then
        var p := if pid.JInt? then Some(pid.i) else None;
        Decoded(MinecraftServer(name.s, path.s, jar.s, minRam.s, maxRam.s, port.i, limit.i,
                                None, p, status.s, []))
      else TypeError
  }

  /** `from_dict(to_dict(s))` reproduces every persisted field. */
  lemma DictRoundTrip(s: MinecraftServer)
    ensures FromDict(ToDict(s)) == Decoded(Persisted(s))
  {
    var d := ToDict(s);
    assert forall i :: 0 <= i < |RequiredKeys| ==> RequiredKeys[i] in d;
  }

  /** `to_dict` writes exactly the store's schema, so the store keeps a
      saved record as it is. */
  lemma ToDictIsNormal(s: MinecraftServer, key: string)
    ensures ToDict(s).Keys == ServerStore.SchemaKeys
    ensures ServerStore.NormalizeRecord(key, ToDict(s)) == ToDict(s)
  {
    ServerStore.NormalizeRecordIsOverlay(key, ToDict(s));
    assert ServerStore.DefaultRecord(key).Keys == ToDict(s).Keys;
  }

  /** Every record the store hands out has the five required keys, so
      `from_dict` on it never raises KeyError. */
  lemma StoredRecordHasRequiredKeys(key: string, rec: map<string, Json>)
    ensures !FromDict(ServerStore.NormalizeRecord(key, rec)).KeyError?
  {
    ServerStore.NormalizeRecordIsOverlay(key, rec);
    var d := ServerStore.NormalizeRecord(key, rec);
    assert ServerStore.DefaultRecord(key).Keys <= d.Keys;
    assert forall i :: 0 <= i < |RequiredKeys| ==> RequiredKeys[i] in ServerStore.SchemaKeys;
  }

  // ------------------------------------------------------------- jar name

  /** The version `_download_server_jar` extracts from a jar name: the
      text between "paper-" and ".jar", or "1.20.6" for any other name. */
  function JarVersion(jar: string): (v: string)
    ensures StartsWith(jar, "paper-") && EndsWith(jar, ".jar") ==> Downloader.JarName(v) == jar
    ensures !(StartsWith(jar, "paper-") && EndsWith(jar, ".jar")) ==> v == "1.20.6"
  {
    if StartsWith(jar, "paper-") && EndsWith(jar, ".jar") then
      PaperAffixesDisjoint(jar);
      assert jar == jar[..6] + jar[6..|jar| - 4] + jar[|jar| - 4..];
      jar[6..|jar| - 4]
    else "1.20.6"
  }

  /** "paper-" and ".jar" cannot overlap, so a name with both is at least
      ten characters long. */
  lemma PaperAffixesDisjoint(jar: string)
    requires StartsWith(jar, "paper-") && EndsWith(jar, ".jar")
    ensures |jar| >= 10
  {
    assert jar[|jar| - 4] == jar[|jar| - 4..][0] == '.';
    assert forall i :: 0 <= i < 6 ==> jar[i] == "paper-"[i] != '.';
  }

  /** The jar `create_server` names yields back its version. */
  lemma JarVersionRoundTrip(version: string)
    ensures JarVersion(Downloader.JarName(version)) == version
  {
    var jar := Downloader.JarName(version);
    Downloader.JarNameInjective(JarVersion(jar), version);
  }

  // --------------------------------------------------------- console buffer

  const MaxConsoleLines := 1000

  /** The most recent `MaxConsoleLines` entries of a history, in order. */
  function Window(h: seq<string>): (w: seq<string>)
    ensures |w| == if |h| <= MaxConsoleLines then |h| else MaxConsoleLines
    ensures w == h[|h| - |w|..]
  {
    if |h| <= MaxConsoleLines then h else h[|h| - MaxConsoleLines..]
  }

  /** One append by the reader: add the entry, then keep the last 1000. */
  function Push(buffer: seq<string>, entry: string): seq<string> {
    var b := buffer + [entry];
    if |b| > MaxConsoleLines then b[|b| - MaxConsoleLines..] else b
  }

  /** Appending to the window of a history gives the window of the longer
      history. */
  lemma PushWindow(h: seq<string>, entry: string)
    ensures Push(Window(h), entry) == Window(h + [entry])
  {
    var h' := h + [entry];
    if |h| > MaxConsoleLines {
      assert Window(h) + [entry] == h'[|h'| - MaxConsoleLines - 1..];
    }
  }

  /** The buffer after appending `entries` one at a time to an empty one. */
  function Replay(entries: seq<string>): seq<string> {
    if entries == [] then [] else Push(Replay(entries[..|entries| - 1]), entries[|entries| - 1])
  }

  /** After every append the buffer holds exactly the most recent (at
      most 1000) entries, in order. */
  lemma {:induction false} ReplayIsWindow(entries: seq<string>)
    ensures Replay(entries) == Window(entries)
    ensures |Replay(entries)| <= MaxConsoleLines
  {
    if entries != [] {
      var prefix := entries[..|entries| - 1];
      ReplayIsWindow(prefix);
      PushWindow(prefix, entries[|entries| - 1]);
      assert prefix + [entries[|entries| - 1]] == entries;
    }
  }

  /** The console entry for a line read at time `stamp`. */
  function ConsoleEntry(stamp: string, line: string): string {
    "[" + stamp + "] " + line
  }

  /** The line Paper prints once the world is loaded. */
  predicate ReadyMarker(line: string) {
    Contains(line, "Done (") && Contains(line, "For help, type")
  }

  /** The record after the reader receives `raw`: the line is stripped; a
      blank line changes nothing; otherwise its entry is appended to the
      bounded buffer, and the readiness marker sets "running". */
  function LineRead(s: MinecraftServer, raw: string, stamp: string): MinecraftServer {
    var line := Strip(raw);
    if line == [] then s
    else
      s.(consoleLines := Push(s.consoleLines, ConsoleEntry(stamp, line)),
         status := if ReadyMarker(line) then "running" else s.status)
  }

  /** The reader's effect on one record: only the buffer and the status
      can change; a blank line changes nothing; the buffer never exceeds
      1000 entries and ends with the new entry; the status becomes
      "running" exactly on the marker and is otherwise kept. */
  lemma LineReadEffect(s: MinecraftServer, raw: string, stamp: string)
    requires |s.consoleLines| <= MaxConsoleLines
    ensures var t := LineRead(s, raw, stamp); var line := Strip(raw);
      && t.(consoleLines := s.consoleLines, status := s.status) == s
      && (line == [] ==> t == s)
      && |t.consoleLines| <= MaxConsoleLines
      && (line != [] ==> t.consoleLines == Window(s.consoleLines + [ConsoleEntry(stamp, line)]))
      && (line != [] ==> t.consoleLines[|t.consoleLines| - 1] == ConsoleEntry(stamp, line))
      && (t.status == "running" <==> (s.status == "running" || (line != [] && ReadyMarker(line))))
  {
    var line := Strip(raw);
    if line != [] {
      var e := ConsoleEntry(stamp, line);
      var t := LineRead(s, raw, stamp);
      assert t.consoleLines == Push(s.consoleLines, e);
      assert t.status == if ReadyMarker(line) then "running" else s.status;
      assert Window(s.consoleLines) == s.consoleLines;
      PushWindow(s.consoleLines, e);
    }
  }

  /** The reader's cleanup when the output ends: a record that is not
      stopped becomes stopped with no pid. The process handle is kept. */
  function StreamEnded(s: MinecraftServer): MinecraftServer {
    if s.status != "stopped" then s.(status := "stopped", pid := None) else s
  }

  lemma StreamEndedEffect(s: MinecraftServer)
    ensures StreamEnded(s).status == "stopped"
    ensures s.status != "stopped" ==> StreamEnded(s).pid.None?
    ensures StreamEnded(s).(status := s.status, pid := s.pid) == s
    ensures StreamEnded(StreamEnded(s)) == StreamEnded(s)
  {
  }

  // --------------------------------------------------------- status machine

  /** The record after a completed stop: stopped, no pid, no process. */
  function Stopped(s: MinecraftServer): MinecraftServer {
    s.(status := "stopped", pid := None, process := None)
  }

  /** What a lifecycle operation reports, the record it leaves, and
      whether it saves the registry. */
  datatype Outcome = Outcome(ok: bool, server: MinecraftServer, saves: bool)

  /** The inputs `start_server` consults, in order: the Java check (None
      when the check itself raised), whether the server directory exists,
      whether start.bat exists or could be written, whether the jar exists,
      whether the download of a missing jar succeeds, and the pid of the
      spawned process (None when spawning raised). */
  datatype StartEnv = StartEnv(
    java: Option<Downloader.JavaInfo>,
    dirExists: bool,
    scriptOk: bool,
    jarExists: bool,
    downloadOk: bool,
    spawned: Option<int>)

  /** Whether the Java check lets the start go ahead: a check that raised
      does not stop it. */
  predicate JavaAllows(java: Option<Downloader.JavaInfo>) {
    java.None? || (java.value.installed && java.value.compatible)
  }

  /** `start_server` on one record. */
  function Start(s: MinecraftServer, env: StartEnv, live: set<int>): Outcome {
    if s.status == "running" then Outcome(true, s, false)
    else if !JavaAllows(env.java) then Outcome(false, s, false)
    else if !env.dirExists then Outcome(false, s, false)
    else if !env.scriptOk then Outcome(false, s.(status := "stopped"), false)
    else if !env.jarExists && !env.downloadOk then Outcome(false, s, false)
    else match env.spawned
      case None => Outcome(false, s.(consoleLines := [], status := "stopped"), false)
      case Some(p) =>
        Outcome(true, s.(consoleLines := [], process := Some(Proc(p, [])), pid := Some(p),
                         status := if p in live then "running" else "stopped"), true)
  }

  /** The guarantees of `start_server`: a running server is left alone; a
      failed Java check refuses without touching the record; a start that
      reports True has spawned a process with an empty console and is
      "running" exactly when the new pid is alive; a start that reports
      False leaves the server not running and saves nothing. */
  lemma StartEffect(s: MinecraftServer, env: StartEnv, live: set<int>)
    ensures var o := Start(s, env, live);
      && (s.status == "running" ==> o == Outcome(true, s, false))
      && (s.status != "running" && !JavaAllows(env.java) ==> o == Outcome(false, s, false))
      && (o.ok && s.status != "running" ==>
            && env.spawned.Some? && o.server.process == Some(Proc(env.spawned.value, []))
            && o.server.pid == env.spawned && o.server.consoleLines == [] && o.saves
            && (o.server.status == "running" <==> env.spawned.value in live))
      && (!o.ok ==> !o.saves && (o.server.status == s.status || o.server.status == "stopped"))
      && (!o.ok ==> o.server.process == s.process && o.server.pid == s.pid)
  {
  }

  /** `stop_server` on one record: a live process is sent "stop\n" and
      awaited first; `writeOk` stands for sending and awaiting the stop
      command (the write, the flush, the 30-second wait and the kill after
      it), and its failure reports False with nothing changed. */
  function Stop(s: MinecraftServer, live: set<int>, writeOk: bool): Outcome {
    if s.status == "stopped" then Outcome(true, s, false)
    else if s.process.Some? && s.process.value.pid in live && !writeOk then Outcome(false, s, false)
    else Outcome(true, Stopped(s), true)
  }

  /** The guarantees of `stop_server`: True leaves the record stopped with
      no pid (and no process unless it was already stopped); False happens
      only when writing "stop\n" to a live process fails, and changes
      nothing. */
  lemma StopEffect(s: MinecraftServer, live: set<int>, writeOk: bool)
    ensures var o := Stop(s, live, writeOk);
      && (s.status == "stopped" ==> o == Outcome(true, s, false))
      && (o.ok && s.status != "stopped" ==>
            o.server.status == "stopped" && o.server.pid.None? && o.server.process.None? && o.saves)
      && (!o.ok <==> s.status != "stopped" && s.process.Some? && s.process.value.pid in live && !writeOk)
      && (!o.ok ==> o.server == s && !o.saves)
  {
  }

  /** `restart_server` on one record: stop, then start only if the stop
      reported True. */
  function Restart(s: MinecraftServer, live: set<int>, writeOk: bool, env: StartEnv): (o: Outcome)
  {
    var stop := Stop(s, live, writeOk);
    if stop.ok then Start(stop.server, env, live) else Outcome(false, s, false)
  }

  /** A restart whose stop fails never starts, and a restart of a server
      that was running and whose stop succeeds always reaches the spawn
      checks (the running short-cut cannot fire). */
  lemma RestartEffect(s: MinecraftServer, live: set<int>, writeOk: bool, env: StartEnv)
    ensures !Stop(s, live, writeOk).ok ==> Restart(s, live, writeOk, env) == Outcome(false, s, false)
    ensures Stop(s, live, writeOk).ok ==>
      Restart(s, live, writeOk, env) == Start(Stop(s, live, writeOk).server, env, live)
    ensures Stop(s, live, writeOk).ok ==> Stop(s, live, writeOk).server.status != "running"
  {
  }

  /** Python truthiness of a stored pid: None and 0 are false. */
  predicate PidTruthy(pid: Option<int>) {
    pid.Some? && pid.value != 0
  }

  /** The status `get_server_status` reports for a record. */
  function ProbedStatus(s: MinecraftServer, live: set<int>): (r: string)
    ensures r == "running" || r == "stopped"
  {
    if PidTruthy(s.pid) && s.pid.value in live then "running" else "stopped"
  }

  /** The reported status agrees with the stored one right after the
      transitions that set it: a completed stop, the reader's cleanup, and
      a start whose spawned pid is non-zero. */
  lemma ProbedStatusAgrees(s: MinecraftServer, live: set<int>, writeOk: bool, env: StartEnv)
    ensures Stop(s, live, writeOk).ok && s.status != "stopped" ==>
      ProbedStatus(Stop(s, live, writeOk).server, live) == "stopped"
    ensures s.status != "stopped" ==> ProbedStatus(StreamEnded(s), live) == StreamEnded(s).status
    ensures var o := Start(s, env, live);
      o.ok && s.status != "running" && env.spawned != Some(0) ==> ProbedStatus(o.server, live) == o.server.status
  {
  }

  /** One pass of `_monitor_all_servers` over one record: a running record
      with a process is stopped when its pid no longer exists (psutil
      raises NoSuchProcess; a pid of None names the panel itself) or when
      its process has exited. */
  function Ticked(s: MinecraftServer, live: set<int>): MinecraftServer {
    if s.status == "running" && s.process.Some? then
      if s.pid.Some? && s.pid.value !in live then Stopped(s)
      else if s.process.value.pid !in live then Stopped(s)
      else s
    else s
  }

  /** A monitor pass over the whole registry. */
  function TickAll(m: map<string, MinecraftServer>, live: set<int>): (r: map<string, MinecraftServer>)
    ensures r.Keys == m.Keys
  {
    map k | k in m :: Ticked(m[k], live)
  }

  /** The monitor only ever stops records: a record it changes was running
      with a dead pid or process, and becomes stopped with neither; every
      other record is kept. A second pass with the same liveness changes
      nothing. */
  lemma TickAllEffect(m: map<string, MinecraftServer>, live: set<int>)
    ensures forall k :: k in m && TickAll(m, live)[k] != m[k] ==>
      && m[k].status == "running" && m[k].process.Some?
      && ((m[k].pid.Some? && m[k].pid.value !in live) || m[k].process.value.pid !in live)
      && TickAll(m, live)[k] == Stopped(m[k])
    ensures forall k :: k in m && m[k].status != "running" ==> TickAll(m, live)[k] == m[k]
    ensures TickAll(TickAll(m, live), live) == TickAll(m, live)
  {
    var t := TickAll(m, live);
    assert TickAll(t, live).Keys == t.Keys;
    forall k | k in t ensures TickAll(t, live)[k] == t[k] {
    }
  }

  /** Python's `xs[-n:]` start index for a sequence of length `len`. */
  function TailStart(n: int, len: nat): (i: nat)
    ensures i <= len
  {
    var st := -n;
    if st < 0 then (if st + len < 0 then 0 else st + len)
    else if st > len then len else st
  }

  /** `console_lines[-lines:]`: the last `lines` entries when `lines` is
      positive, the whole buffer when it is 0, and the buffer without its
      first `-lines` entries when it is negative. */
  lemma TailSlice(buffer: seq<string>, lines: int)
    ensures var r := buffer[TailStart(lines, |buffer|)..];
      && (lines > 0 && lines <= |buffer| ==> |r| == lines && r == buffer[|buffer| - lines..])
      && (lines >= |buffer| ==> r == buffer)
      && (lines == 0 ==> r == buffer)
      && (lines < 0 ==> |r| == if -lines <= |buffer| then |buffer| + lines else 0)
  {
  }

  // --------------------------------------------------------------- registry

  /** The document `save_servers` hands to the store. */
  function Snapshot(m: map<string, MinecraftServer>): map<string, Json> {
    map k | k in m :: JObj(ToDict(m[k]))
  }

  /** The store keeps a snapshot as it is. */
  lemma SnapshotIsNormal(m: map<string, MinecraftServer>)
    ensures ServerStore.Normalize(JObj(Snapshot(m))) == Snapshot(m)
  {
    var snap := Snapshot(m);
    var n := ServerStore.Normalize(JObj(snap));
    assert n.Keys == snap.Keys;
    forall k | k in snap ensures n[k] == snap[k] {
      ToDictIsNormal(m[k], k);
    }
  }

  /** A successful save is read back as the registry's snapshot, and each
      stored record decodes to the persisted part of its server. */
  lemma {:induction false} SavedRegistryReadsBack(files: map<string, ServerStore.FileContent>, dir: string,
                                                  m: map<string, MinecraftServer>)
    ensures ServerStore.Loaded(ServerStore.AfterSave(files, dir, JObj(Snapshot(m)), true), dir) == Snapshot(m)
    ensures forall k :: k in m ==> FromDict(Snapshot(m)[k].fields) == Decoded(Persisted(m[k]))
  {
    SnapshotIsNormal(m);
    ServerStore.SaveThenLoad(files, dir, JObj(Snapshot(m)));
    forall k | k in m ensures FromDict(Snapshot(m)[k].fields) == Decoded(Persisted(m[k])) {
      DictRoundTrip(m[k]);
    }
  }

  /** The file state after `save_servers` for registry `m`. */
  function Saved(files: map<string, ServerStore.FileContent>, dir: string,
                 m: map<string, MinecraftServer>, saves: bool, saveOk: bool)
    : map<string, ServerStore.FileContent>
  {
    if saves then ServerStore.AfterSave(files, dir, JObj(Snapshot(m)), saveOk) else files
  }

  /** The directory `create_server` puts a server in: "servers/<name>"
      when no storage path (or "servers") is given, else "<path>/<name>". */
  function ServerDir(storagePath: string, name: string): (dir: string)
    ensures EndsWith(dir, "/" + name)
  {
    if storagePath == [] || storagePath == "servers" then "servers/" + name
    else storagePath + "/" + name
  }

  /** `ServerManager`: the registry, keyed by server name, and the store
      it saves to. */
  class Manager {
    var servers: map<string, MinecraftServer>
    const store: ServerStore.Store

    /** Every record is registered under its own name and its console
        holds at most 1000 entries. */
    ghost predicate Valid()
      reads this
    {
      forall k :: k in servers ==> servers[k].name == k && |servers[k].consoleLines| <= MaxConsoleLines
    }

    constructor (store: ServerStore.Store)
      ensures this.store == store && servers == map[] && Valid()
    {
      this.store := store;
      servers := map[];
    }

    /** `save_servers`: hand the snapshot to the store. */
    method SaveServers(saveOk: bool)
      modifies store
      ensures store.files == ServerStore.AfterSave(old(store.files), store.dir, JObj(Snapshot(servers)), saveOk)
      ensures saveOk ==> ServerStore.Loaded(store.files, store.dir) == Snapshot(servers)
    {
      var _ := store.Save(JObj(Snapshot(servers)), saveOk);
      if saveOk {
        SavedRegistryReadsBack(old(store.files), store.dir, servers);
      }
    }

    /** Apply a lifecycle outcome to the record under `name`. */
    method Apply(name: string, o: Outcome, saveOk: bool)
      requires name in servers && o.server.name == name && Valid()
      requires |o.server.consoleLines| <= MaxConsoleLines
      modifies this, store
      ensures servers == old(servers)[name := o.server] && Valid()
      ensures store.files == Saved(old(store.files), store.dir, servers, o.saves, saveOk)
    {
      servers := servers[name := o.server];
      if o.saves {
        SaveServers(saveOk);
      }
    }

    /** `create_server` (registry part): on success the entry under `name`
        is inserted or replaced by a fresh stopped record whose jar is
        "paper-<version>.jar", and the registry is saved. `fsOk` is whether
        the directories and generated files could be written. */
    method CreateServer(name: string, version: string, minRam: string, maxRam: string,
                        storagePath: string, port: int, storageLimit: int, fsOk: bool, saveOk: bool)
      returns (ok: bool)
      requires Valid()
      modifies this, store
      ensures Valid() && ok == fsOk
      ensures ok ==> servers == old(servers)[name := NewServer(name, ServerDir(storagePath, name),
                                  Downloader.JarName(version), minRam, maxRam, port, storageLimit)]
      ensures ok ==> store.files == Saved(old(store.files), store.dir, servers, true, saveOk)
      ensures !ok ==> servers == old(servers) && store.files == old(store.files)
    {
      if !fsOk {
        return false;
      }
      var server := NewServer(name, ServerDir(storagePath, name), Downloader.JarName(version),
                              minRam, maxRam, port, storageLimit);
      servers := servers[name := server];
      SaveServers(saveOk);
      ok := true;
    }

    /** `start_server`: an unknown name reports False. */
    method StartServer(name: string, env: StartEnv, live: set<int>, saveOk: bool) returns (ok: bool)
      requires Valid()
      modifies this, store
      ensures Valid()
      ensures name !in old(servers) ==> !ok && servers == old(servers) && store.files == old(store.files)
      ensures name in old(servers) ==>
        var o := Start(old(servers)[name], env, live);
        && ok == o.ok && servers == old(servers)[name := o.server]
        && store.files == Saved(old(store.files), store.dir, servers, o.saves, saveOk)
    {
      if name !in servers {
        return false;
      }
      var o := Start(servers[name], env, live);
      Apply(name, o, saveOk);
      ok := o.ok;
    }

    /** `stop_server`: an unknown name reports False. */
    method StopServer(name: string, live: set<int>, writeOk: bool, saveOk: bool) returns (ok: bool)
      requires Valid()
      modifies this, store
      ensures Valid()
      ensures name !in old(servers) ==> !ok && servers == old(servers) && store.files == old(store.files)
      ensures name in old(servers) ==>
        var o := Stop(old(servers)[name], live, writeOk);
        && ok == o.ok && servers == old(servers)[name := o.server]
        && store.files == Saved(old(store.files), store.dir, servers, o.saves, saveOk)
    {
      if name !in servers {
        return false;
      }
      var o := Stop(servers[name], live, writeOk);
      Apply(name, o, saveOk);
      ok := o.ok;
    }

    /** `restart_server`: stop, and start only when the stop succeeded. */
    method RestartServer(name: string, live: set<int>, writeOk: bool, env: StartEnv,
                         stopSaveOk: bool, startSaveOk: bool) returns (ok: bool)
      requires Valid()
      modifies this, store
      ensures Valid()
      ensures name !in old(servers) ==> !ok && servers == old(servers) && store.files == old(store.files)
      ensures name in old(servers) ==>
        && ok == Restart(old(servers)[name], live, writeOk, env).ok
        && servers == old(servers)[name := Restart(old(servers)[name], live, writeOk, env).server]
      ensures name in old(servers) ==>
        var so := Stop(old(servers)[name], live, writeOk);
        var stopped := old(servers)[name := so.server];
        var filesAfterStop := Saved(old(store.files), store.dir, stopped, so.saves, stopSaveOk);
        if so.ok then
          var st := Start(so.server, env, live);
          store.files == Saved(filesAfterStop, store.dir, stopped[name := st.server], st.saves, startSaveOk)
        else store.files == filesAfterStop
    {
      var stopped := StopServer(name, live, writeOk, stopSaveOk);
      if !stopped {
        return false;
      }
      ok := StartServer(name, env, live, startSaveOk);
    }

    /** `delete_server`: a known server is stopped (whatever the stop
        reports), dropped from the registry, and the registry is saved. */
    method DeleteServer(name: string, live: set<int>, writeOk: bool, stopSaveOk: bool, saveOk: bool)
      returns (ok: bool)
      requires Valid()
      modifies this, store
      ensures Valid()
      ensures ok <==> name in old(servers)
      ensures !ok ==> servers == old(servers) && store.files == old(store.files)
      ensures ok ==> servers == old(servers) - {name}
      ensures ok ==>
        var o := Stop(old(servers)[name], live, writeOk);
        store.files == Saved(Saved(old(store.files), store.dir, old(servers)[name := o.server], o.saves, stopSaveOk),
                             store.dir, servers, true, saveOk)
    {
      if name !in servers {
        return false;
      }
      var _ := StopServer(name, live, writeOk, stopSaveOk);
      servers := servers - {name};
      SaveServers(saveOk);
      ok := true;
    }

    /** The body of `_monitor_server_output` for one line read from the
        server `name`. */
    method ReadLine(name: string, raw: string, stamp: string, saveOk: bool)
      requires Valid()
      modifies this, store
      ensures Valid()
      ensures name !in old(servers) ==> servers == old(servers) && store.files == old(store.files)
      ensures name in old(servers) ==>
        && servers == old(servers)[name := LineRead(old(servers)[name], raw, stamp)]
        && store.files == Saved(old(store.files), store.dir, servers,
                                Strip(raw) != [] && ReadyMarker(Strip(raw)), saveOk)
    {
      if name !in servers {
        return;
      }
      var server := servers[name];
      var next := LineRead(server, raw, stamp);
      LineReadEffect(server, raw, stamp);
      assert next.name == name && |next.consoleLines| <= MaxConsoleLines;
      var line := Strip(raw);
      if line != [] {
        servers := servers[name := next];
        if ReadyMarker(line) {
          SaveServers(saveOk);
        }
      } else {
        assert servers == old(servers)[name := next];
      }
    }

    /** The `finally` block of `_monitor_server_output`. */
    method EndOfOutput(name: string, saveOk: bool)
      requires Valid()
      modifies this, store
      ensures Valid()
      ensures name !in old(servers) ==> servers == old(servers) && store.files == old(store.files)
      ensures name in old(servers) ==>
        && servers == old(servers)[name := StreamEnded(old(servers)[name])]
        && store.files == Saved(old(store.files), store.dir, servers,
                                old(servers)[name].status != "stopped", saveOk)
    {
      if name !in servers {
        return;
      }
      var server := servers[name];
      if server.status != "stopped" {
        servers := servers[name := StreamEnded(server)];
        SaveServers(saveOk);
      }
    }

    /** `send_command`: write `command + "\n"` to a live process. */
    method SendCommand(name: string, command: string, live: set<int>, writeOk: bool) returns (ok: bool)
      requires Valid()
      modifies this
      ensures Valid()
      ensures ok <==> name in old(servers) && old(servers)[name].process.Some?
                      && old(servers)[name].process.value.pid in live && writeOk
      ensures !ok ==> servers == old(servers)
      ensures ok ==> var s := old(servers)[name]; var p := s.process.value;
        servers == old(servers)[name := s.(process := Some(p.(stdin := p.stdin + [command + "\n"])))]
    {
      if name in servers {
        var server := servers[name];
        if server.process.Some? && server.process.value.pid in live && writeOk {
          var p := server.process.value;
          servers := servers[name := server.(process := Some(p.(stdin := p.stdin + [command + "\n"])))];
          return true;
        }
      }
      ok := false;
    }

    /** `get_console_output`: the tail of the buffer, `[]` for an unknown
        name. */
    function GetConsoleOutput(name: string, lines: int): (r: seq<string>)
      reads this
      ensures name !in servers ==> r == []
      ensures name in servers ==> var b := servers[name].consoleLines;
        && |r| <= |b| && r == b[|b| - |r|..]
        && (lines == 0 ==> r == b)
        && (0 < lines <= |b| ==> |r| == lines)
        && (lines >= |b| ==> r == b)
    {
      if name in servers then
        var b := servers[name].consoleLines;
        TailSlice(b, lines);
        b[TailStart(lines, |b|)..]
      else []
    }

    /** `get_server_status`: "unknown" for an unknown name, otherwise
        "running" exactly when the stored pid is truthy and alive. */
    function GetServerStatus(name: string, live: set<int>): (r: string)
      reads this
      ensures r == "unknown" <==> name !in servers
      ensures r == "running" <==> name in servers && PidTruthy(servers[name].pid) && servers[name].pid.value in live
      ensures r == "unknown" || r == "running" || r == "stopped"
    {
      if name in servers then ProbedStatus(servers[name], live) else "unknown"
    }

    /** One pass of `_monitor_all_servers`. It does not save. */
    method MonitorTick(live: set<int>)
      requires Valid()
      modifies this
      ensures Valid()
      ensures servers == TickAll(old(servers), live)
    {
      var pending := servers.Keys;
      while pending != {}
        invariant pending <= servers.Keys == old(servers).Keys
        invariant forall k :: k in servers && k in pending ==> servers[k] == old(servers)[k]
        invariant forall k :: k in servers && k !in pending ==> servers[k] == Ticked(old(servers)[k], live)
        decreases pending
      {
        var k :| k in pending;
        servers := servers[k := Ticked(servers[k], live)];
        pending := pending - {k};
      }
      assert servers == TickAll(old(servers), live);
    }
  }
}
