# CrazeDyn Panel core, modelled in Dafny

CrazeDyn Panel manages Minecraft (PaperMC) servers on one machine. It has a
desktop window and a web panel. This project models the parts of it that decide
what happens, and proves properties of them:

- **Server store** (`server_store.dfy`, module `ServerStore`). The store keeps
  the registry of servers in `servers.json`. It normalizes every record against
  the record schema. A corrupt file is quarantined to a backup. Saves are atomic,
  through a temporary file. The store also adds, updates, removes, gets and lists
  servers.
- **Server manager** (`server_manager.dfy`, module `ServerManager`):
  - the record of a server and its dictionary form;
  - the `paper-<version>.jar` naming;
  - the 1000-line console buffer;
  - the status machine (start, stop, restart, delete, the "Done (" readiness
    marker, the clean-up when the output stream ends);
  - commands sent to the server;
  - one pass of the monitoring loop;
  - the registry side of creating a server.
- **Web panel guards** (`web_guards.dfy`, module `WebPanel`):
  - the path-traversal guard;
  - the server-name check;
  - the request check for creating a server;
  - the order of file listings (directories first).
- **Desktop window** (`properties.dfy`, module `MainWindow`):
  - reading and rewriting `server.properties`, including the motd and
    level-name fallbacks;
  - the connection display;
  - the file-size labels;
  - which buttons are enabled.
- **Downloader** (`downloader.dfy`, module `Downloader`):
  - the PaperMC version table and jar naming;
  - the basic plugin pack;
  - the Java installer's retry loop;
  - the Java and Python checks.
- **Stats monitor** (`stats_monitor.dfy`, module `StatsMonitor`):
  - player count from the log tail;
  - the uptime label;
  - the TPS estimate;
  - the 30-second disk-size cache;
  - offline statistics;
  - attaching to a process.
- **Playit agent** (`playit.dfy`, module `Playit`):
  - tunnel URLs read from the agent's output;
  - the installation status and its message;
  - starting and stopping the agent;
  - tunnel requests.
- **Port forwarding** (`port_forwarding.dfy`, module `PortForwarding`):
  - netstat parsing;
  - the list of active UPnP and firewall rules;
  - the server URLs;
  - the setup and clean-up results.
- **SpigotMC browser** (`spigot.dfy`, module `Spigot`):
  - search parameters and result items;
  - the premium guard;
  - the downloaded file's name;
  - the date guard;
  - the category list.
- **System monitor** (`system_monitor.dfy`, module `SystemMonitor`):
  - the scan for free ports;
  - the table of watched processes.

Two modules are shared. `text.dfy` (module `Text`) holds the Python string
operations the code relies on: `strip`, `find`, `count`, `split`, `lower`, `int()`
and `str()`. `json.dfy` (module `Json`) holds JSON values.

The outside world enters as parameters:

- whether a pid is alive;
- whether a write, a spawn, a download or a UPnP call succeeded;
- what a port probe answers;
- the HTTP response body;
- the clock and the local date format.

Code that changes state in place is modelled as classes with `modifies` clauses:
the store, the manager, the Playit manager, the port forwarder, the stats monitor
and the system monitor. Each method is proved against a specification function of
the old state, and the lemmas beside that function state what the source promises.

## Model

| member | source | states |
|---|---|---|
| ServerStore.DefaultRecord | main/app/core/server_store.py:149-158 | the default record has exactly the nine schema keys |
| ServerStore.NormalizeRecordIsOverlay | main/app/core/server_store.py:149-161 | a normalized record is the defaults overlaid with every field the stored record has, custom fields included |
| ServerStore.Normalize | main/app/core/server_store.py:136-166 | a non-object gives an empty registry; exactly the entries whose value is an object survive, and each stays an object |
| ServerStore.NormalizedFields | main/app/core/server_store.py:143-164 | a surviving record has the schema keys plus its own keys; missing schema keys take their defaults; present keys keep their values |
| ServerStore.NormalizeRecordIdempotent | main/app/core/server_store.py:149-161 | normalizing a normalized record changes nothing |
| ServerStore.NormalizeIdempotent | main/app/core/server_store.py:136-166 | normalizing a normalized registry changes nothing |
| ServerStore.Loaded | main/app/core/server_store.py:62-92 | with no servers file the registry is empty; every loaded entry is an object |
| ServerStore.LoadIsStable | main/app/core/server_store.py:62-92 | loading leaves what the next load reads unchanged; a corrupt file is copied to the `.json.backup` file |
| ServerStore.SaveThenLoad | main/app/core/server_store.py:94-134 | after a successful atomic save, a load reads back the normalized form of the saved data |
| ServerStore.FailedSaveKeepsTarget | main/app/core/server_store.py:99-134 | a failed save leaves what a load reads unchanged, and touches no file except the temporary one |
| ServerStore.SaveKeepsOtherPaths | main/app/core/server_store.py:99-134 | a save changes no path but the servers file and its temporary sibling |
| ServerStore.LoadKeepsOtherPaths | main/app/core/server_store.py:62-92 | a load changes no path but the servers file and its two siblings |
| ServerStore.LoadSaveKeepsOtherPaths | main/app/core/server_store.py:62-134 | a load followed by a save changes no path but the three siblings |
| ServerStore.ResaveLoadedIsStable | main/app/core/server_store.py:62-134 | saving what was just loaded reads back the same registry |
| ServerStore.LoadedIsNormalized | main/app/core/server_store.py:62-92 | a loaded registry is already normalized |
| ServerStore.SetOneEntry | main/app/core/server_store.py:168-183 | setting one entry in a normalized registry changes only that entry: an object becomes its normalized record, a non-object drops the entry |
| ServerStore.RemoveOneEntry | main/app/core/server_store.py:185-192 | removing an entry keeps the registry normalized |
| ServerStore.ListKeys | main/app/core/server_store.py:199-202 | the names listed are exactly the registry's keys, without repeats |
| ServerStore.Store.constructor | main/app/core/server_store.py:19-24 | a store over a data directory and its files |
| ServerStore.Store.Save | main/app/core/server_store.py:94-134 | the result is the write's outcome; the files become the atomic-save effect |
| ServerStore.Store.Load | main/app/core/server_store.py:62-92 | returns the loaded registry; the files become the load effect (quarantine of a corrupt file) |
| ServerStore.Store.AddServer | main/app/core/server_store.py:168-173 | succeeds iff the save does; the files become the load effect followed by the save of the loaded registry with the entry set, so on success the registry reads back with the entry set, normalized, and otherwise as before; no path other than the servers file, its temporary file and its backup changes |
| ServerStore.Store.UpdateServer | main/app/core/server_store.py:175-183 | an unknown name fails and the files become the load effect only; otherwise it succeeds iff the save does, the files become the load effect followed by the save of the registry whose record is its old fields overlaid with the updates, and that registry reads back on success; no other path changes |
| ServerStore.Store.RemoveServer | main/app/core/server_store.py:185-192 | an unknown name fails and the files become the load effect only; otherwise it succeeds iff the save does, the files become the load effect followed by the save of the registry without the entry, and that registry reads back on success; no other path changes |
| ServerStore.Store.GetServer | main/app/core/server_store.py:194-197 | returns the stored record when the name is registered, and nothing otherwise |
| ServerStore.Store.ListServers | main/app/core/server_store.py:199-202 | returns the registered names, each once |
| ServerManager.FromDict | main/app/core/server_manager.py:44-57 | a missing required key raises a KeyError naming the first missing one; otherwise every schema field is taken from the dictionary, with defaults for port 25565, storage limit 10, no pid and "stopped" |
| ServerManager.DictRoundTrip | main/app/core/server_manager.py:29-57 | decoding the dictionary of a server gives back its persisted fields |
| ServerManager.ToDictIsNormal | main/app/core/server_manager.py:29-41 | a server's dictionary has exactly the store's schema keys, so the store's normalization leaves it unchanged |
| ServerManager.StoredRecordHasRequiredKeys | main/app/core/server_manager.py:44-54 | a record normalized by the store never makes the decoder raise a KeyError |
| ServerManager.JarVersion | main/app/core/server_manager.py:188-195 | a `paper-*.jar` name yields the version that names it; any other name yields "1.20.6" |
| ServerManager.JarVersionRoundTrip | main/app/core/server_manager.py:141 | the version read from `paper-<v>.jar` is v |
| ServerManager.Window | main/app/core/server_manager.py:500-502 | the buffer is the last min(n, 1000) lines of the history |
| ServerManager.PushWindow | main/app/core/server_manager.py:497-502 | appending to the trimmed buffer equals trimming the extended history |
| ServerManager.ReplayIsWindow | main/app/core/server_manager.py:497-502 | the buffer after any sequence of appends is the last 1000 entries, never more |
| ServerManager.LineReadEffect | main/app/core/server_manager.py:483-507 | a blank line changes nothing; a non-blank line is appended with its timestamp, within 1000 lines; the status becomes "running" iff it was running or the line holds the readiness marker; nothing else changes |
| ServerManager.StreamEndedEffect | main/app/core/server_manager.py:518-523 | when output ends the server is "stopped" with its pid cleared (when it was not already stopped); nothing else changes; doing it twice is the same as once |
| ServerManager.StartEffect | main/app/core/server_manager.py:286-391 | a running server reports success untouched; a refused Java check fails untouched; a successful start has the spawned process and pid, an empty console, a save, and is "running" iff the pid is alive; a failure saves nothing |
| ServerManager.StopEffect | main/app/core/server_manager.py:393-424 | a stopped server reports success untouched; a successful stop leaves the server "stopped" with no pid or process, and saves; stopping fails exactly when sending and awaiting the stop command for a live process fails (the write, the flush, the 30-second wait or the kill after it), and then nothing changes |
| ServerManager.RestartEffect | main/app/core/server_manager.py:426-431 | a restart is a stop followed by a start of the stopped server; a failed stop fails the restart with nothing changed |
| ServerManager.ProbedStatus | main/app/core/server_manager.py:443-451 | the probed status is "running" or "stopped" |
| ServerManager.ProbedStatusAgrees | main/app/core/server_manager.py:443-451 | after a stop, after the output stream ends and after a start, the probed status agrees with the stored one |
| ServerManager.TickAll | main/app/core/server_manager.py:566-589 | a monitoring pass keeps the set of servers |
| ServerManager.TickAllEffect | main/app/core/server_manager.py:566-589 | a pass changes only running servers whose process or pid is gone, and marks those stopped; servers that are not running stay as they were; a second pass changes nothing |
| ServerManager.TailStart | main/app/core/server_manager.py:542 | the slice start lies within the buffer |
| ServerManager.TailSlice | main/app/core/server_manager.py:542 | `lines[-n:]`: the last n lines when 0 < n is within the buffer length; the whole buffer when n is 0 or at least the length; Python's meaning for negative n |
| ServerManager.SnapshotIsNormal | main/app/core/server_manager.py:100-104 | the registry the manager saves is already normalized by the store |
| ServerManager.SavedRegistryReadsBack | main/app/core/server_manager.py:100-115 | after a successful save the store reads back exactly the manager's registry, and each record decodes to its server |
| ServerManager.ServerDir | main/app/core/server_manager.py:121-127 | the server directory ends with "/" and the server's name |
| ServerManager.Manager.constructor | main/app/core/server_manager.py:62-69 | the manager is created over the given store with an empty registry; the program then loads the registry from the store, which is left out |
| ServerManager.Manager.SaveServers | main/app/core/server_manager.py:100-115 | the store's files become the atomic save of the registry's dictionaries; on success the store reads the registry back |
| ServerManager.Manager.CreateServer | main/app/core/server_manager.py:117-177 | on success the server is registered with its directory, its `paper-<version>.jar` and its settings, and saved; on failure nothing changes |
| ServerManager.Manager.StartServer | main/app/core/server_manager.py:286-391 | an unknown name fails with nothing changed; otherwise the record becomes the start outcome, saved when the outcome saves |
| ServerManager.Manager.StopServer | main/app/core/server_manager.py:393-424 | an unknown name fails with nothing changed; otherwise the record becomes the stop outcome, saved when the outcome saves |
| ServerManager.Manager.RestartServer | main/app/core/server_manager.py:426-431 | an unknown name fails with nothing changed; otherwise the record and result are those of the restart outcome, and the files are saved after the stop and, when it succeeded, again after the start |
| ServerManager.Manager.DeleteServer | main/app/core/server_manager.py:433-441 | succeeds iff the name is registered; the server is stopped, then removed, and the registry saved; an unknown name changes nothing |
| ServerManager.Manager.ReadLine | main/app/core/server_manager.py:472-507 | the record becomes the effect of reading the line; the registry is saved iff the line holds the readiness marker |
| ServerManager.Manager.EndOfOutput | main/app/core/server_manager.py:518-523 | the record becomes stopped with no pid; the registry is saved iff the server was not already stopped |
| ServerManager.Manager.SendCommand | main/app/core/server_manager.py:525-536 | succeeds iff the server is known, its process is alive and the write succeeds; then the command and a newline are appended to its input; otherwise nothing changes |
| ServerManager.Manager.GetConsoleOutput | main/app/core/server_manager.py:538-543 | an unknown server has no output; otherwise the result is a suffix of the buffer: all of it for 0 or more lines than it holds, exactly n lines for 0 < n within its length |
| ServerManager.Manager.GetServerStatus | main/app/core/server_manager.py:443-451 | "unknown" iff the name is not registered; "running" iff the pid is set, non-zero and alive; otherwise "stopped" |
| ServerManager.Manager.MonitorTick | main/app/core/server_manager.py:566-589 | the registry becomes one monitoring pass over it |
| WebPanel.SecurePathJoin | main/web_panel/app.py:235-271 | a blank or "/" path gives the base; the path is rejected iff, after stripping and removing leading slashes, it holds "..", a backslash or a NUL; an accepted path lies under the base |
| WebPanel.JoinedComponentsArePlain | main/web_panel/app.py:235-271 | every component an accepted path adds below the base is non-empty, not ".", and holds no "/" and no ".." |
| WebPanel.JoinCleanPath | main/web_panel/app.py:235-271 | a clean relative path of plain components joins to the base followed by exactly those components |
| WebPanel.LeadingSlashTestIsDead | main/web_panel/app.py:245-248 | after the leading slashes are stripped the path never starts with "/", so that part of the rejection test never fires |
| WebPanel.ValidateServerNameAsWritten | main/web_panel/app.py:162-167 | an accepted name is registered and non-empty, and all its characters but the last are letters, digits, "_" or "-" |
| WebPanel.TrailingNewlineAccepted | main/web_panel/app.py:165 | the check as written accepts a registered "mc\n", which the corrected check refuses |
| WebPanel.ValidateServerName | main/web_panel/app.py:162-167 | accepts iff the name is registered and made only of letters, digits, "_" and "-", at least one |
| WebPanel.ValidateAgreesWithoutNewline | main/web_panel/app.py:162-167 | for names not ending in a newline, the two checks agree |
| WebPanel.CheckCreateRequest | main/web_panel/app.py:414-421 | reports the first missing required field in order; "already exists" iff every field is present and the name is registered; proceeds only with all fields present |
| WebPanel.Insert | main/web_panel/app.py:591 | inserting into a sorted listing keeps it sorted and adds exactly that entry |
| WebPanel.SortListing | main/web_panel/app.py:591 | the listing comes out sorted by (is a file, lower-cased name) and is a permutation of the input |
| WebPanel.DirectoriesFirst | main/web_panel/app.py:591 | in a sorted listing no file comes before a directory |
| MainWindow.Parsed | main/app/gui/main_window.py:2399-2402 | a line gives a setting iff, stripped, it is non-empty, not a comment and holds "=" |
| MainWindow.ParsedShape | main/app/gui/main_window.py:2400-2402 | a parsed key holds no "=", and key and value are stripped |
| MainWindow.ParseProperties | main/app/gui/main_window.py:2389-2402 | the loop builds the properties the file's lines define |
| MainWindow.LastSettingWins | main/app/gui/main_window.py:2397-2402 | a key is defined iff some line sets it, and its value is the one set by the last such line |
| MainWindow.KeyOf | main/app/gui/main_window.py:2462-2463 | a line has a key iff it holds "=" and is not a comment |
| MainWindow.UsedKeysMembers | main/app/gui/main_window.py:2458-2470 | a key is marked used iff it is managed and some line of the file has it as its key |
| MainWindow.RewriteLine | main/app/gui/main_window.py:2461-2470 | one pass of the first loop: a line setting a managed key is written as `key=value` and reports that key; any other line is written unchanged and reports no key |
| MainWindow.MergeProperties | main/app/gui/main_window.py:2457-2475 | the loop produces the merged file and the set of used keys |
| MainWindow.AppendUnused | main/app/gui/main_window.py:2472-2475 | the managed entries whose keys were not used are appended in order |
| MainWindow.RewrittenManagedLine | main/app/gui/main_window.py:2461-2467 | a line whose key is managed is written as that key's `key=value` entry |
| MainWindow.EveryManagedKeyWritten | main/app/gui/main_window.py:2457-2475 | every managed key and value is one of the chunks written |
| MainWindow.AppendedOnlyMissing | main/app/gui/main_window.py:2472-2475 | every appended line is a managed entry whose key the file did not have |
| MainWindow.MergedLinesInPlace | main/app/gui/main_window.py:2457-2470 | the file keeps its length or grows; comments and unmanaged lines stay in place; a managed line is replaced by its entry |
| MainWindow.Concat | main/app/gui/main_window.py:2478-2479 | the written text starts with the first chunk |
| MainWindow.UnterminatedLastLineGluesEntry | main/app/gui/main_window.py:2436-2479 | a last line without a line break that sets no managed key is followed directly by the first appended entry in the written text |
| MainWindow.Terminated | main/app/gui/main_window.py:2436-2437 | the chunks are kept, except that the last one ends with a line break |
| MainWindow.MergedIntendedTerminated | main/app/gui/main_window.py:2457-2479 | with the last line terminated, every chunk written ends with a line break and every managed key still gets its entry |
| MainWindow.Or | main/app/gui/main_window.py:2445 | a non-empty text is used as it is; an empty one gives the fallback |
| MainWindow.ManagedPropertiesDistinct | main/app/gui/main_window.py:2440-2455 | the fourteen managed keys are distinct |
| MainWindow.MotdFallback | main/app/gui/main_window.py:2445 | the motd written is the stripped field, or "A Minecraft Server" when that is empty |
| MainWindow.LevelNameFallback | main/app/gui/main_window.py:2452 | the level name written is the stripped field, or "world" when that is empty |
| MainWindow.PortWritten | main/app/gui/main_window.py:2442 | the port is written as its decimal text |
| MainWindow.MotdAlwaysWritten | main/app/gui/main_window.py:2440-2475 | a non-empty `motd=` chunk is always written |
| MainWindow.LevelNameAlwaysWritten | main/app/gui/main_window.py:2440-2475 | a non-empty `level-name=` chunk is always written |
| MainWindow.PortAlwaysWritten | main/app/gui/main_window.py:2440-2475 | a `server-port=` chunk is always written, and its value reads back as the chosen port |
| MainWindow.ConnectionStepSplit | main/app/gui/main_window.py:2540-2546 | a `server-ip=` line sets the host when its value is non-empty; a `server-port=` line sets the port; other lines change nothing |
| MainWindow.ConnectionTarget | main/app/gui/main_window.py:2517-2546 | the loop gives the host and port the file's lines define |
| MainWindow.ConnectionDefaults | main/app/gui/main_window.py:2521-2522 | the host is never empty; with no `server-port=` line the port is "25565" |
| MainWindow.LastPortWins | main/app/gui/main_window.py:2545-2546 | the last `server-port=` line decides the port; unrelated lines change nothing |
| MainWindow.FileSizeLabelMeaning | main/app/gui/main_window.py:2050-2056 | the label is a count and a unit among B, KB and MB; the count is the size in that unit rounded down; bytes are shown iff the size is under 1 KiB |
| MainWindow.FileSizeLabelNumber | main/app/gui/main_window.py:2050-2056 | the label starts with the count, which reads back, followed by a space |
| MainWindow.SizeLabelsAgreeFromOneKiB | main/app/gui/main_window.py:3349-3354 | the plugin list's label equals the file browser's from 1 KiB up; below that it shows "0 KB", which the file browser never does |
| MainWindow.ButtonStates | main/app/gui/main_window.py:200-204 | Start is enabled iff the status is not "running"; Stop and Restart are enabled iff Start is not |
| MainWindow.ButtonsFollowLifecycle | main/app/gui/main_window.py:200-204 | after a successful stop only Start is enabled; after the readiness marker only Stop and Restart are |
| Downloader.JarName | main/app/core/downloader.py:100 | the jar name is "paper-", the version and ".jar" |
| Downloader.JarNameInjective | main/app/core/downloader.py:100 | different versions get different jar names |
| Downloader.LatestVersion | main/app/core/downloader.py:78-84 | the latest version is the first key of a non-empty table, and "1.21.8" for an empty one |
| Downloader.LatestOfFallback | main/app/core/downloader.py:51-71 | the built-in table is well formed and its first version is the fallback "1.21.8" |
| Downloader.PaperJarTarget | main/app/core/downloader.py:86-101 | an unknown version fails; a known one is saved as `paper-<version>.jar` |
| Downloader.PluginFileName | main/app/core/downloader.py:166-170 | the file is the plugin name with ".jar"; "-Spigot.jar" is used exactly for Geyser and Floodgate |
| Downloader.BasicPackFileNamesDistinct | main/app/core/downloader.py:20-35 | the seven plugins of the pack are saved under distinct file names |
| Downloader.FilesOf | main/app/core/downloader.py:160-171 | the files saved for a run of plugins number at most the plugins |
| Downloader.FilesOfMembers | main/app/core/downloader.py:160-171 | a file is listed iff some plugin outside the skipped ones is saved under its name |
| Downloader.DownloadPluginPack | main/app/core/downloader.py:148-221 | every plugin gets a result, True iff it failed neither before nor after its file was opened; the files created are those of the plugins that did not fail before the open (a failure while streaming leaves a truncated file), and the complete files are those of the plugins recorded True, in pack order |
| Downloader.InstallJavaWindows | main/app/core/downloader.py:294-437 | a missing or too-small MSI fails before any attempt; success iff some approach exits 0 before any exits 1618; 1618 stops the loop; other outcomes move to the next approach |
| Downloader.VersionLine | main/app/core/downloader.py:457-459 | picks the first line whose lower-cased text holds "version" |
| Downloader.VersionLineAfter | main/app/core/downloader.py:457-459 | the first line mentioning "version" is found after any lines that do not mention it |
| Downloader.Quoted | main/app/core/downloader.py:462-464 | None iff the line holds fewer than two double quotes; otherwise the text between the first quote and the next, which holds no quote |
| Downloader.QuotedRoundTrip | main/app/core/downloader.py:462-464 | the first quoted text of a line is extracted exactly |
| Downloader.CheckJava | main/app/core/downloader.py:440-484 | installed iff `java -version` ran; the version is the quoted text of the first line mentioning "version" (none when there is no such line or it has no quoted text); compatible only when a version was read, and then iff the rule holds |
| Downloader.LegacyFallbackUnreachable | main/app/core/downloader.py:469-480 | a "1.x" version always parses as major 1, so the "1." fallback never runs and such a version is incompatible |
| Downloader.EarlyAccessIncompatible | main/app/core/downloader.py:469-472 | "17-ea" does not parse as an integer, so it is reported incompatible |
| Downloader.CheckJavaReadsQuotedVersion | main/app/core/downloader.py:440-484 | for any multi-line report whose first line mentioning "version" carries `"v"`, the report is installed, with version v, compatible iff the rule holds for v |
| Downloader.CheckPython | main/app/core/downloader.py:510-534 | always installed; the version is "major.minor.micro"; compatible iff major is at least 3 and minor is at least 8, each tested on its own |
| Downloader.CheckPythonRejectsFourZero | main/app/core/downloader.py:525 | the check as written calls 4.0.0 incompatible, though it is newer than 3.8 |
| Downloader.CheckPythonIntended | main/app/core/downloader.py:510-534 | same report, compatible iff the version is at least 3.8 |
| Downloader.CheckPythonRulesAgreeOnThree | main/app/core/downloader.py:525-528 | both rules agree on every 3.x version; the corrected rule accepts every version above 3 |
| StatsMonitor.RecentLog | main/app/utils/server_stats_monitor.py:206-211 | the tail is the last 1000 characters of the log, or all of a shorter log |
| StatsMonitor.PlayersFromLog | main/app/utils/server_stats_monitor.py:203-221 | max is 20; online is joins minus leaves in the tail, floored at 0 |
| StatsMonitor.NoJoinNoPlayers | main/app/utils/server_stats_monitor.py:216-217 | with no join in the tail, nobody is online |
| StatsMonitor.NoLeaveCountsEveryJoin | main/app/utils/server_stats_monitor.py:216-217 | with no leave in the tail, every join counts |
| StatsMonitor.PlayerInfo | main/app/utils/server_stats_monitor.py:188-201 | max is 20; without a server path or a log, nobody is online |
| StatsMonitor.Uptime | main/app/utils/server_stats_monitor.py:168-186 | with no start time the uptime is "Unknown"; otherwise it is a label ending in "m" |
| StatsMonitor.UptimeParts | main/app/utils/server_stats_monitor.py:173-176 | hours are under 24, minutes under 60, and together with days they make the whole minutes elapsed |
| StatsMonitor.UptimeRoundTrip | main/app/utils/server_stats_monitor.py:168-183 | reading the label back gives the whole minutes elapsed |
| StatsMonitor.PartsLabelRead | main/app/utils/server_stats_monitor.py:178-183 | the "d h m", "h m" and "m" forms each read back as their total minutes |
| StatsMonitor.Tps | main/app/utils/server_stats_monitor.py:223-236 | 20 below 50% CPU; between 15 and 20 below 80%; between 5 and 11 above |
| StatsMonitor.TpsNonIncreasing | main/app/utils/server_stats_monitor.py:223-236 | more CPU never gives a higher TPS |
| StatsMonitor.CacheAfter | main/app/utils/server_stats_monitor.py:133-135 | the cache is either kept or replaced by the size measured now |
| StatsMonitor.CacheIsFresh | main/app/utils/server_stats_monitor.py:133-135 | after a check the cached size is at most 30 seconds old |
| StatsMonitor.CacheReusedWithinInterval | main/app/utils/server_stats_monitor.py:133-135 | a second check within 30 seconds of a refresh reuses the refreshed size |
| StatsMonitor.LimitBytes | main/app/utils/server_stats_monitor.py:138 | the limit in bytes is the limit in GiB times 2^30 |
| StatsMonitor.DiskFigures | main/app/utils/server_stats_monitor.py:137-144 | used is the cached size and total the limit; with no positive limit the percentage is 0, otherwise within 0-100 while under the limit |
| StatsMonitor.LinkAfterConnect | main/app/utils/server_stats_monitor.py:38-51 | a probe that finds the process attaches to its pid, and a running one records its start time; a missing or denied process clears the link |
| StatsMonitor.ConnectIdempotent | main/app/utils/server_stats_monitor.py:38-51 | connecting twice to the same process is the same as once |
| StatsMonitor.Monitor.constructor | main/app/utils/server_stats_monitor.py:18-36 | a new monitor has an empty cache and connects when given a non-zero pid |
| StatsMonitor.Monitor.ConnectToProcess | main/app/utils/server_stats_monitor.py:38-51 | succeeds iff the process is running; the link becomes the connect effect |
| StatsMonitor.Monitor.DiskUsage | main/app/utils/server_stats_monitor.py:126-149 | with an existing server path the cache is refreshed by the 30-second rule and the figures come from it; otherwise all zeros |
| StatsMonitor.Monitor.CurrentStats | main/app/utils/server_stats_monitor.py:70-102 | online iff attached to a running process; otherwise the offline figures with nothing changed; online stats combine uptime, players, TPS, CPU, memory and disk |
| Playit.TunnelUrl | main/playit_manager.py:292-303 | a URL is found iff the line holds "https://"; it sits at the first "https://", starts with it, holds no space, ends in a non-whitespace character, and only whitespace lies between its end and the next space or the end of the line |
| Playit.UrlTail | main/playit_manager.py:298-303 | the stripped slice ends within the slice, and only whitespace follows it up to the slice end |
| Playit.TunnelsAfter | main/playit_manager.py:292-314 | only the "web" tunnel can change; a line without "https://" changes nothing |
| Playit.PublicUrl | main/playit_manager.py:341-345 | a public URL exists iff a "web" tunnel was recorded |
| Playit.PublicUrlAfterLine | main/playit_manager.py:292-345 | after a URL line the public URL is that line's URL; other lines leave it as it was |
| Playit.PublicUrlShape | main/playit_manager.py:268-345 | whatever the agent prints, a public URL is always an "https://" URL without spaces |
| Playit.ChosenExe | main/playit_manager.py:36-49 | the first existing candidate executable is chosen, or the first candidate when none exists |
| Playit.InstallationStatus | main/playit_manager.py:54-70 | "installed" iff the chosen executable exists; "portable" iff on Windows it does not but the local copy does |
| Playit.PortableNeedsLaterCopy | main/playit_manager.py:36-64 | with the executable chosen from the files as they were at start-up, Windows never reports "portable": a present local copy was chosen and reports "installed" |
| Playit.StatusMessageInjective | main/playit_manager.py:382-392 | the three statuses have different messages |
| Playit.AfterStart | main/playit_manager.py:203-240 | starting without an installation fails; an agent already running reports success; success means the agent runs |
| Playit.AfterStop | main/playit_manager.py:242-266 | stopping a running agent with a process leaves it stopped without a process; otherwise nothing changes |
| Playit.TunnelAccepted | main/playit_manager.py:324-339 | a tunnel request succeeds iff the agent runs |
| Playit.StartThenStop | main/playit_manager.py:203-266 | after a successful start a stop leaves the agent stopped, refusing tunnel requests |
| Playit.StopIdempotent | main/playit_manager.py:242-266 | stopping twice is the same as once |
| Playit.Manager.constructor | main/playit_manager.py:20-52 | a new manager has no tunnels and no running agent |
| Playit.Manager.ParseTunnelInfo | main/playit_manager.py:292-314 | the tunnels become the parse effect of the line |
| Playit.Manager.MonitorLine | main/playit_manager.py:279-284 | a stripped line mentioning a tunnel and "http" is parsed; others change nothing |
| Playit.Manager.MonitorFinished | main/playit_manager.py:289-290 | when monitoring ends the agent is marked not running |
| Playit.Manager.GetPublicUrl | main/playit_manager.py:341-345 | returns the public URL of the recorded tunnels |
| Playit.Manager.StartPlayit | main/playit_manager.py:203-240 | the agent and result are the start effect |
| Playit.Manager.StopPlayit | main/playit_manager.py:242-266 | without a running process it reports success and changes nothing; otherwise it reports success iff ending the process went through, and then the agent becomes the stop effect, else it is left as it was |
| Playit.Manager.CreateTunnel | main/playit_manager.py:324-339 | succeeds iff the agent runs |
| PortForwarding.PortFromLine | main/app/utils/port_forwarding.py:237-267 | the port of one netstat line is the one PortOfLine gives, which NetstatLineRoundTrip and UnmarkedLineHasNoPort pin down |
| PortForwarding.NetstatLineRoundTrip | main/app/utils/port_forwarding.py:237-267 | a space-separated Windows line with "TCP", "LISTENING" and the address `host:port` second, or a Unix line with "LISTEN" and that address fourth, yields exactly that port |
| PortForwarding.UnmarkedLineHasNoPort | main/app/utils/port_forwarding.py:237-267 | a line without "LISTENING" and "TCP" (Windows) or without "LISTEN" (Unix) yields no port |
| PortForwarding.ListeningPorts | main/app/utils/port_forwarding.py:218-272 | the loop gives the ports of the output's lines, in order |
| PortForwarding.PortsOfAppend | main/app/utils/port_forwarding.py:218-272 | the ports of two blocks of lines are the ports of each, concatenated |
| PortForwarding.PortsOfFromLines | main/app/utils/port_forwarding.py:218-272 | every port reported comes from some line of the output |
| PortForwarding.PortOfAddressRoundTrip | main/app/utils/port_forwarding.py:242-247 | the port after the last ":" of `host:port` is read back exactly |
| PortForwarding.Without | main/app/utils/port_forwarding.py:75-78 | filtering keeps exactly the rules not dropped |
| PortForwarding.RemoveAfterAddUpnp | main/app/utils/port_forwarding.py:28-84 | removing a UPnP mapping just added leaves what removing that port from the earlier list leaves, and leaves the earlier list itself when that port had no mapping |
| PortForwarding.RemoveUpnpKeepsFirewall | main/app/utils/port_forwarding.py:62-84 | removing UPnP mappings leaves the firewall rules untouched |
| PortForwarding.ServerUrls | main/app/utils/port_forwarding.py:323-336 | "local" is `<local ip>:<port>` and "localhost" is `localhost:<port>`; "public" is present iff a non-empty public address is known, and is then `<public ip>:<port>`; no other key |
| PortForwarding.ServerUrlsCarryPort | main/app/utils/port_forwarding.py:323-336 | every URL reads back the server's port |
| PortForwarding.SetupSucceedsIffOneStepWorked | main/app/utils/port_forwarding.py:338-373 | the setup succeeds iff the firewall or UPnP step worked, that is iff fewer than two errors were recorded |
| PortForwarding.Forwarding.constructor | main/app/utils/port_forwarding.py:11-13 | a new forwarder has no active rules |
| PortForwarding.Forwarding.AddUpnpMapping | main/app/utils/port_forwarding.py:28-60 | succeeds iff the router maps the port; then the TCP mapping is recorded |
| PortForwarding.Forwarding.RemoveUpnpMapping | main/app/utils/port_forwarding.py:62-84 | succeeds iff the router deletes the mapping; then every UPnP rule for that external port is dropped |
| PortForwarding.Forwarding.AddFirewallRule | main/app/utils/port_forwarding.py:86-122 | succeeds iff on Windows with both netsh commands succeeding; then a TCP and UDP rule is recorded |
| PortForwarding.Forwarding.RemoveFirewallRule | main/app/utils/port_forwarding.py:124-156 | on Windows, the rules of that name are dropped; elsewhere nothing changes and it fails |
| PortForwarding.Forwarding.SetupServerNetworking | main/app/utils/port_forwarding.py:338-373 | reports the setup result; the firewall rule and then the UPnP mapping are recorded when they worked |
| PortForwarding.Forwarding.CleanupServerNetworking | main/app/utils/port_forwarding.py:375-392 | succeeds iff both removals did; each removal that ran drops its rules |
| Spigot.SearchParams | main/app/core/spigot_browser.py:45-54 | the size is capped at 100; the sort is "-" plus a known key, or "-downloads"; search and category are sent only when non-empty |
| Spigot.FormatDate | main/app/core/spigot_browser.py:164-171 | a non-positive or non-numeric timestamp gives "Unknown" |
| Spigot.Nested | main/app/core/spigot_browser.py:68-72 | a nested lookup fails exactly when the outer key is present but not an object; a missing outer key yields the default |
| Spigot.ParseItem | main/app/core/spigot_browser.py:63-80 | an item becomes a plugin exactly when it is an object whose author, version, rating and category entries (where present) are objects and whose average rating converts to a number; the plugin keeps the item's name, premium flag (default False) and rating, and both its page and download links carry the item's id |
| Spigot.SearchResults | main/app/core/spigot_browser.py:56-86 | the count is the number of plugins; a failed request or a non-list body gives none; a list body gives exactly ParseItems of its items |
| Spigot.ParseItemsAppend | main/app/core/spigot_browser.py:62-80 | items are parsed one by one, in order |
| Spigot.ParseItemsKeepsWellFormed | main/app/core/spigot_browser.py:62-80 | when every item parses, each gives its plugin in place |
| Spigot.MalformedItemSkipped | main/app/core/spigot_browser.py:68-80 | an item whose author is not an object is skipped |
| Spigot.NameStart | main/app/core/spigot_browser.py:141 | the first position where "filename=" is followed by a character other than a line break, or None when there is none |
| Spigot.FirstFileNameFrom | main/app/core/spigot_browser.py:141 | None iff no "filename=" is followed by a character on its line; otherwise the rest of the line after the first such "filename=", which is non-empty |
| Spigot.WithJar | main/app/core/spigot_browser.py:146-147 | the name ends with ".jar", is kept when it already does, and otherwise gains ".jar" |
| Spigot.WithJarIdempotent | main/app/core/spigot_browser.py:146-147 | adding the extension twice is the same as once |
| Spigot.DownloadFileNameAsWritten | main/app/core/spigot_browser.py:136-147 | with no header or no match, the plugin name with ".jar"; otherwise the header name with quotes stripped, then the ".jar" rule |
| Spigot.HeaderNameEscapesFolder | main/app/core/spigot_browser.py:137-149 | a header "filename=../a" makes the download land at "../a.jar", outside the plugin folder |
| Spigot.BaseName | main/app/core/spigot_browser.py:137-149 | the base name holds no "/" and no "\\" |
| Spigot.DownloadFileName | main/app/core/spigot_browser.py:136-147 | the corrected rule: the same default, and the header name cut to its last path component, then the ".jar" rule |
| Spigot.HeaderNameStaysInFolder | main/app/core/spigot_browser.py:137-149 | with the corrected rule a header's file name holds no "/" |
| Spigot.DownloadTarget | main/app/core/spigot_browser.py:126-147 | premium plugins are refused; any other plugin is saved under the as-written file name |
| Spigot.DownloadTargetIntended | main/app/core/spigot_browser.py:126-147 | the same refusal; a header name never holds "/", and without a header name the target is the one download_plugin picks |
| Spigot.CategoryNames | main/app/core/spigot_browser.py:181 | only truthy names are kept, every truthy name is kept, never more than there were entries |
| Spigot.Categories | main/app/core/spigot_browser.py:175-189 | every category returned is truthy; a failed request, or a list with an entry that is not an object, gives the eleven built-in categories; a list of objects gives exactly CategoryNames of it |
| Spigot.CategoryName | main/app/core/spigot_browser.py:181 | the entry's "name", or "" when it has none |
| Spigot.CategoryNamesOfOne | main/app/core/spigot_browser.py:181 | one entry gives its name iff it has a truthy name |
| Spigot.CategoryNamesAppend | main/app/core/spigot_browser.py:181 | the names of two runs of entries are the names of each, in order (with CategoryNamesOfOne: exactly the truthy names, in entry order) |
| SystemMonitor.GetOpenPorts | main/app/utils/system_monitor.py:216-227 | free ports come back ascending, at most `count`, all within range and free; none below the last one is skipped; fewer than `count` means every free port up to 65535 is included |
| SystemMonitor.Monitor.constructor | main/app/utils/system_monitor.py:33-39 | a new monitor watches nothing |
| SystemMonitor.Monitor.MonitorProcess | main/app/utils/system_monitor.py:53-59 | a negative pid raises; an existing process is watched under its pid; a missing one changes nothing |
| SystemMonitor.Monitor.StopMonitoringProcess | main/app/utils/system_monitor.py:61-64 | the pid is no longer watched; every other entry is kept as it was |

## Left out

- Threads, locks and timers are not modelled. Each entry point runs as one atomic
  step: the store's re-entrant lock, the per-server output reader, the
  monitoring loop, the Playit output reader and the Qt timers.
- Processes, the file system, the network, `psutil`, `netstat`, `netsh`, UPnP
  and HTTP are parameters: liveness sets, success flags, probe results and
  response bodies. Nothing is read from the machine.
- Sleeps are not modelled: the 0.5 s wait after a spawn, the 30 s stop timeout
  followed by a kill, and the pause of the restart.
- Floating point is not modelled. CPU and memory figures are `real`, and
  percentages and TPS are not rounded as Python floats are.
- Python dictionary order is not modelled. Registries are maps, and
  `list_servers` promises the key set without repeats rather than insertion order.
- Path resolution is not modelled: symbolic links, `resolve()` and
  `relative_to`. Paths are sequences of components, and the containment check
  of `secure_path_join` is modelled by construction.
- ServerManager.ServerDir: the stored path is built as text; the
  `relative_to(Path.cwd())` step with its absolute-path fallback and the
  normalisation `Path()` applies (such as "data/" or "./data") are not
  modelled.
- MainWindow.EveryManagedKeyWritten: the entry is one of the chunks written;
  it is a line of the saved text only when the chunk before it ends with a
  line break, which fails when the file's last line has none (see Findings).
- MainWindow.MotdAlwaysWritten: the `motd=` entry is a chunk written; the same
  glued-last-line case as for EveryManagedKeyWritten applies.
- MainWindow.LevelNameAlwaysWritten: the `level-name=` entry is a chunk written; the same
  glued-last-line case applies.
- MainWindow.PortAlwaysWritten: the `server-port=` entry is a chunk written; the same
  glued-last-line case applies.
- The `.bak` rename that `_save_servers_atomic` performs on Windows is not
  modelled, nor a failure of `shutil.copy2` during quarantine.
- ServerStore.Loaded and ServerStore.AfterLoad: every unreadable servers file is
  treated as a `JSONDecodeError` and quarantined. A file that is not valid
  UTF-8 raises `UnicodeDecodeError` instead; it reaches the generic `except`
  of main/app/core/server_store.py:90-92, which returns `{}` without a
  backup and without rewriting the file. That path is not modelled.
- ServerManager.Manager.constructor: the manager starts with an empty
  registry. `__init__` then calls `load_servers` of the manager
  (main/app/core/server_manager.py:69, 71-98), which is not part of this
  model; it adopts running processes through `psutil.Process` handles that
  have no `poll`/`stdin`. A manager over a store that already holds servers
  therefore starts with them in the program, and empty in the model.
- ServerManager.FromDict: only string, integer and null values are decoded;
  other JSON values that Python would carry into a field are reported as a type
  error. The path is kept as the text given: `__init__` wraps it in `Path()` and
  `to_dict` writes `str(self.path)`, so "servers/mc/" and "./servers/mc" come
  back as "servers/mc". That normalisation is not modelled, so the path
  part of DictRoundTrip matches the program only for paths already in that
  normal form.
- The following are not modelled: downloading and extracting the Java
  installer, PATH edits and MSI clean-up after it, progress callbacks, and the
  cache of the version table. The Java check's Windows auto-install retry is
  one recursive call, and it is not modelled.
- Byte and character encodings are not modelled. The log tail counts characters
  where the source seeks in bytes, and console output is already decoded text.
- `splitlines` versus `split('\n')` differences on "\r" are not modelled.
- The UI fields populated from a loaded properties file
  (main/app/gui/main_window.py:2405-2418) are not modelled.
- StatsMonitor.Monitor.CurrentStats: the two `cpu_percent` samples are one
  input, and a process vanishing between the liveness check and the sampling
  is not modelled.
- The following are not modelled: `test_port_accessibility`,
  `get_router_info`, the public-IP lookup, `enable_playit_for_server` and the
  Playit installer and portable download.
- `get_plugin_details` and `get_popular_plugins`
  (main/app/core/spigot_browser.py:88-121) are not modelled: a details request
  builds the same record as a search item, and popular plugins are a search
  sorted by downloads.
- Spigot.ParseItem: Python's `str()` of a list or object is shown as "", and
  `float()` of a string accepts only integer text.
- Spigot.FormatDate: the `strftime` date text is an input function of the
  timestamp.
- The system monitor's monitoring thread, callbacks, system-wide statistics and
  `get_port_info` are not modelled.
- Python's `str.strip`, `lower` and `isspace` are restricted to ASCII, and
  `int()` does not accept underscores.

## Findings

| source | as written | input that shows it | evidently intended | confidence | as-written member | corrected member |
|---|---|---|---|---|---|---|
| main/app/core/downloader.py:525 | compatible iff `major >= 3 and minor >= 8` | Python 4.0.0 is reported incompatible (Downloader.CheckPythonRejectsFourZero) | compatible iff the version is at least 3.8 | not executed | Downloader.CheckPython | Downloader.CheckPythonIntended |
| main/web_panel/app.py:165 | `re.match(r'^[A-Za-z0-9_-]+$', name)`, where `$` also matches before a final newline | the name "mc\n" passes when it is registered (WebPanel.TrailingNewlineAccepted) | only letters, digits, "_" and "-" pass | not executed | WebPanel.ValidateServerNameAsWritten | WebPanel.ValidateServerName |
| main/app/core/spigot_browser.py:137-149 | the Content-Disposition file name is joined to the plugin folder as it is | header "filename=../a" writes to "../a.jar", outside the plugin folder (Spigot.HeaderNameEscapesFolder) | the file stays inside the plugin folder | not executed | Spigot.DownloadTarget | Spigot.DownloadTargetIntended |
| main/app/gui/main_window.py:2436-2479 | `readlines()` keeps a last line without a line break as it is, and `writelines` joins the chunks with nothing between them | a file ending in `rcon.password=x` with no line break is saved as `rcon.password=xonline-mode=...` (MainWindow.UnterminatedLastLineGluesEntry) | every appended entry starts a line of its own | not executed | MainWindow.UnterminatedLastLineGluesEntry | MainWindow.MergedIntendedTerminated |
