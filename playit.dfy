/** The Playit.gg agent wrapper: where the executable is looked for, the
    installation status and its message, the start/stop/tunnel guards,
    and the extraction of the public web URL from the agent's output.

    The filesystem (which candidate paths exist) and process creation are
    inputs; downloading and installing the agent are not part of this
    model. */
module Playit {
  import opened Text

  // ------------------------------------------------------------ the URL

  /** Where the URL ends: the first space at or after `start`, or the end
      of the line (`find(" ", start)`, with -1 read as the end). */
  function UrlEnd(line: string, start: nat): (e: nat)
    requires start <= |line|
    ensures start <= e <= |line|
    ensures forall j :: start <= j < e ==> line[j] != ' '
    ensures e < |line| ==> line[e] == ' '
  {
    SpaceAt(line);
    match FindFrom(line, " ", start)
    case None => |line|
    case Some(i) => i
  }

  /** A one-space pattern occurs exactly where the line holds a space. */
  lemma SpaceAt(line: string)
    ensures forall j: nat :: OccursAt(line, " ", j) <==> j < |line| && line[j] == ' '
  {
    forall j: nat | j < |line| ensures OccursAt(line, " ", j) <==> line[j] == ' ' {
      assert line[j..j + 1] == [line[j]];
    }
  }

  /** `_parse_tunnel_info`: from the first "https://" up to the next
      space (or the end of the line), stripped; None when the line holds
      no "https://". */
  function TunnelUrl(line: string): (r: Option<string>)
    ensures r.Some? <==> Contains(line, "https://")
    ensures r.Some? ==> WebUrl(r.value) && OccursAt(line, r.value, Find(line, "https://").value)
    ensures r.Some? ==> EndsBeforeSpace(line, Find(line, "https://").value, r.value)
  {
    if !Contains(line, "https://") then None
    else
      var start := Find(line, "https://").value;
      var url := Strip(line[start..UrlEnd(line, start)]);
      UrlShape(line, start, UrlEnd(line, start));
      Some(url)
  }

  /** `url`, found at `start`, ends in a non-whitespace character, and
      only whitespace lies between its end and the next space (or the end
      of the line). */
  predicate EndsBeforeSpace(line: string, start: nat, url: string) {
    && start <= |line| && 0 < |url|
    && start + |url| <= UrlEnd(line, start)
    && !IsSpace(url[|url| - 1])
    && forall j :: start + |url| <= j < UrlEnd(line, start) ==> IsSpace(line[j])
  }

  /** A URL as the parser stores it: the scheme first, no space. */
  predicate WebUrl(u: string) {
    StartsWith(u, "https://") && ' ' !in u
  }

  /** The scheme has no space, so the URL runs past it. */
  lemma SchemeBeforeEnd(line: string, start: nat, end: nat)
    requires OccursAt(line, "https://", start) && start <= end <= |line|
    requires end < |line| ==> line[end] == ' '
    ensures start + 8 <= end
  {
  }

  /** Stripping text that starts with the scheme keeps a prefix that
      still starts with it. */
  lemma StripKeepsScheme(t: string)
    requires StartsWith(t, "https://")
    ensures var u := Strip(t); u == t[..|u|] && StartsWith(u, "https://")
    ensures var u := Strip(t); !IsSpace(u[|u| - 1]) && forall i :: |u| <= i < |t| ==> IsSpace(t[i])
  {
    assert t[0] == 'h' && t[7] == '/';
    assert LStrip(t) == t;
    RStripKeepsNonSpace(t, 7);
  }

  /** The stripped slice from a found "https://" to the next space is
      found at the same place, starts with the scheme and has no space. */
  lemma UrlShape(line: string, start: nat, end: nat)
    requires OccursAt(line, "https://", start) && start <= end <= |line|
    requires forall j :: start <= j < end ==> line[j] != ' '
    requires end < |line| ==> line[end] == ' '
    ensures var url := Strip(line[start..end]); WebUrl(url) && OccursAt(line, url, start)
    ensures var url := Strip(line[start..end]);
      8 <= |url| && start + |url| <= end && !IsSpace(url[|url| - 1]) &&
      forall j :: start + |url| <= j < end ==> IsSpace(line[j])
  {
    SchemeBeforeEnd(line, start, end);
    var t := line[start..end];
    assert t[..8] == line[start..start + 8];
    StripKeepsScheme(t);
    var url := Strip(t);
    forall k | 0 <= k < |url| ensures url[k] != ' ' {
      assert url[k] == t[k] == line[start + k];
    }
    assert line[start..start + |url|] == url;
    UrlTail(line, start, end);
  }

  /** What the strip cuts off the slice is whitespace only. */
  lemma UrlTail(line: string, start: nat, end: nat)
    requires OccursAt(line, "https://", start) && start <= end <= |line|
    requires end < |line| ==> line[end] == ' '
    ensures var url := Strip(line[start..end]);
      8 <= |url| && start + |url| <= end && !IsSpace(url[|url| - 1]) &&
      forall j :: start + |url| <= j < end ==> IsSpace(line[j])
  {
    SchemeBeforeEnd(line, start, end);
    var t := line[start..end];
    assert t[..8] == line[start..start + 8];
    StripKeepsScheme(t);
    var url := Strip(t);
    forall j | start + |url| <= j < end ensures IsSpace(line[j]) {
      assert line[j] == t[j - start];
    }
  }

  /** The monitor passes a stripped output line on only when it mentions
      both "tunnel" and "http", in any case. */
  predicate Relevant(line: string) {
    var lower := Lower(Strip(line));
    Contains(lower, "tunnel") && Contains(lower, "http")
  }

  /** A tunnel record as stored under `tunnels["web"]`. */
  datatype Tunnel = Tunnel(url: string, kind: string, status: string)

  /** The tunnel table after parsing one line. */
  function TunnelsAfter(tunnels: map<string, Tunnel>, line: string): (r: map<string, Tunnel>)
    ensures forall k :: k != "web" ==> (k in r <==> k in tunnels) && (k in r ==> r[k] == tunnels[k])
    ensures !Contains(line, "https://") ==> r == tunnels
  {
    match TunnelUrl(line)
    case None => tunnels
    case Some(url) => tunnels["web" := Tunnel(url, "http", "active")]
  }

  /** `get_public_url`. */
  function PublicUrl(tunnels: map<string, Tunnel>): (r: Option<string>)
    ensures r.Some? <==> "web" in tunnels
  {
    if "web" in tunnels then Some(tunnels["web"].url) else None
  }

  /** After a line with a URL the public URL is that URL; a line without
      one leaves the public URL as it was. */
  lemma PublicUrlAfterLine(tunnels: map<string, Tunnel>, line: string)
    ensures Contains(line, "https://") ==> PublicUrl(TunnelsAfter(tunnels, line)) == TunnelUrl(line)
    ensures !Contains(line, "https://") ==> PublicUrl(TunnelsAfter(tunnels, line)) == PublicUrl(tunnels)
  {
  }

  /** Whatever the agent prints, the public URL stays a web URL once it
      starts as one (or is absent). */
  lemma {:induction false} PublicUrlShape(tunnels: map<string, Tunnel>, lines: seq<string>)
    requires PublicUrl(tunnels).Some? ==> WebUrl(PublicUrl(tunnels).value)
    ensures PublicUrl(Seen(tunnels, lines)).Some? ==> WebUrl(PublicUrl(Seen(tunnels, lines)).value)
    decreases |lines|
  {
    if lines != [] {
      PublicUrlShape(tunnels, lines[..|lines| - 1]);
      var line := Strip(lines[|lines| - 1]);
      if Relevant(line) {
        PublicUrlAfterLine(Seen(tunnels, lines[..|lines| - 1]), line);
      }
    }
  }

  /** The table after the monitor has read the given lines. */
  function Seen(tunnels: map<string, Tunnel>, lines: seq<string>): map<string, Tunnel> {
    if lines == [] then tunnels
    else
      var before := Seen(tunnels, lines[..|lines| - 1]);
      var line := Strip(lines[|lines| - 1]);
      if Relevant(line) then TunnelsAfter(before, line) else before
  }

  // ------------------------------------------------------- installation

  /** The outcome of `check_installation_status`. */
  datatype Install = Installed | Portable | NotInstalled

  /** The executable chosen on Windows at start-up: the first of the four
      candidate paths that exists, else the first one. The last candidate
      is the local `playit/playit.exe`. */
  function ChosenExe(present: seq<bool>): (i: nat)
    requires |present| == 4
    ensures i < 4
    ensures present[i] || (i == 0 && forall j :: 0 <= j < 4 ==> !present[j])
    ensures forall j :: 0 <= j < i ==> !present[j]
  {
    if present[0] then 0 else if present[1] then 1 else if present[2] then 2 else if present[3] then 3 else 0
  }

  /** `check_installation_status`: on Windows the chosen executable, then
      the local portable copy; elsewhere only the executable. */
  function InstallationStatus(windows: bool, exeExists: bool, localExeExists: bool): (r: Install)
    ensures r == Installed <==> exeExists
    ensures r == Portable <==> windows && !exeExists && localExeExists
  {
    if exeExists then Installed
    else if windows && localExeExists then Portable
    else NotInstalled
  }

  /** With the files as they were at start-up, Windows never reports the
      portable copy: the local executable, when present, was chosen. */
  lemma PortableNeedsLaterCopy(present: seq<bool>)
    requires |present| == 4
    ensures InstallationStatus(true, present[ChosenExe(present)], present[3]) != Portable
  {
  }

  /** `get_playit_status_message`. */
  function StatusMessage(s: Install): string {
    match s
    case Installed => "\U{2705} Installed"
    case Portable => "\U{2705} Portable Version"
    case NotInstalled => "\U{274C} Not Installed"
  }

  /** Each status has its own message. */
  lemma StatusMessageInjective(a: Install, b: Install)
    requires StatusMessage(a) == StatusMessage(b)
    ensures a == b
  {
  }

  // ---------------------------------------------------------- the agent

  /** Whether the agent is marked running and a process handle is held. */
  datatype Agent = Agent(running: bool, hasProcess: bool)

  /** `start_playit`: refused when not installed; a no-op success when
      already running; otherwise a spawn that, when it succeeds, leaves
      the agent running. */
  function AfterStart(a: Agent, status: Install, spawnOk: bool): (r: (Agent, bool))
    ensures status == NotInstalled ==> r == (a, false)
    ensures status != NotInstalled && a.running ==> r == (a, true)
    ensures r.1 ==> r.0.running
  {
    if status == NotInstalled then (a, false)
    else if a.running then (a, true)
    else if spawnOk then (Agent(true, true), true)
    else (a, false)
  }

  /** `stop_playit`: a no-op success unless running with a process;
      otherwise the process is ended and the agent marked stopped. */
  function AfterStop(a: Agent): (r: Agent)
    ensures !(a.running && a.hasProcess) ==> r == a
    ensures a.running && a.hasProcess ==> !r.running && !r.hasProcess
  {
    if !a.running || !a.hasProcess then a else Agent(false, false)
  }

  /** `create_tunnel`: accepted only while the agent runs. */
  function TunnelAccepted(a: Agent): (ok: bool)
    ensures ok <==> a.running
  {
    a.running
  }

  /** A successful start followed by a stop leaves no agent and no
      process, and no tunnel can be requested afterwards. */
  lemma StartThenStop(a: Agent, status: Install, spawnOk: bool)
    requires a.running ==> a.hasProcess
    ensures var (started, ok) := AfterStart(a, status, spawnOk);
      ok ==> !AfterStop(started).running && !TunnelAccepted(AfterStop(started))
  {
  }

  /** Stopping twice is stopping once. */
  lemma StopIdempotent(a: Agent)
    ensures AfterStop(AfterStop(a)) == AfterStop(a)
  {
  }

  /** The agent object: the tunnel table and the running flag. */
  class Manager {
    var tunnels: map<string, Tunnel>
    var agent: Agent
    const windows: bool

    constructor(windows: bool)
      ensures this.windows == windows
      ensures tunnels == map[] && agent == Agent(false, false)
    {
      this.windows := windows;
      tunnels := map[];
      agent := Agent(false, false);
    }

    method ParseTunnelInfo(line: string)
      modifies this
      ensures tunnels == TunnelsAfter(old(tunnels), line)
      ensures agent == old(agent)
    {
      if Contains(line, "https://") {
        var start := Find(line, "https://").value;
        var url := Strip(line[start..UrlEnd(line, start)]);
        assert TunnelUrl(line) == Some(url);
        tunnels := tunnels["web" := Tunnel(url, "http", "active")];
      }
    }

    /** One line read by `_monitor_playit`. */
    method MonitorLine(raw: string)
      modifies this
      ensures tunnels == (var line := Strip(raw); if Relevant(line) then TunnelsAfter(old(tunnels), line) else old(tunnels))
      ensures agent == old(agent)
    {
      var line := Strip(raw);
      if Relevant(line) {
        ParseTunnelInfo(line);
      } else {
        assert tunnels == old(tunnels);
      }
    }

    /** The monitor's `finally`: the agent is no longer marked running. */
    method MonitorFinished()
      modifies this
      ensures agent == old(agent).(running := false) && tunnels == old(tunnels)
    {
      agent := agent.(running := false);
    }

    method GetPublicUrl() returns (r: Option<string>)
      ensures r == PublicUrl(tunnels)
    {
      r := if "web" in tunnels then Some(tunnels["web"].url) else None;
    }

    method StartPlayit(status: Install, spawnOk: bool) returns (ok: bool)
      modifies this
      ensures (agent, ok) == AfterStart(old(agent), status, spawnOk)
      ensures tunnels == old(tunnels)
    {
      if status == NotInstalled {
        return false;
      }
      if agent.running {
        return true;
      }
      if !spawnOk {
        return false;
      }
      agent := Agent(true, true);
      ok := true;
    }

    /** `stop_playit`. `endOk` is whether terminating and waiting for the
        process (or killing it after the time-out) went through; when one
        of them raises, False is reported and the agent is left as it
        was. */
    method StopPlayit(endOk: bool) returns (ok: bool)
      modifies this
      ensures ok <==> endOk || !old(agent).running || !old(agent).hasProcess
      ensures agent == if ok then AfterStop(old(agent)) else old(agent)
      ensures tunnels == old(tunnels)
    {
      if !agent.running || !agent.hasProcess {
        return true;
      }
      if !endOk {
        return false;
      }
      agent := Agent(false, false);
      ok := true;
    }

    method CreateTunnel(localPort: int) returns (ok: bool)
      ensures ok == TunnelAccepted(agent)
    {
      ok := agent.running;
    }
  }
}
