/** The per-server statistics sampler of the desktop window: the player
    count read from the end of the log, the uptime label, the TPS
    estimate, the cached folder size and the process link.

    Clocks, psutil and the filesystem are inputs: the current time, a
    probe of the process, whether the server folder and its log exist,
    the folder size and the log text. */
module StatsMonitor {
  import opened Text

  // -------------------------------------------------------------- players

  /** The player figures the panel shows. */
  datatype Players = Players(online: nat, max: nat)

  /** The part of the log that is read: its last 1000 characters. */
  function RecentLog(log: string): (r: string)
    ensures |r| == if |log| < 1000 then |log| else 1000
    ensures EndsWith(log, r)
  {
    if |log| <= 1000 then log else log[|log| - 1000..]
  }

  /** `_parse_player_count_from_logs`: joins minus leaves over the recent
      log, never below zero; the maximum is always 20. */
  function PlayersFromLog(log: string): (p: Players)
    ensures p.max == 20
    ensures var recent := RecentLog(log);
      var joins, leaves := Count(recent, "joined the game"), Count(recent, "left the game");
      p.online <= joins && (p.online > 0 ==> p.online + leaves == joins) &&
      (p.online == 0 <==> joins <= leaves)
  {
    var recent := RecentLog(log);
    var online := Count(recent, "joined the game") - Count(recent, "left the game");
    Players(if online < 0 then 0 else online, 20)
  }

  /** Without a join message in the recent log nobody is online. */
  lemma NoJoinNoPlayers(log: string)
    requires !Contains(RecentLog(log), "joined the game")
    ensures PlayersFromLog(log).online == 0
  {
    CountZeroIffAbsent(RecentLog(log), "joined the game");
  }

  /** Without a leave message in the recent log every join counts. */
  lemma NoLeaveCountsEveryJoin(log: string)
    requires !Contains(RecentLog(log), "left the game")
    ensures PlayersFromLog(log).online == Count(RecentLog(log), "joined the game")
  {
    CountZeroIffAbsent(RecentLog(log), "left the game");
  }

  /** `_get_player_info`: the log is read only when the server folder is
      known and `logs/latest.log` exists; otherwise 0 of 20. */
  function PlayerInfo(hasPath: bool, log: Option<string>): (p: Players)
    ensures p.max == 20
    ensures !hasPath || log.None? ==> p.online == 0
  {
    if hasPath && log.Some? then PlayersFromLog(log.value) else Players(0, 20)
  }

  // --------------------------------------------------------------- uptime

  /** `_get_uptime` once the elapsed time is known, in whole seconds
      (`//` on the float elapsed time floors to the same values). Days,
      hours and minutes are floored as Python's `//` and `%` do. */
  function UptimeLabel(secs: int): (r: string)
    ensures EndsWith(r, "m")
  {
    PartsLabel(secs / 86400, (secs % 86400) / 3600, (secs % 3600) / 60)
  }

  /** The f-string choice: days only when positive, hours only when
      positive or when days are shown. */
  function PartsLabel(days: int, hours: nat, minutes: nat): (r: string)
    ensures EndsWith(r, "m")
  {
    if days > 0 then Piece(days, 'd') + " " + Piece(hours, 'h') + " " + Piece(minutes, 'm')
    else if hours > 0 then Piece(hours, 'h') + " " + Piece(minutes, 'm')
    else Piece(minutes, 'm')
  }

  /** A number and its unit letter, as in "12h". */
  function Piece(n: nat, unit: char): string {
    NatToString(n) + [unit]
  }

  /** `_get_uptime`: "Unknown" unless a (truthy) start time is known. */
  function Uptime(start: Option<real>, now: real): (r: string)
    ensures start.None? || start.value == 0.0 ==> r == "Unknown"
    ensures start.Some? && start.value != 0.0 ==> EndsWith(r, "m")
  {
    if start.Some? && start.value != 0.0 then UptimeLabel((now - start.value).Floor) else "Unknown"
  }

  /** The number before a one-letter unit, as in "12h". */
  function UnitValue(part: string, unit: char): Option<nat> {
    if part != [] && part[|part| - 1] == unit then ParseNat(part[..|part| - 1]) else None
  }

  /** Days, hours and minutes as whole minutes. */
  function Minutes(days: nat, hours: nat, minutes: nat): nat {
    days * 1440 + hours * 60 + minutes
  }

  /** Reads an uptime label back as whole minutes. */
  function LabelMinutes(shown: string): Option<nat> {
    var parts := SplitOn(shown, ' ');
    if |parts| == 3 then
      var d, h, m := UnitValue(parts[0], 'd'), UnitValue(parts[1], 'h'), UnitValue(parts[2], 'm');
      if d.Some? && h.Some? && m.Some? then Some(Minutes(d.value, h.value, m.value)) else None
    else if |parts| == 2 then
      var h, m := UnitValue(parts[0], 'h'), UnitValue(parts[1], 'm');
      if h.Some? && m.Some? then Some(Minutes(0, h.value, m.value)) else None
    else if |parts| == 1 then
      var m := UnitValue(parts[0], 'm');
      if m.Some? then Some(Minutes(0, 0, m.value)) else None
    else None
  }

  /** The floored parts of a non-negative number of seconds. */
  lemma UptimeParts(secs: nat)
    ensures var days, hours, minutes := secs / 86400, (secs % 86400) / 3600, (secs % 3600) / 60;
      hours < 24 && minutes < 60 && Minutes(days, hours, minutes) == secs / 60
  {
    var days, r1 := secs / 86400, secs % 86400;
    var hours, r2 := r1 / 3600, r1 % 3600;
    assert secs == (days * 24 + hours) * 3600 + r2;
    DivModUnique(secs, 3600, days * 24 + hours, r2);
    var minutes, r3 := r2 / 60, r2 % 60;
    assert secs == (days * 1440 + hours * 60 + minutes) * 60 + r3;
    DivModUnique(secs, 60, days * 1440 + hours * 60 + minutes, r3);
  }

  lemma DivModUnique(a: int, b: int, q: int, r: int)
    requires b == 60 || b == 3600
    requires a == q * b + r && 0 <= r < b
    ensures a / b == q && a % b == r
  {
    if b == 60 {
      assert a == q * 60 + r;
    } else {
      assert a == q * 3600 + r;
    }
  }

  /** A number followed by its unit letter reads back as the number, and
      holds no space. */
  lemma UnitRoundTrip(n: nat, unit: char)
    requires unit != ' ' && !IsDigit(unit)
    ensures UnitValue(Piece(n, unit), unit) == Some(n)
    ensures ' ' !in Piece(n, unit)
  {
    var p := Piece(n, unit);
    assert p[..|p| - 1] == NatToString(n);
    NatToStringRoundTrip(n);
  }

  /** The labels as space-joined pieces. */
  lemma JoinPieces(a: string, b: string, c: string)
    ensures Join([c], ' ') == c
    ensures Join([b, c], ' ') == b + " " + c
    ensures Join([a, b, c], ' ') == a + " " + b + " " + c
  {
    assert [b, c][1..] == [c];
    assert [a, b, c][1..] == [b, c];
  }

  /** Reading back the pieces of a label. */
  lemma ReadThree(d: nat, h: nat, m: nat)
    ensures LabelMinutes(Join([Piece(d, 'd'), Piece(h, 'h'), Piece(m, 'm')], ' ')) == Some(Minutes(d, h, m))
  {
    var parts := [Piece(d, 'd'), Piece(h, 'h'), Piece(m, 'm')];
    UnitRoundTrip(d, 'd');
    UnitRoundTrip(h, 'h');
    UnitRoundTrip(m, 'm');
    SplitOnJoin(parts, ' ');
    ThreeParts(Join(parts, ' '), parts, d, h, m);
  }

  lemma ThreeParts(shown: string, parts: seq<string>, d: nat, h: nat, m: nat)
    requires SplitOn(shown, ' ') == parts && |parts| == 3
    requires UnitValue(parts[0], 'd') == Some(d) && UnitValue(parts[1], 'h') == Some(h)
    requires UnitValue(parts[2], 'm') == Some(m)
    ensures LabelMinutes(shown) == Some(Minutes(d, h, m))
  {
  }

  lemma ReadTwo(h: nat, m: nat)
    ensures LabelMinutes(Join([Piece(h, 'h'), Piece(m, 'm')], ' ')) == Some(Minutes(0, h, m))
  {
    UnitRoundTrip(h, 'h');
    UnitRoundTrip(m, 'm');
    SplitOnJoin([Piece(h, 'h'), Piece(m, 'm')], ' ');
  }

  lemma ReadOne(m: nat)
    ensures LabelMinutes(Join([Piece(m, 'm')], ' ')) == Some(Minutes(0, 0, m))
  {
    UnitRoundTrip(m, 'm');
    SplitOnJoin([Piece(m, 'm')], ' ');
  }

  /** A label built from parts reads back as their total in minutes. */
  lemma PartsLabelRead(days: int, hours: nat, minutes: nat)
    ensures days > 0 ==> LabelMinutes(PartsLabel(days, hours, minutes)) == Some(Minutes(days, hours, minutes))
    ensures days <= 0 ==> LabelMinutes(PartsLabel(days, hours, minutes)) == Some(Minutes(0, hours, minutes))
  {
    if days > 0 {
      DaysLabelRead(days, hours, minutes);
    } else if hours > 0 {
      HoursLabelRead(hours, minutes);
    } else {
      MinutesLabelRead(minutes);
    }
  }

  lemma MinutesLabelRead(minutes: nat)
    ensures LabelMinutes(PartsLabel(0, 0, minutes)) == Some(Minutes(0, 0, minutes))
  {
    var m := Piece(minutes, 'm');
    JoinPieces(m, m, m);
    ReadOne(minutes);
  }

  lemma DaysLabelRead(days: nat, hours: nat, minutes: nat)
    requires days > 0
    ensures LabelMinutes(PartsLabel(days, hours, minutes)) == Some(Minutes(days, hours, minutes))
  {
    var d, h, m := Piece(days, 'd'), Piece(hours, 'h'), Piece(minutes, 'm');
    JoinPieces(d, h, m);
    assert PartsLabel(days, hours, minutes) == Join([d, h, m], ' ');
    ReadThree(days, hours, minutes);
  }

  lemma HoursLabelRead(hours: nat, minutes: nat)
    requires hours > 0
    ensures LabelMinutes(PartsLabel(0, hours, minutes)) == Some(Minutes(0, hours, minutes))
  {
    var h, m := Piece(hours, 'h'), Piece(minutes, 'm');
    JoinPieces(h, h, m);
    assert PartsLabel(0, hours, minutes) == Join([h, m], ' ');
    ReadTwo(hours, minutes);
  }

  /** The uptime label states the elapsed time to the minute: reading it
      back gives the whole minutes elapsed. */
  lemma UptimeRoundTrip(secs: nat)
    ensures LabelMinutes(UptimeLabel(secs)) == Some(secs / 60)
  {
    UptimeParts(secs);
    PartsTotal(secs / 86400, (secs % 86400) / 3600, (secs % 3600) / 60, secs / 60);
  }

  lemma PartsTotal(days: nat, hours: nat, minutes: nat, total: nat)
    requires Minutes(days, hours, minutes) == total
    ensures LabelMinutes(PartsLabel(days, hours, minutes)) == Some(total)
  {
    if days > 0 {
      DaysLabelRead(days, hours, minutes);
    } else {
      assert days == 0;
      if hours > 0 {
        HoursLabelRead(hours, minutes);
      } else {
        assert hours == 0;
        MinutesLabelRead(minutes);
      }
    }
  }

  // ------------------------------------------------------------------ TPS

  /** `_get_tps`: 20 below 50% CPU, degrading linearly with a floor of 15
      below 80%, and of 5 above. */
  function Tps(cpu: real): (t: real)
    ensures cpu < 50.0 ==> t == 20.0
    ensures 50.0 <= cpu < 80.0 ==> 15.0 <= t <= 20.0
    ensures cpu >= 80.0 ==> 5.0 <= t <= 11.0
  {
    if cpu < 50.0 then 20.0
    else if cpu < 80.0 then (var e := 20.0 - (cpu - 50.0) * 0.17; if e > 15.0 then e else 15.0)
    else (var e := 20.0 - (cpu - 50.0) * 0.3; if e > 5.0 then e else 5.0)
  }

  /** More CPU never raises the estimate. */
  lemma TpsNonIncreasing(a: real, b: real)
    requires a <= b
    ensures Tps(b) <= Tps(a)
  {
  }

  // ---------------------------------------------------------------- disk

  /** The disk figures: bytes used, the limit in bytes, and the share. */
  datatype Usage = Usage(used: int, total: int, percent: real)

  /** The cached folder size and the time it was measured. */
  datatype SizeCache = SizeCache(size: nat, checkedAt: real)

  /** The cache after a sample at `now`: recomputed when more than 30
      seconds have passed since the last check, reused otherwise. */
  function CacheAfter(c: SizeCache, now: real, folderSize: nat): (r: SizeCache)
    ensures r == c || r == SizeCache(folderSize, now)
  {
    if now - c.checkedAt > 30.0 then SizeCache(folderSize, now) else c
  }

  /** The size shown is never measured more than 30 seconds before the
      sample, as long as the clock does not run backwards. */
  lemma CacheIsFresh(c: SizeCache, now: real, folderSize: nat)
    requires c.checkedAt <= now
    ensures var r := CacheAfter(c, now, folderSize); r.checkedAt <= now && now - r.checkedAt <= 30.0
  {
  }

  /** Within 30 seconds of a measurement, later samples reuse it whatever
      the folder now holds. */
  lemma CacheReusedWithinInterval(c: SizeCache, t1: real, s1: nat, t2: real, s2: nat)
    requires t1 - c.checkedAt > 30.0 && t2 - t1 <= 30.0
    ensures CacheAfter(CacheAfter(c, t1, s1), t2, s2) == SizeCache(s1, t1)
  {
  }

  /** The storage limit is given in GiB. */
  function LimitBytes(storageLimit: int): (b: int)
    ensures b > 0 <==> storageLimit > 0
    ensures b / 1073741824 == storageLimit
  {
    storageLimit * 1024 * 1024 * 1024
  }

  /** The disk figures for a cached size and a limit; no share without a
      positive limit. */
  function DiskFigures(size: nat, storageLimit: int): (u: Usage)
    ensures u.used == size && u.total == LimitBytes(storageLimit)
    ensures u.total <= 0 ==> u.percent == 0.0
    ensures u.total > 0 && size <= u.total ==> 0.0 <= u.percent <= 100.0
  {
    var limit := LimitBytes(storageLimit);
    Usage(size, limit, if limit > 0 then (size as real) / (limit as real) * 100.0 else 0.0)
  }

  const NoUsage := Usage(0, 0, 0.0)

  // --------------------------------------------------------------- stats

  /** What `get_current_stats` reports. */
  datatype Stats = Stats(online: bool, cpuPercent: real, memory: Usage, disk: Usage,
                         uptime: string, players: Players, tps: real)

  /** `_get_offline_stats`. */
  const OfflineStats := Stats(false, 0.0, NoUsage, NoUsage, "Server offline", Players(0, 0), 0.0)

  /** What psutil reports about a pid: gone, not accessible, present but
      not running, or running since the given time. */
  datatype Probe = NoSuchProcess | AccessDenied | NotRunning | Running(createTime: real)

  /** The link to the server process: its pid, whether a process handle
      is held, and the process start time. */
  datatype Link = Link(pid: Option<int>, attached: bool, start: Option<real>)

  /** `connect_to_process(pid)`: a running process is attached with its
      start time; a process that is present but stopped is attached
      without touching the start time; a psutil error clears the link. */
  function LinkAfterConnect(l: Link, pid: int, probe: Probe): (r: Link)
    ensures r.attached <==> probe.NotRunning? || probe.Running?
    ensures r.attached ==> r.pid == Some(pid)
    ensures !r.attached ==> r == Link(None, false, None)
    ensures probe.Running? ==> r.start == Some(probe.createTime)
    ensures r.start.Some? && r.start != l.start ==> probe.Running?
  {
    match probe
    case NoSuchProcess => Link(None, false, None)
    case AccessDenied => Link(None, false, None)
    case NotRunning => Link(Some(pid), true, l.start)
    case Running(t) => Link(Some(pid), true, Some(t))
  }

  /** Connecting again with the same outcome changes nothing more. */
  lemma ConnectIdempotent(l: Link, pid: int, probe: Probe)
    ensures var once := LinkAfterConnect(l, pid, probe);
      LinkAfterConnect(once, pid, probe) == once
  {
  }

  class Monitor {
    var link: Link
    var cache: SizeCache
    const hasPath: bool
    const storageLimit: int

    /** `ServerStatsMonitor.__init__`: nothing cached, and a connection
        attempt when a (non-zero) pid is given. */
    constructor(pid: Option<int>, probe: Probe, hasPath: bool, storageLimit: int)
      ensures this.hasPath == hasPath && this.storageLimit == storageLimit
      ensures cache == SizeCache(0, 0.0)
      ensures link == if pid.Some? && pid.value != 0
                      then LinkAfterConnect(Link(pid, false, None), pid.value, probe)
                      else Link(pid, false, None)
    {
      this.hasPath := hasPath;
      this.storageLimit := storageLimit;
      link := Link(pid, false, None);
      cache := SizeCache(0, 0.0);
      new;
      if pid.Some? && pid.value != 0 {
        var _ := ConnectToProcess(pid.value, probe);
      }
    }

    /** `connect_to_process`. */
    method ConnectToProcess(pid: int, probe: Probe) returns (ok: bool)
      modifies this
      ensures ok <==> probe.Running?
      ensures link == LinkAfterConnect(old(link), pid, probe)
      ensures cache == old(cache)
    {
      link := link.(pid := Some(pid));
      match probe {
        case NoSuchProcess =>
          link := Link(None, false, None);
          return false;
        case AccessDenied =>
          link := Link(None, false, None);
          return false;
        case NotRunning =>
          link := link.(attached := true);
          return false;
        case Running(t) =>
          link := link.(attached := true, start := Some(t));
          return true;
      }
    }

    /** `_get_disk_usage`: without a known, existing server folder nothing
        is measured; otherwise the cache rule applies and the cached size
        is reported against the limit. */
    method DiskUsage(now: real, pathExists: bool, folderSize: nat) returns (u: Usage)
      modifies this
      ensures link == old(link)
      ensures hasPath && pathExists ==>
        cache == CacheAfter(old(cache), now, folderSize) && u == DiskFigures(cache.size, storageLimit)
      ensures !(hasPath && pathExists) ==> cache == old(cache) && u == NoUsage
    {
      if !(hasPath && pathExists) {
        return NoUsage;
      }
      if now - cache.checkedAt > 30.0 {
        cache := SizeCache(folderSize, now);
      }
      var limit := storageLimit * 1024 * 1024 * 1024;
      u := Usage(cache.size, limit, if limit > 0 then (cache.size as real) / (limit as real) * 100.0 else 0.0);
    }

    /** `get_current_stats`: the offline figures without a running
        process; otherwise one sample of CPU and memory, the disk figures,
        the uptime, the players and the TPS estimate. */
    method CurrentStats(running: bool, cpu: real, memory: Usage, now: real, pathExists: bool,
                        folderSize: nat, log: Option<string>) returns (s: Stats)
      modifies this
      ensures link == old(link)
      ensures s.online <==> link.attached && running
      ensures !(link.attached && running) ==> s == OfflineStats && cache == old(cache)
      ensures link.attached && running ==>
        s.uptime == Uptime(link.start, now) && s.players == PlayerInfo(hasPath, log) &&
        s.tps == Tps(cpu) && s.cpuPercent == cpu && s.memory == memory &&
        (hasPath && pathExists ==> cache == CacheAfter(old(cache), now, folderSize) &&
                                   s.disk == DiskFigures(cache.size, storageLimit)) &&
        (!(hasPath && pathExists) ==> cache == old(cache) && s.disk == NoUsage)
    {
      if !link.attached || !running {
        return OfflineStats;
      }
      var disk := DiskUsage(now, pathExists, folderSize);
      s := Stats(true, cpu, memory, disk, Uptime(link.start, now), PlayerInfo(hasPath, log), Tps(cpu));
    }
  }
}
