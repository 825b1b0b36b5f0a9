/** The system monitor's bookkeeping of watched processes, and the scan
    for ports nothing listens on. Whether a port accepts a connection and
    whether a process exists are inputs. */
module SystemMonitor {

  /** The highest TCP port number. */
  const MaxPort := 65535

  /** `PortChecker.get_open_ports`: scanning upwards from `start`, the
      first `count` ports that `isOpen` reports closed (no server
      accepting), stopping early past port 65535. The ports come back in
      ascending order, all within range and all reported closed; every
      closed port below the last one returned is among them, and when
      fewer than `count` come back, every closed port up to 65535 is. */
  method GetOpenPorts(start: int, count: int, isOpen: int -> bool) returns (ports: seq<int>)
    ensures |ports| <= count || ports == []
    ensures forall i :: 0 <= i < |ports| ==> start <= ports[i] <= MaxPort && !isOpen(ports[i])
    ensures forall i, j :: 0 <= i < j < |ports| ==> ports[i] < ports[j]
    ensures forall p :: start <= p <= MaxPort && !isOpen(p) && |ports| < count ==> p in ports
    ensures forall p :: ports != [] && start <= p < ports[|ports| - 1] && !isOpen(p) ==> p in ports
  {
    ports := [];
    var port := start;
    while |ports| < count && port <= MaxPort
      invariant start <= port && (port > start ==> port <= MaxPort + 1)
      invariant |ports| <= count || ports == []
      invariant forall i :: 0 <= i < |ports| ==> start <= ports[i] < port && ports[i] <= MaxPort && !isOpen(ports[i])
      invariant forall i, j :: 0 <= i < j < |ports| ==> ports[i] < ports[j]
      invariant forall p :: start <= p < port && !isOpen(p) ==> p in ports
      decreases MaxPort + 1 - port
    {
      if !isOpen(port) {
        ports := ports + [port];
      }
      port := port + 1;
    }
  }

  /** A watched process, as `psutil.Process` hands it back. */
  datatype Handle = Handle(pid: int)

  /** What the monitor keeps of the processes it watches. */
  class Monitor {
    var monitored: map<int, Handle>

    /** A new monitor watches nothing. */
    constructor ()
      ensures monitored == map[]
    {
      monitored := map[];
    }

    /** `monitor_process`: a process that exists is watched under its
        pid (replacing an older handle); a missing one is ignored; a
        negative pid makes psutil raise, which reaches the caller. */
    method MonitorProcess(pid: int, alive: bool) returns (raised: bool)
      modifies this
      ensures raised <==> pid < 0
      ensures !raised && alive ==> monitored == old(monitored)[pid := Handle(pid)]
      ensures raised || !alive ==> monitored == old(monitored)
    {
      if pid < 0 {
        return true;
      }
      raised := false;
      if alive {
        monitored := monitored[pid := Handle(pid)];
      }
    }

    /** `stop_monitoring_process`: the pid is no longer watched and every
        other watched process is kept as it was. */
    method StopMonitoringProcess(pid: int)
      modifies this
      ensures pid !in monitored
      ensures forall p :: p != pid ==> (p in monitored <==> p in old(monitored))
      ensures forall p :: p in monitored ==> monitored[p] == old(monitored)[p]
      ensures pid !in old(monitored) ==> monitored == old(monitored)
    {
      if pid in monitored {
        monitored := monitored - {pid};
      }
    }
  }
}
