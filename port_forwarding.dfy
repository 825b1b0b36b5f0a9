/** The port-forwarding helper: reading the listening ports out of
    `netstat` output, the list of rules it has added (firewall rules and
    UPnP mappings), the connection addresses it offers, and the outcome
    of a network setup.

    The router, the firewall command and the address lookups are inputs:
    whether a mapping or rule command succeeded, the local address and
    the public address. */
module PortForwarding {
  import opened Text

  // ------------------------------------------------------------- netstat

  /** The port of an address such as "0.0.0.0:25565": `int()` of the text
      after the last ':'; None without a ':' or when that text is not a
      number. */
  function PortOfAddress(addr: string): Option<int> {
    if ':' in addr then PyInt(AfterLast(addr, ':')) else None
  }

  /** A listening port from one line of `netstat` output. On Windows the
      line must mention both "LISTENING" and "TCP" and the address is the
      second field; elsewhere it must mention "LISTEN" and the address is
      the fourth field. */
  function PortOfLine(line: string, windows: bool): Option<int> {
    if windows then
      if Contains(line, "LISTENING") && Contains(line, "TCP") then
        var parts := Fields(line);
        if |parts| >= 2 then PortOfAddress(parts[1]) else None
      else None
    else if Contains(line, "LISTEN") then
      var parts := Fields(line);
      if |parts| >= 4 then PortOfAddress(parts[3]) else None
    else None
  }

  /** The ports of the given lines, in line order. */
  function PortsOf(lines: seq<string>, windows: bool): (ports: seq<int>)
    ensures |ports| <= |lines|
  {
    if lines == [] then []
    else PortsOf(lines[..|lines| - 1], windows) + Emitted(PortOfLine(lines[|lines| - 1], windows))
  }

  /** The ports one line contributes. */
  function Emitted(port: Option<int>): (r: seq<int>)
    ensures |r| <= 1
  {
    if port.Some? then [port.value] else []
  }

  lemma PortsOfNext(lines: seq<string>, i: nat, windows: bool)
    requires i < |lines|
    ensures PortsOf(lines[..i + 1], windows) ==
      PortsOf(lines[..i], windows) + Emitted(PortOfLine(lines[i], windows))
  {
    assert lines[..i + 1][..i] == lines[..i];
  }

  /** The body of the parsing loop for one line. */
  method PortFromLine(line: string, windows: bool) returns (port: Option<int>)
    ensures port == PortOfLine(line, windows)
  {
    port := None;
    if windows {
      if Contains(line, "LISTENING") && Contains(line, "TCP") {
        var parts := Fields(line);
        if |parts| >= 2 && ':' in parts[1] {
          port := PyInt(AfterLast(parts[1], ':'));
        }
      }
    } else if Contains(line, "LISTEN") {
      var parts := Fields(line);
      if |parts| >= 4 && ':' in parts[3] {
        port := PyInt(AfterLast(parts[3], ':'));
      }
    }
  }

  /** `_get_listening_ports` on captured `netstat` output. */
  method ListeningPorts(output: string, windows: bool) returns (ports: seq<int>)
    ensures ports == PortsOf(SplitOn(output, '\n'), windows)
  {
    var lines := SplitOn(output, '\n');
    ports := [];
    var i := 0;
    while i < |lines|
      invariant 0 <= i <= |lines|
      invariant ports == PortsOf(lines[..i], windows)
    {
      var port := PortFromLine(lines[i], windows);
      PortsOfNext(lines, i, windows);
      if port.Some? {
        ports := ports + [port.value];
      }
      i := i + 1;
    }
    assert lines[..i] == lines;
  }

  /** The ports of two runs of lines are the ports of each, in order. */
  lemma {:induction false} PortsOfAppend(a: seq<string>, b: seq<string>, windows: bool)
    ensures PortsOf(a + b, windows) == PortsOf(a, windows) + PortsOf(b, windows)
    decreases |b|
  {
    if b == [] {
      assert a + b == a;
    } else {
      var b' := b[..|b| - 1];
      assert (a + b)[..|a + b| - 1] == a + b';
      assert (a + b)[|a + b| - 1] == b[|b| - 1];
      var tail := Emitted(PortOfLine(b[|b| - 1], windows));
      assert PortsOf(a + b, windows) == PortsOf(a + b', windows) + tail;
      assert PortsOf(b, windows) == PortsOf(b', windows) + tail;
      PortsOfAppend(a, b', windows);
    }
  }

  /** Every reported port was read from one of the lines. */
  lemma {:induction false} PortsOfFromLines(lines: seq<string>, windows: bool, k: nat)
    requires k < |PortsOf(lines, windows)|
    ensures exists i :: 0 <= i < |lines| && PortOfLine(lines[i], windows) == Some(PortsOf(lines, windows)[k])
    decreases |lines|
  {
    var init := lines[..|lines| - 1];
    var before := PortsOf(init, windows);
    var last := PortOfLine(lines[|lines| - 1], windows);
    assert PortsOf(lines, windows) == before + Emitted(last);
    if k < |before| {
      PortsOfFromLines(init, windows, k);
      var i :| 0 <= i < |init| && PortOfLine(init[i], windows) == Some(before[k]);
      assert lines[i] == init[i];
    } else {
      assert last == Some(PortsOf(lines, windows)[k]);
    }
  }

  /** A `netstat` line reads back the port of its address field. On
      Windows (`netstat -an`) the line lists the protocol, the local
      address "<host>:<port>" second, and the state "LISTENING"; on Unix
      (`netstat -tlnp`) the local address is the fourth field and the
      state is "LISTEN". The fields are printed separated by spaces. */
  lemma NetstatLineRoundTrip(fields: seq<string>, host: string, port: int, windows: bool)
    requires forall i :: 0 <= i < |fields| ==> Word(fields[i])
    requires windows ==> (
      && |fields| >= 2 && fields[1] == host + ":" + IntToString(port)
      && "TCP" in fields && "LISTENING" in fields)
    requires !windows ==> |fields| >= 4 && fields[3] == host + ":" + IntToString(port) && "LISTEN" in fields
    ensures PortOfLine(Join(fields, ' '), windows) == Some(port)
  {
    var line := Join(fields, ' ');
    FieldsOfSpaced(fields);
    PortOfAddressRoundTrip(host, port);
    if windows {
      var i :| 0 <= i < |fields| && fields[i] == "TCP";
      var j :| 0 <= j < |fields| && fields[j] == "LISTENING";
      JoinedPartOccurs(fields, ' ', i);
      JoinedPartOccurs(fields, ' ', j);
    } else {
      var j :| 0 <= j < |fields| && fields[j] == "LISTEN";
      JoinedPartOccurs(fields, ' ', j);
    }
  }

  /** A line without the listening marker contributes no port. */
  lemma UnmarkedLineHasNoPort(line: string, windows: bool)
    requires windows ==> !Contains(line, "LISTENING") || !Contains(line, "TCP")
    requires !windows ==> !Contains(line, "LISTEN")
    ensures PortOfLine(line, windows).None?
  {
  }

  /** An address printed as "<host>:<port>" reads back as the port. */
  lemma PortOfAddressRoundTrip(host: string, port: int)
    ensures PortOfAddress(host + ":" + IntToString(port)) == Some(port)
  {
    var digits := IntToString(port);
    assert ':' !in digits by {
      if port < 0 {
        assert digits == "-" + NatToString(-port);
      }
    }
    assert host + ":" + digits == host + [':'] + digits;
    assert (host + [':'] + digits)[|host|] == ':';
    AfterLastOfSuffix(host, ':', digits);
    IntToStringRoundTrip(port);
  }

  // --------------------------------------------------------------- rules

  /** An entry of `active_rules`. */
  datatype Rule =
    | Upnp(internalPort: int, externalPort: int, protocol: string, description: string)
    | Firewall(port: int, name: string, protocols: seq<string>)

  /** The rules not matched by `drop`, in their original order (the list
      comprehensions of the two remove operations). */
  function Without(rules: seq<Rule>, drop: Rule -> bool): (r: seq<Rule>)
    ensures |r| <= |rules|
    ensures forall x :: x in r <==> x in rules && !drop(x)
  {
    if rules == [] then []
    else
      var rest := Without(rules[1..], drop);
      if drop(rules[0]) then rest else [rules[0]] + rest
  }

  /** Filtering a concatenation filters each part. */
  lemma {:induction false} WithoutAppend(a: seq<Rule>, b: seq<Rule>, drop: Rule -> bool)
    ensures Without(a + b, drop) == Without(a, drop) + Without(b, drop)
    decreases |a|
  {
    if a == [] {
      assert a + b == b;
    } else {
      assert (a + b)[1..] == a[1..] + b;
      WithoutAppend(a[1..], b, drop);
    }
  }

  /** A list in which nothing matches is kept as it is. */
  lemma {:induction false} WithoutNothing(rules: seq<Rule>, drop: Rule -> bool)
    requires forall x :: x in rules ==> !drop(x)
    ensures Without(rules, drop) == rules
    decreases |rules|
  {
    if rules != [] {
      WithoutNothing(rules[1..], drop);
    }
  }

  predicate IsUpnpFor(r: Rule, externalPort: int) {
    r.Upnp? && r.externalPort == externalPort
  }

  predicate IsFirewallNamed(r: Rule, name: string) {
    r.Firewall? && r.name == name
  }

  /** The list after removing the mappings of one external port. */
  function WithoutUpnp(rules: seq<Rule>, externalPort: int): seq<Rule> {
    Without(rules, (r: Rule) => IsUpnpFor(r, externalPort))
  }

  /** The list after removing the firewall rules of one name. */
  function WithoutFirewall(rules: seq<Rule>, name: string): seq<Rule> {
    Without(rules, (r: Rule) => IsFirewallNamed(r, name))
  }

  /** The firewall rules of a list, in order. */
  function FirewallRules(rules: seq<Rule>): seq<Rule> {
    Without(rules, (r: Rule) => r.Upnp?)
  }

  /** Removing a mapping right after adding it restores the rules other
      than that port's mappings. */
  lemma RemoveAfterAddUpnp(rules: seq<Rule>, internalPort: int, externalPort: int, description: string)
    ensures WithoutUpnp(rules + [Upnp(internalPort, externalPort, "TCP", description)], externalPort)
         == WithoutUpnp(rules, externalPort)
    ensures (forall r :: r in rules ==> !IsUpnpFor(r, externalPort)) ==>
      WithoutUpnp(rules + [Upnp(internalPort, externalPort, "TCP", description)], externalPort) == rules
  {
    var x := Upnp(internalPort, externalPort, "TCP", description);
    WithoutAppend(rules, [x], (r: Rule) => IsUpnpFor(r, externalPort));
    assert Without([x], (r: Rule) => IsUpnpFor(r, externalPort)) == [];
    if forall r :: r in rules ==> !IsUpnpFor(r, externalPort) {
      WithoutNothing(rules, (r: Rule) => IsUpnpFor(r, externalPort));
    }
  }

  /** Removing a mapping leaves every firewall rule, in order. */
  lemma {:induction false} RemoveUpnpKeepsFirewall(rules: seq<Rule>, externalPort: int)
    ensures FirewallRules(WithoutUpnp(rules, externalPort)) == FirewallRules(rules)
    decreases |rules|
  {
    if rules != [] {
      RemoveUpnpKeepsFirewall(rules[1..], externalPort);
    }
  }

  // -------------------------------------------------------------- setup

  /** `generate_server_urls`: the local and localhost addresses always,
      the public one only when a non-empty public address is known. */
  function ServerUrls(port: int, localIp: string, publicIp: Option<string>): (m: map<string, string>)
    ensures "local" in m && "localhost" in m
    ensures m["local"] == localIp + ":" + IntToString(port)
    ensures m["localhost"] == "localhost:" + IntToString(port)
    ensures "public" in m <==> publicIp.Some? && publicIp.value != []
    ensures "public" in m ==> m["public"] == publicIp.value + ":" + IntToString(port)
    ensures forall k :: k in m ==> k == "local" || k == "localhost" || k == "public"
  {
    var urls := map["local" := localIp + ":" + IntToString(port), "localhost" := "localhost:" + IntToString(port)];
    if publicIp.Some? && publicIp.value != [] then urls["public" := publicIp.value + ":" + IntToString(port)] else urls
  }

  /** Every offered address carries the server's port. */
  lemma ServerUrlsCarryPort(port: int, localIp: string, publicIp: Option<string>, k: string)
    requires k in ServerUrls(port, localIp, publicIp)
    ensures PortOfAddress(ServerUrls(port, localIp, publicIp)[k]) == Some(port)
  {
    var host := if k == "local" then localIp else if k == "localhost" then "localhost" else publicIp.value;
    assert ServerUrls(port, localIp, publicIp)[k] == host + ":" + IntToString(port);
    PortOfAddressRoundTrip(host, port);
  }

  /** What `setup_server_networking` reports. */
  datatype Setup = Setup(success: bool, firewallAdded: bool, upnpAdded: bool,
                         urls: map<string, string>, errors: seq<string>)

  /** The report for given command outcomes: the firewall rule needs
      Windows and both netsh commands; the mapping needs the router. */
  function SetupReport(windows: bool, tcpOk: bool, udpOk: bool, mapped: bool,
                       port: int, localIp: string, publicIp: Option<string>): Setup
  {
    var firewall := windows && tcpOk && udpOk;
    Setup(firewall || mapped, firewall, mapped, ServerUrls(port, localIp, publicIp),
          (if firewall then [] else ["Failed to add firewall rules"]) +
          (if mapped then [] else ["UPnP port mapping failed"]))
  }

  /** Setup succeeds exactly when at most one of its two steps failed. */
  lemma SetupSucceedsIffOneStepWorked(windows: bool, tcpOk: bool, udpOk: bool, mapped: bool,
                                      port: int, localIp: string, publicIp: Option<string>)
    ensures var r := SetupReport(windows, tcpOk, udpOk, mapped, port, localIp, publicIp);
      (r.success <==> |r.errors| < 2) && (r.success <==> r.firewallAdded || r.upnpAdded)
  {
  }

  /** The helper object: the platform and the rules it has added. */
  class Forwarding {
    var activeRules: seq<Rule>
    const windows: bool

    constructor(windows: bool)
      ensures this.windows == windows && activeRules == []
    {
      this.windows := windows;
      activeRules := [];
    }

    /** `add_upnp_port_mapping`: the rule is recorded only when the router
        accepted it. */
    method AddUpnpMapping(internalPort: int, externalPort: int, description: string, mapped: bool)
      returns (ok: bool)
      modifies this
      ensures ok == mapped
      ensures activeRules == old(activeRules) + (if mapped then [Upnp(internalPort, externalPort, "TCP", description)] else [])
    {
      if mapped {
        activeRules := activeRules + [Upnp(internalPort, externalPort, "TCP", description)];
        return true;
      }
      return false;
    }

    /** `remove_upnp_port_mapping`: when the router deleted the mapping,
        exactly that port's mappings leave the list. */
    method RemoveUpnpMapping(externalPort: int, deleted: bool) returns (ok: bool)
      modifies this
      ensures ok == deleted
      ensures activeRules == if deleted then WithoutUpnp(old(activeRules), externalPort) else old(activeRules)
    {
      if deleted {
        activeRules := WithoutUpnp(activeRules, externalPort);
        return true;
      }
      return false;
    }

    /** `add_windows_firewall_rule`: only on Windows, and recorded only
        when both the TCP and the UDP command succeeded. */
    method AddFirewallRule(port: int, name: string, tcpOk: bool, udpOk: bool) returns (ok: bool)
      modifies this
      ensures ok == (windows && tcpOk && udpOk)
      ensures activeRules == old(activeRules) + (if ok then [Firewall(port, name, ["TCP", "UDP"])] else [])
    {
      if !windows {
        return false;
      }
      if tcpOk && udpOk {
        activeRules := activeRules + [Firewall(port, name, ["TCP", "UDP"])];
        return true;
      }
      return false;
    }

    /** `remove_windows_firewall_rule`: only on Windows; when the commands
        could be run, the rules of that name leave the list. */
    method RemoveFirewallRule(name: string, ran: bool) returns (ok: bool)
      modifies this
      ensures ok == (windows && ran)
      ensures activeRules == if ok then WithoutFirewall(old(activeRules), name) else old(activeRules)
    {
      if !windows || !ran {
        return false;
      }
      activeRules := WithoutFirewall(activeRules, name);
      ok := true;
    }

    /** `setup_server_networking`: the firewall rule, then the mapping,
        then the addresses. */
    method SetupServerNetworking(port: int, name: string, tcpOk: bool, udpOk: bool, mapped: bool,
                                 localIp: string, publicIp: Option<string>) returns (r: Setup)
      modifies this
      ensures r == SetupReport(windows, tcpOk, udpOk, mapped, port, localIp, publicIp)
      ensures activeRules == old(activeRules)
        + (if r.firewallAdded then [Firewall(port, name, ["TCP", "UDP"])] else [])
        + (if r.upnpAdded then [Upnp(port, port, "TCP", name)] else [])
    {
      var errors := [];
      var firewall := AddFirewallRule(port, name, tcpOk, udpOk);
      if !firewall {
        errors := errors + ["Failed to add firewall rules"];
      }
      var upnp := AddUpnpMapping(port, port, name, mapped);
      if !upnp {
        errors := errors + ["UPnP port mapping failed"];
      }
      r := Setup(firewall || upnp, firewall, upnp, ServerUrls(port, localIp, publicIp), errors);
    }

    /** `cleanup_server_networking`: both removals are attempted; success
        needs both. */
    method CleanupServerNetworking(port: int, name: string, ran: bool, deleted: bool) returns (ok: bool)
      modifies this
      ensures ok == (windows && ran && deleted)
      ensures activeRules ==
        var afterFirewall := if windows && ran then WithoutFirewall(old(activeRules), name) else old(activeRules);
        if deleted then WithoutUpnp(afterFirewall, port) else afterFirewall
    {
      ok := true;
      var removed := RemoveFirewallRule(name, ran);
      if !removed {
        ok := false;
      }
      var unmapped := RemoveUpnpMapping(port, deleted);
      if !unmapped {
        ok := false;
      }
    }
  }
}
