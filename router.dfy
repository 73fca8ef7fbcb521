/**
 * The host-based router: for each request it decides, from the Host header,
 * the configured redirects and ports and the port-status table, whether to
 * redirect, answer 404, route to the backend port, or first re-probe a port
 * that looks down.
 */
module Router {
  import opened JsValues
  import opened PortStatus

  /** `config.hostnames` (Host header -> port) and `config.redirects` (Host header -> domain). */
  datatype Config = Config(hostnames: map<string, Port>, redirects: map<string, string>)

  /** `config.hostnames[host]`; a missing port reads as 0, which is falsy too. */
  function PortFor(cfg: Config, host: string): (port: Port)
    ensures host in cfg.hostnames ==> port == cfg.hostnames[host]
    ensures host !in cfg.hostnames ==> port == 0
  {
    if host in cfg.hostnames then cfg.hostnames[host] else 0
  }

  /** `config.redirects[host]`; a missing domain reads as "", which is falsy too. */
  function RedirectFor(cfg: Config, host: string): (domain: string)
    ensures host in cfg.redirects ==> domain == cfg.redirects[host]
    ensures host !in cfg.redirects ==> domain == ""
  {
    if host in cfg.redirects then cfg.redirects[host] else ""
  }

  /** What the handler does with a request before any probe completes. */
  datatype Decision =
    | Redirect(location: string)  // 301 with this Location header
    | NotFound                    // 404
    | Route(port: Port)           // proxy to localhost:port
    | Verify(port: Port)          // probe the port again, then route or 404

  /** The `Location` header of a redirect to `domain`: the request URL is kept as it is. */
  function Location(domain: string, url: string): (location: string)
    ensures |location| == 7 + |domain| + |url|
    ensures location[..7] == "http://"
    ensures location[7..7 + |domain|] == domain && location[7 + |domain|..] == url
  {
    "http://" + domain + url
  }

  /** The if/else chain of the request handler, read against the current table. */
  function Decide(cfg: Config, table: Table, host: string, url: string): (d: Decision)
    ensures d.Route? || d.Verify? ==> d.port == PortFor(cfg, host) && d.port != 0
    ensures d.Redirect? ==> d.location == Location(RedirectFor(cfg, host), url)
  {
    var port := PortFor(cfg, host);
    var domain := RedirectFor(cfg, host);
    if domain != "" then Redirect(Location(domain, url))
    else if port == 0 then NotFound
    else if !IsAlive(table, port) then Verify(port)
    else Route(port)
  }

  /** The callback of the re-verifying probe: route unless the fresh code is ECONNREFUSED. */
  function AfterVerify(port: Port, code: JsValue): (d: Decision)
    ensures d == Route(port) || d == NotFound
    ensures d == NotFound <==> IsRefused(code)
  {
    if !IsRefused(code) then Route(port) else NotFound
  }

  /** The terminal outcome of a request whose re-verifying probe, if it issues one, answers `answer`. */
  function Outcome(cfg: Config, table: Table, host: string, url: string, answer: ProbeReply): (d: Decision)
    ensures !d.Verify?
    ensures d.Route? ==> d.port == PortFor(cfg, host) && d.port != 0
  {
    match Decide(cfg, table, host, url)
    case Verify(port) => AfterVerify(port, CompletionCode(answer))
    case other => other
  }

  /** Exactly one branch is taken, in the handler's order: redirect, missing port, alive, not alive. */
  lemma DecisionBranches(cfg: Config, table: Table, host: string, url: string)
    ensures Decide(cfg, table, host, url).Redirect? <==> RedirectFor(cfg, host) != ""
    ensures Decide(cfg, table, host, url).NotFound? <==> RedirectFor(cfg, host) == "" && PortFor(cfg, host) == 0
    ensures Decide(cfg, table, host, url).Route?
            <==> RedirectFor(cfg, host) == "" && IsAlive(table, PortFor(cfg, host))
    ensures Decide(cfg, table, host, url).Verify?
            <==> RedirectFor(cfg, host) == "" && PortFor(cfg, host) != 0 && !IsAlive(table, PortFor(cfg, host))
  {
  }

  /**
   * A configured redirect wins over everything else: the decision is the same
   * 301 whatever the host's port mapping and whatever the table holds.
   */
  lemma RedirectTakesPrecedence(cfg: Config, other: Config, table: Table, otherTable: Table, host: string, url: string)
    requires RedirectFor(cfg, host) != ""
    requires other.redirects == cfg.redirects
    ensures Decide(cfg, table, host, url) == Redirect("http://" + RedirectFor(cfg, host) + url)
    ensures Decide(other, otherTable, host, url) == Decide(cfg, table, host, url)
  {
  }

  /** With neither a redirect nor a port, the answer is 404 whatever the table, and no probe decides it. */
  lemma UnmappedHostIsNotFound(cfg: Config, table: Table, host: string, url: string, answer: ProbeReply)
    requires RedirectFor(cfg, host) == "" && PortFor(cfg, host) == 0
    ensures Decide(cfg, table, host, url) == NotFound
    ensures Outcome(cfg, table, host, url, answer) == NotFound
  {
  }

  /** A mapped port that is alive is routed to at once; no probe answer can change that. */
  lemma AliveRoutesDirectly(cfg: Config, table: Table, host: string, url: string, answer: ProbeReply)
    requires RedirectFor(cfg, host) == ""
    requires IsAlive(table, PortFor(cfg, host))
    ensures Decide(cfg, table, host, url) == Route(PortFor(cfg, host))
    ensures Outcome(cfg, table, host, url, answer) == Route(PortFor(cfg, host))
  {
  }

  /** A mapped port that is not alive is probed again, and the fresh code alone decides route or 404. */
  lemma DownIsVerified(cfg: Config, table: Table, host: string, url: string, answer: ProbeReply)
    requires RedirectFor(cfg, host) == "" && PortFor(cfg, host) != 0
    requires !IsAlive(table, PortFor(cfg, host))
    ensures Decide(cfg, table, host, url) == Verify(PortFor(cfg, host))
    ensures !IsRefused(CompletionCode(answer)) ==> Outcome(cfg, table, host, url, answer) == Route(PortFor(cfg, host))
    ensures IsRefused(CompletionCode(answer)) ==> Outcome(cfg, table, host, url, answer) == NotFound
  {
  }

  /** The decision reads the table only through the liveness of the host's own port. */
  lemma DecisionReadsOnlyOwnPort(cfg: Config, table: Table, otherTable: Table, host: string, url: string)
    requires IsAlive(table, PortFor(cfg, host)) == IsAlive(otherTable, PortFor(cfg, host))
    ensures Decide(cfg, table, host, url) == Decide(cfg, otherTable, host, url)
  {
  }

  /**
   * The verify callback and the table agree: the request is routed exactly
   * when the code its probe just stored makes the port alive.
   */
  lemma VerifyAgreesWithTable(cfg: Config, table: Table, host: string, url: string, answer: ProbeReply)
    requires Decide(cfg, table, host, url).Verify?
    ensures var port := PortFor(cfg, host);
            Outcome(cfg, table, host, url, answer) == Route(port) <==> IsAlive(Recorded(table, port, answer), port)
  {
    AliveAfterCompletion(table, PortFor(cfg, host), answer, PortFor(cfg, host));
  }

  /**
   * After a verified request, and before any other completion, the next
   * request for the same host routes directly when the verification routed,
   * and probes again when it answered 404: a down port is never trusted stale.
   */
  lemma NextRequestAfterVerify(cfg: Config, table: Table, host: string, url: string, nextUrl: string, answer: ProbeReply)
    requires Decide(cfg, table, host, url).Verify?
    ensures var port := PortFor(cfg, host);
            var after := Recorded(table, port, answer);
            && (Outcome(cfg, table, host, url, answer) == Route(port) ==> Decide(cfg, after, host, nextUrl) == Route(port))
            && (Outcome(cfg, table, host, url, answer) == NotFound ==> Decide(cfg, after, host, nextUrl) == Verify(port))
  {
    VerifyAgreesWithTable(cfg, table, host, url, answer);
  }

  /** Right after startup a configured host routes without a probe: the seeded 0 counts as alive. */
  lemma StartupRoutesWithoutProbe(cfg: Config, table: Table, host: string, url: string)
    requires table.Keys == cfg.hostnames.Values
    requires forall p :: p in table ==> table[p] == Num(0)
    requires RedirectFor(cfg, host) == "" && PortFor(cfg, host) != 0
    ensures Decide(cfg, table, host, url) == Route(PortFor(cfg, host))
  {
    SeededPortsAreAlive(cfg.hostnames, table, host);
  }

  /** A refused probe marks the port down; the next request for it verifies and answers 404 if refused again. */
  lemma RefusedPortIsVerifiedThenNotFound()
    ensures var cfg := Config(map["a.com" := 3000], map[]);
            var table := Recorded(map[3000 := Num(0)], 3000, Failure(Refused));
            && Decide(cfg, table, "a.com", "/") == Verify(3000)
            && Outcome(cfg, table, "a.com", "/", Failure(Refused)) == NotFound
            && Outcome(cfg, table, "a.com", "/", Response(200)) == Route(3000)
  {
  }

  /** A redirect keeps the path and query: www.a.com/x?y=1 goes to http://a.com/x?y=1. */
  lemma RedirectKeepsPathAndQuery()
    ensures Decide(Config(map[], map["www.a.com" := "a.com"]), map[], "www.a.com", "/x?y=1")
            == Redirect("http://a.com/x?y=1")
  {
  }

  /** The proxy's mutable state: the loaded configuration and the port-status table. */
  class HostProxy {
    const config: Config
    var portStatus: Table

    /** Every port a hostname maps to has an entry. */
    ghost predicate Valid()
      reads this
    {
      config.hostnames.Values <= portStatus.Keys
    }

    /** Startup: seed every configured port with 0. */
    constructor (config: Config)
      ensures this.config == config
      ensures portStatus.Keys == config.hostnames.Values
      ensures forall p :: p in portStatus ==> portStatus[p] == Num(0)
      ensures Valid()
    {
      this.config := config;
      var table := InitialStatus(config.hostnames);
      portStatus := table;
    }

    /**
     * `checkPort(port, callback)` with its completion: the probe answered
     * `reply`; the port's entry is overwritten and the callback's code returned.
     */
    method CheckPort(port: Port, reply: ProbeReply) returns (code: JsValue)
      requires Valid()
      modifies this
      ensures Valid()
      ensures code == CompletionCode(reply)
      ensures portStatus == Recorded(old(portStatus), port, reply)
      ensures port in old(portStatus) ==> portStatus.Keys == old(portStatus).Keys
    {
      code := CompletionCode(reply);
      portStatus := portStatus[port := code];
    }

    /** `checkPorts()`: the ports probed by one sweep, each port of the table exactly once. */
    method CheckPorts() returns (probes: seq<Port>)
      ensures multiset(probes) == multiset(portStatus.Keys)
    {
      probes := [];
      var pending := portStatus.Keys;
      while pending != {}
        invariant pending <= portStatus.Keys
        invariant multiset(probes) + multiset(pending) == multiset(portStatus.Keys)
        decreases pending
      {
        var port :| port in pending;
        probes := probes + [port];
        pending := pending - {port};
      }
    }

    /**
     * The request handler: decide, and on the verify branch probe the port
     * once (it answers `answer`) and route or 404 on the fresh code.
     * Returns the ports it probed and the terminal outcome.
     */
    method HandleRequest(host: string, url: string, answer: ProbeReply) returns (probes: seq<Port>, outcome: Decision)
      requires Valid()
      modifies this
      ensures Valid()
      ensures PortFor(config, host) != 0 ==> PortFor(config, host) in old(portStatus) && PortFor(config, host) in portStatus
      ensures outcome == Outcome(config, old(portStatus), host, url, answer)
      ensures Decide(config, old(portStatus), host, url).Verify? ==>
                && probes == [PortFor(config, host)]
                && portStatus == Recorded(old(portStatus), PortFor(config, host), answer)
      ensures !Decide(config, old(portStatus), host, url).Verify? ==>
                probes == [] && portStatus == old(portStatus)
    {
      var decision := Decide(config, portStatus, host, url);
      if decision.Verify? {
        var code := CheckPort(decision.port, answer);
        probes := [decision.port];
        outcome := AfterVerify(decision.port, code);
      } else {
        probes := [];
        outcome := decision;
      }
    }
  }
}
