/** The TCP frontends: one per listen port, each with one draw per connection. */
module TcpRouter {
  import opened Wrappers
  import opened Text
  import opened RouteNames
  import opened Sorting
  import R = Router
  import M = ReleaseModel

  datatype Proxy = Proxy(
    frontend: string, unavailable: string, listenPort: nat, containerPort: int, idleTimeoutSecond: int,
    serviceKey: string, liveSlot: M.Slot, liveRelease: string, candidateRelease: string,
    live: string, candidate: string, percent: int)

  datatype Frontend = Frontend(
    name: string, bindPort: int, defaultBackend: string, split: Option<(string, int)>, clientTimeoutMillis: int)

  const DEFAULT_IDLE_TIMEOUT := 3600

  predicate Usable(p: R.TcpPort) {
    p.listenPort > 0 && p.containerPort > 0
  }

  function ProxyOf(s: R.Service, p: R.TcpPort): Proxy
    requires Usable(p)
  {
    Proxy(TcpFrontendName(p.listenPort), TcpUnavailableBackendName(p.listenPort), p.listenPort, p.containerPort,
          if p.idleTimeoutSecond <= 0 then DEFAULT_IDLE_TIMEOUT else p.idleTimeoutSecond,
          s.key, s.liveSlot, s.LiveRelease(), s.CandidateRelease(),
          Trim(p.liveBackendName), Trim(p.candidateBackendName), R.Clamp(s.percent))
  }

  function ProxiesOf(s: R.Service, ports: seq<R.TcpPort>): seq<Proxy>
    decreases |ports|
  {
    if ports == [] then []
    else (if Usable(ports[0]) then [ProxyOf(s, ports[0])] else []) + ProxiesOf(s, ports[1..])
  }

  function AllProxies(services: seq<R.Service>): seq<Proxy>
    decreases |services|
  {
    if services == [] then [] else ProxiesOf(services[0], services[0].tcpPorts) + AllProxies(services[1..])
  }

  predicate ByPort(a: Proxy, b: Proxy) {
    a.listenPort <= b.listenPort
  }

  lemma ByPortIsTotal()
    ensures TotalOrder(ByPort)
  {
  }

  method AddPorts(found: seq<Proxy>, s: R.Service) returns (r: seq<Proxy>)
    ensures r == found + ProxiesOf(s, s.tcpPorts)
  {
    hide ProxyOf;
    r := found;
    assert s.tcpPorts[0..] == s.tcpPorts;
    for j := 0 to |s.tcpPorts|
      invariant r + ProxiesOf(s, s.tcpPorts[j..]) == found + ProxiesOf(s, s.tcpPorts)
    {
      var ports := s.tcpPorts[j..];
      assert ports[0] == s.tcpPorts[j] && ports[1..] == s.tcpPorts[j + 1..];
      if s.tcpPorts[j].listenPort <= 0 || s.tcpPorts[j].containerPort <= 0 { continue; }
      r := r + [ProxyOf(s, s.tcpPorts[j])];
    }
    assert s.tcpPorts[|s.tcpPorts|..] == [];
  }

  method BuildTcpProxyConfigs(services: seq<R.Service>) returns (configs: seq<Proxy>)
    ensures multiset(configs) == multiset(AllProxies(services)) && SortedBy(configs, ByPort)
  {
    hide ProxiesOf, ByPort;
    var found: seq<Proxy> := [];
    assert services[0..] == services;
    for i := 0 to |services|
      invariant found + AllProxies(services[i..]) == AllProxies(services)
    {
      assert services[i..][0] == services[i] && services[i..][1..] == services[i + 1..];
      found := AddPorts(found, services[i]);
    }
    assert services[|services|..] == [];
    assert found == AllProxies(services);
    ByPortIsTotal();
    configs := Sort(found, ByPort);
  }

  function FrontendFor(p: Proxy): Frontend {
    var default := if p.live != "" then p.live else if p.candidate != "" then p.candidate else p.unavailable;
    var timeout := 1000 * if p.idleTimeoutSecond <= 0 then DEFAULT_IDLE_TIMEOUT else p.idleTimeoutSecond;
    var percent := R.Clamp(p.percent);
    var plain := Frontend(p.frontend, p.listenPort, default, None, timeout);
    if p.live == "" || p.candidate == "" || percent <= 0 then plain
    else if percent >= 100 then plain.(defaultBackend := p.candidate)
    else plain.(split := Some((p.candidate, percent)))
  }

  // A single rule, so a single draw.
  function Backend(f: Frontend, draw: int): string {
    if f.split.Some? && draw < f.split.value.1 then f.split.value.0 else f.defaultBackend
  }

  ghost function CandidateDraws(p: Proxy): set<int> {
    set draw | 0 <= draw < 100 && Backend(FrontendFor(p), draw) == p.candidate
  }

  function Below(n: int): set<int>
    decreases n
  {
    if n <= 0 then {} else Below(n - 1) + {n - 1}
  }

  lemma {:induction false} BelowSize(n: int)
    requires n >= 0
    ensures |Below(n)| == n && forall d :: d in Below(n) <==> 0 <= d < n
    decreases n
  {
    if n > 0 { BelowSize(n - 1); }
  }

  // Of the hundred draws exactly `percent` reach the candidate; the others reach the live backend.
  lemma TcpShare(p: Proxy)
    requires p.live != "" && p.candidate != "" && p.live != p.candidate && 0 <= p.percent <= 100
    ensures |CandidateDraws(p)| == p.percent
    ensures forall draw | 0 <= draw < 100 :: Backend(FrontendFor(p), draw) == if draw < p.percent then p.candidate
        else p.live
  {
    BelowSize(p.percent);
    assert CandidateDraws(p) == Below(p.percent);
  }

  // With one backend only, every connection goes there; with none, to the unavailable backend.
  lemma TcpWithoutSplit(p: Proxy, draw: int)
    requires p.live == "" || p.candidate == ""
    ensures Backend(FrontendFor(p), draw) ==
            if p.live == "" && p.candidate == "" then p.unavailable else p.live + p.candidate
  {
    assert "" + p.candidate == p.candidate && p.live + "" == p.live;
  }

  // With a live backend and less than the whole share for a candidate.
  lemma TcpDecision(p: Proxy, draw: int)
    requires p.live != "" && 0 <= p.percent < 100 && 0 <= draw
    ensures Backend(FrontendFor(p), draw) == if p.candidate != "" && draw < p.percent then p.candidate else p.live
  {
  }

  // A port without a positive timeout gets an hour.
  lemma IdleHour(s: R.Service, p: R.TcpPort, x: Proxy)
    requires Usable(p)
    ensures ProxyOf(s, p).idleTimeoutSecond == if p.idleTimeoutSecond >= 1 then p.idleTimeoutSecond else 3600
    ensures FrontendFor(x).clientTimeoutMillis == if x.idleTimeoutSecond >= 1 then 1000 * x.idleTimeoutSecond
        else 3600000
  {
  }

  // Every usable port of a service gets its proxy, and nothing else does.
  lemma {:induction false} ProxiesAre(s: R.Service, ports: seq<R.TcpPort>, x: Proxy)
    ensures x in ProxiesOf(s, ports) <==> exists p | p in ports :: Usable(p) && x == ProxyOf(s, p)
    decreases |ports|
  {
    hide ProxyOf;
    if ports != [] { ProxiesAre(s, ports[1..], x); }
  }

  predicate DistinctListens(ports: seq<R.TcpPort>) {
    forall i, j | 0 <= i < j < |ports| :: ports[i].listenPort != ports[j].listenPort
  }

  predicate DistinctPorts(proxies: seq<Proxy>) {
    forall i, j | 0 <= i < j < |proxies| :: proxies[i].listenPort != proxies[j].listenPort
  }

  predicate DisjointListens(a: R.Service, b: R.Service) {
    forall p, q | p in a.tcpPorts && q in b.tcpPorts :: p.listenPort != q.listenPort
  }

  predicate ExclusiveListens(services: seq<R.Service>) {
    && (forall s | s in services :: DistinctListens(s.tcpPorts))
    && (forall i, j | 0 <= i < j < |services| :: DisjointListens(services[i], services[j]))
  }

  lemma {:induction false} OneServiceDistinct(s: R.Service, ports: seq<R.TcpPort>)
    requires DistinctListens(ports)
    ensures DistinctPorts(ProxiesOf(s, ports))
    decreases |ports|
  {
    if ports != [] {
      var rest := ProxiesOf(s, ports[1..]);
      OneServiceDistinct(s, ports[1..]);
      forall i | 0 <= i < |rest| ensures rest[i].listenPort != ports[0].listenPort {
        ProxiesAre(s, ports[1..], rest[i]);
      }
    }
  }

  lemma {:induction false} AllProxiesAre(services: seq<R.Service>, x: Proxy)
    ensures x in AllProxies(services) <==> exists s | s in services :: x in ProxiesOf(s, s.tcpPorts)
    decreases |services|
  {
    if services != [] { AllProxiesAre(services[1..], x); }
  }

  lemma AcrossServices(services: seq<R.Service>, x: Proxy, y: Proxy)
    requires ExclusiveListens(services) && services != []
    requires x in ProxiesOf(services[0], services[0].tcpPorts) && y in AllProxies(services[1..])
    ensures x.listenPort != y.listenPort
  {
    hide TcpFrontendName, TcpUnavailableBackendName, Trim, R.Clamp, ProxiesOf, AllProxies;
    ProxiesAre(services[0], services[0].tcpPorts, x);
    AllProxiesAre(services[1..], y);
    var s :| s in services[1..] && y in ProxiesOf(s, s.tcpPorts);
    ProxiesAre(s, s.tcpPorts, y);
    var k :| 0 < k < |services| && services[k] == s;
    assert DisjointListens(services[0], services[k]);
  }

  lemma {:induction false} AllDistinct(services: seq<R.Service>)
    requires ExclusiveListens(services)
    ensures DistinctPorts(AllProxies(services))
    decreases |services|
  {
    if services != [] {
      var first, rest := ProxiesOf(services[0], services[0].tcpPorts), AllProxies(services[1..]);
      OneServiceDistinct(services[0], services[0].tcpPorts);
      AllDistinct(services[1..]);
      forall x, y | x in first && y in rest ensures x.listenPort != y.listenPort { AcrossServices(services, x, y); }
      JoinDistinct(first, rest);
    }
  }

  lemma JoinDistinct(a: seq<Proxy>, b: seq<Proxy>)
    requires DistinctPorts(a) && DistinctPorts(b)
    requires forall x, y | x in a && y in b :: x.listenPort != y.listenPort
    ensures DistinctPorts(a + b)
  {
    var all := a + b;
    forall i, j | 0 <= i < j < |all| ensures all[i].listenPort != all[j].listenPort {
      if i < |a| && j >= |a| { assert all[i] in a && all[j] == b[j - |a|] && b[j - |a|] in b; }
      if i >= |a| { assert all[i] == b[i - |a|] && all[j] == b[j - |a|]; }
    }
  }

  // When no two services listen on one port, all frontends of a snapshot have different names
  // and bind different ports, and no unavailable backend is shared.
  lemma FrontendsAreDistinct(services: seq<R.Service>, i: nat, j: nat)
    requires ExclusiveListens(services) && i < j < |AllProxies(services)|
    ensures var a, b := AllProxies(services)[i], AllProxies(services)[j];
      && FrontendFor(a).name != FrontendFor(b).name
      && FrontendFor(a).bindPort != FrontendFor(b).bindPort
      && a.unavailable != b.unavailable
  {
    AllDistinct(services);
    ProxyNames(services, AllProxies(services)[i]);
    ProxyNames(services, AllProxies(services)[j]);
    NamesTellPorts(AllProxies(services)[i].listenPort, AllProxies(services)[j].listenPort);
  }

  lemma ProxyNames(services: seq<R.Service>, x: Proxy)
    requires x in AllProxies(services)
    ensures x.frontend == TcpFrontendName(x.listenPort) && x.unavailable == TcpUnavailableBackendName(x.listenPort)
  {
    AllProxiesAre(services, x);
    var s :| s in services && x in ProxiesOf(s, s.tcpPorts);
    ProxiesAre(s, s.tcpPorts, x);
  }

  lemma NamesTellPorts(m: nat, n: nat)
    requires m != n
    ensures TcpFrontendName(m) != TcpFrontendName(n) && TcpUnavailableBackendName(m) != TcpUnavailableBackendName(n)
  {
    hide Itoa;
    if Itoa(m) == Itoa(n) { ItoaInjective(m, n); }
    assert TcpFrontendName(m)[7..] == Itoa(m) && TcpFrontendName(n)[7..] == Itoa(n);
    assert TcpUnavailableBackendName(m)[19..] == Itoa(m) && TcpUnavailableBackendName(n)[19..] == Itoa(n);
  }
}
