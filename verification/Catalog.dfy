/** The service catalog: what a create, update or delete checks and stores, and the exclusive
    claims on routes, host ports and keys that every accepted sequence of them keeps. */
module Catalog {
  import opened Wrappers
  import opened Text
  import opened RouteNames

  type Id = string

  datatype PublishedPort = PublishedPort(hostPort: int, containerPort: int)

  datatype TcpPort = TcpPort(listenPort: int, containerPort: int, idleTimeoutSecond: int)

  datatype Service = Service(
    key: string, agent: string, containerPort: int, routeHost: string, routeHosts: seq<string>, prefix: string,
    published: seq<PublishedPort>, tcp: seq<TcpPort>, enabled: bool)

  datatype Request = Request(
    key: string, agent: string, containerPort: int, routeHost: string, routeHosts: seq<string>, prefix: string,
    published: seq<PublishedPort>, tcp: seq<TcpPort>, enabled: Option<bool>)

  datatype Agent = Agent(enabled: bool, tcpPrebind: bool, prebound: set<int>)

  type Rows = map<Id, Service>

  datatype Error =
    | BadKey | KeyTaken | KeyImmutable | AgentImmutable | NotFound
    | BadContainerPort | NoRouteHost | BadPrefix
    | BadHostPort | ReservedPort | RepeatedPort | BadIdleTimeout | PortSetsOverlap
    | AgentUnknown | RouteTaken | PortPrebound | PortNotPrebound | PortTaken | ReleaseActive

  // ---------------------------------------------------------------- building an entity

  predicate KeyChar(c: char) {
    'a' <= c <= 'z' || '0' <= c <= '9' || c == '-'
  }

  predicate ValidKey(k: string) {
    1 <= |k| <= 24 && (forall c | c in k :: KeyChar(c)) && k[0] != '-' && k[|k| - 1] != '-'
  }

  predicate PortInRange(p: int) {
    0 < p <= 65535
  }

  predicate ForbiddenInPrefix(c: char) {
    c as int <= 0x1f || c as int == 0x7f || c == ' ' || c == ';' || c == '?' || c == '#'
  }

  predicate CleanPrefix(p: string) {
    forall c | c in p :: !ForbiddenInPrefix(c)
  }

  function Hosts(primary: string, hosts: seq<string>): seq<string> {
    Added([], [primary] + hosts)
  }

  function HostsOf(s: Service): seq<string> {
    Hosts(s.routeHost, s.routeHosts)
  }

  function WithDefaults(ports: seq<TcpPort>): seq<TcpPort> {
    seq(|ports|, i requires 0 <= i < |ports| =>
      if ports[i].idleTimeoutSecond == 0 then ports[i].(idleTimeoutSecond := 3600) else ports[i])
  }

  function Build(q: Request): Result<Service, Error> {
    var primary := NormalizeRouteHost(q.routeHost);
    var hosts := Hosts(primary, q.routeHosts);
    var prefix := NormalizeRoutePathPrefix(q.prefix);
    if !ValidKey(Trim(q.key)) then Err(BadKey)
    else if !PortInRange(q.containerPort) then Err(BadContainerPort)
    else if hosts == [] then Err(NoRouteHost)
    else if !CleanPrefix(prefix) then Err(BadPrefix)
    else Ok(Service(Trim(q.key), q.agent, q.containerPort, if primary == "" then hosts[0] else primary, hosts, prefix,
                    q.published, WithDefaults(q.tcp), q.enabled != Some(false)))
  }

  // ---------------------------------------------------------------- ports

  predicate Reserved(p: int) {
    p == 80 || p == 5555 || p == 19999
  }

  function PublishedIssue(p: PublishedPort, seen: set<int>): Option<Error> {
    if !PortInRange(p.hostPort) then Some(BadHostPort)
    else if !PortInRange(p.containerPort) then Some(BadContainerPort)
    else if Reserved(p.hostPort) then Some(ReservedPort)
    else if p.hostPort in seen then Some(RepeatedPort)
    else None
  }

  function PublishedError(items: seq<PublishedPort>, seen: set<int>): Option<Error> {
    if items == [] then None
    else if PublishedIssue(items[0], seen).Some? then PublishedIssue(items[0], seen)
    else PublishedError(items[1..], seen + {items[0].hostPort})
  }

  function TcpIssue(p: TcpPort, seen: set<int>): Option<Error> {
    if !PortInRange(p.listenPort) then Some(BadHostPort)
    else if !PortInRange(p.containerPort) then Some(BadContainerPort)
    else if p.idleTimeoutSecond <= 0 then Some(BadIdleTimeout)
    else if Reserved(p.listenPort) then Some(ReservedPort)
    else if p.listenPort in seen then Some(RepeatedPort)
    else None
  }

  function TcpError(items: seq<TcpPort>, seen: set<int>): Option<Error> {
    if items == [] then None
    else if TcpIssue(items[0], seen).Some? then TcpIssue(items[0], seen)
    else TcpError(items[1..], seen + {items[0].listenPort})
  }

  function PublishedPorts(items: seq<PublishedPort>): seq<int> {
    seq(|items|, i requires 0 <= i < |items| => items[i].hostPort)
  }

  function ListenPorts(items: seq<TcpPort>): seq<int> {
    seq(|items|, i requires 0 <= i < |items| => items[i].listenPort)
  }

  // Every port of the host a service binds.
  function HostPorts(s: Service): seq<int> {
    PublishedPorts(s.published) + ListenPorts(s.tcp)
  }

  predicate Overlap(s: Service) {
    exists p | p in PublishedPorts(s.published) :: p in ListenPorts(s.tcp)
  }

  predicate NoRepeats(s: seq<int>) {
    forall i, j | 0 <= i < j < |s| :: s[i] != s[j]
  }

  predicate ValidHostPorts(s: seq<int>) {
    NoRepeats(s) && forall p | p in s :: PortInRange(p) && !Reserved(p)
  }

  lemma {:induction false} PublishedErrorMeaning(items: seq<PublishedPort>, seen: set<int>)
    ensures PublishedError(items, seen).None? <==>
      && ValidHostPorts(PublishedPorts(items))
      && (forall p | p in PublishedPorts(items) :: p !in seen)
      && (forall p | p in items :: PortInRange(p.containerPort))
  {
    if items != [] {
      var rest := items[1..];
      PublishedErrorMeaning(rest, seen + {items[0].hostPort});
      var all, later := PublishedPorts(items), PublishedPorts(rest);
      assert all == [items[0].hostPort] + later;
      assert items == [items[0]] + rest;
      RepeatsInTail(items[0].hostPort, later);
    }
  }

  lemma {:induction false} RepeatsInTail(p: int, rest: seq<int>)
    ensures ValidHostPorts([p] + rest) <==> ValidHostPorts(rest) && p !in rest && PortInRange(p) && !Reserved(p)
  {
    var all := [p] + rest;
    assert all[0] == p && forall i | 0 <= i < |rest| :: all[i + 1] == rest[i];
    if ValidHostPorts(all) {
      assert forall q | q in rest :: q in all;
      assert p in all;
    }
  }

  lemma {:induction false} TcpErrorMeaning(items: seq<TcpPort>, seen: set<int>)
    ensures TcpError(items, seen).None? <==>
      && ValidHostPorts(ListenPorts(items))
      && (forall p | p in ListenPorts(items) :: p !in seen)
      && (forall p | p in items :: PortInRange(p.containerPort) && p.idleTimeoutSecond > 0)
  {
    if items != [] {
      var rest := items[1..];
      TcpErrorMeaning(rest, seen + {items[0].listenPort});
      var all, later := ListenPorts(items), ListenPorts(rest);
      assert all == [items[0].listenPort] + later;
      assert items == [items[0]] + rest;
      RepeatsInTail(items[0].listenPort, later);
    }
  }

  lemma {:induction false} JoinedPorts(a: seq<int>, b: seq<int>)
    ensures ValidHostPorts(a + b) <==> ValidHostPorts(a) && ValidHostPorts(b) && !exists p | p in a :: p in b
  {
    hide PortInRange, Reserved;
    var all := a + b;
    assert forall i | 0 <= i < |a| :: all[i] == a[i];
    assert forall i | 0 <= i < |b| :: all[|a| + i] == b[i];
    assert forall p :: p in all <==> p in a || p in b;
    if NoRepeats(all) {
      forall i, j | 0 <= i < |a| && 0 <= j < |b| ensures a[i] != b[j] { assert all[i] != all[|a| + j]; }
      forall i, j | 0 <= i < j < |b| ensures b[i] != b[j] { assert all[|a| + i] != all[|a| + j]; }
      forall i, j | 0 <= i < j < |a| ensures a[i] != a[j] { assert all[i] != all[j]; }
    }
    if NoRepeats(a) && NoRepeats(b) && !exists p | p in a :: p in b {
      forall i, j | 0 <= i < j < |all| ensures all[i] != all[j] {
        if i < |a| && j >= |a| { assert all[i] in a && all[j] == b[j - |a|]; }
        if i >= |a| { assert all[i] == b[i - |a|] && all[j] == b[j - |a|]; }
      }
    }
  }

  // Both lists together name each host port at most once, in range and not reserved, exactly when
  // the three validators accept them.
  lemma PortsAccepted(s: Service)
    ensures PublishedError(s.published, {}).None? && TcpError(s.tcp, {}).None? && !Overlap(s) <==>
      && ValidHostPorts(HostPorts(s))
      && (forall p | p in s.published :: PortInRange(p.containerPort))
      && (forall p | p in s.tcp :: PortInRange(p.containerPort) && p.idleTimeoutSecond > 0)
  {
    PublishedErrorMeaning(s.published, {});
    TcpErrorMeaning(s.tcp, {});
    JoinedPorts(PublishedPorts(s.published), ListenPorts(s.tcp));
  }

  // ---------------------------------------------------------------- claims of other services

  predicate SharesRoute(a: Service, b: Service) {
    NormalizeRoutePathPrefix(a.prefix) == b.prefix && exists h | h in HostsOf(a) :: h in HostsOf(b)
  }

  predicate RouteConflict(rows: Rows, s: Service, self: Id) {
    exists id | id in rows :: rows[id].agent == s.agent && id != self && SharesRoute(rows[id], s)
  }

  predicate SharesPort(a: Service, b: Service) {
    exists p | p in HostPorts(a) :: p in HostPorts(b)
  }

  predicate PortConflict(rows: Rows, s: Service, self: Id) {
    exists id | id in rows :: rows[id].agent == s.agent && id != self && SharesPort(rows[id], s)
  }

  // What an agent that binds the TCP range in advance makes of the ports.
  function PrebindIssue(agent: Agent, s: Service): Option<Error> {
    if !agent.tcpPrebind then None
    else if exists p | p in PublishedPorts(s.published) :: p in agent.prebound then Some(PortPrebound)
    else if exists p | p in ListenPorts(s.tcp) :: 20000 <= p <= 20099 && p !in agent.prebound then Some(PortNotPrebound)
    else None
  }

  predicate Assignable(agents: map<string, Agent>, agent: string) {
    agent in agents && agents[agent].enabled
  }

  function Check(rows: Rows, agents: map<string, Agent>, s: Service, self: Id): Option<Error> {
    if PublishedError(s.published, {}).Some? then PublishedError(s.published, {})
    else if TcpError(s.tcp, {}).Some? then TcpError(s.tcp, {})
    else if Overlap(s) then Some(PortSetsOverlap)
    else if !Assignable(agents, s.agent) then Some(AgentUnknown)
    else if HostsOf(s) == [] then Some(NoRouteHost)
    else if RouteConflict(rows, s, self) then Some(RouteTaken)
    else if HostPorts(s) == [] then None
    else if PrebindIssue(agents[s.agent], s).Some? then PrebindIssue(agents[s.agent], s)
    else if PortConflict(rows, s, self) then Some(PortTaken)
    else None
  }

  // ---------------------------------------------------------------- operations

  predicate KeyUsed(rows: Rows, key: string) {
    exists id | id in rows :: rows[id].key == key
  }

  function Create(rows: Rows, agents: map<string, Agent>, id: Id, q: Request): (Rows, Option<Error>) {
    if !ValidKey(Trim(q.key)) then (rows, Some(BadKey))
    else if KeyUsed(rows, Trim(q.key)) then (rows, Some(KeyTaken))
    else
      match Build(q)
      case Err(e) => (rows, Some(e))
      case Ok(s) =>
        if Check(rows, agents, s, id).Some? then (rows, Check(rows, agents, s, id)) else (rows[id := s], None)
  }

  function Update(rows: Rows, agents: map<string, Agent>, id: Id, q: Request): (Rows, Option<Error>) {
    if !ValidKey(Trim(q.key)) then (rows, Some(BadKey))
    else if id !in rows then (rows, Some(NotFound))
    else if Trim(q.key) != rows[id].key then (rows, Some(KeyImmutable))
    else if Trim(q.agent) != rows[id].agent then (rows, Some(AgentImmutable))
    else
      match Build(q)
      case Err(e) => (rows, Some(e))
      case Ok(s) =>
        if Check(rows, agents, s, id).Some? then (rows, Check(rows, agents, s, id)) else (rows[id := s], None)
  }

  // `active`: the service has a release in flight or one that splits the traffic.
  function Delete(rows: Rows, id: Id, active: bool): (Rows, Option<Error>) {
    if id !in rows then (rows, Some(NotFound))
    else if active then (rows, Some(ReleaseActive))
    else (rows - {id}, None)
  }

  // What an agent that binds TCP ports in advance asks of a service.
  predicate FitsAgent(agent: Agent, s: Service) {
    agent.tcpPrebind ==>
      && (forall p | p in PublishedPorts(s.published) :: p !in agent.prebound)
      && (forall p | p in ListenPorts(s.tcp) && 20000 <= p <= 20099 :: p in agent.prebound)
  }

  // A service is accepted exactly when its ports are its own, in range and not reserved, its
  // agent takes it, and no other service of that agent has a route or a port of it.
  lemma AcceptedExactly(rows: Rows, agents: map<string, Agent>, s: Service, self: Id)
    ensures Check(rows, agents, s, self).None? <==>
      && ValidHostPorts(HostPorts(s))
      && (forall p | p in s.published :: PortInRange(p.containerPort))
      && (forall p | p in s.tcp :: PortInRange(p.containerPort) && p.idleTimeoutSecond > 0)
      && s.agent in agents && agents[s.agent].enabled && FitsAgent(agents[s.agent], s)
      && HostsOf(s) != []
      && (forall id | id in rows && id != self && rows[id].agent == s.agent ::
            !SharesRoute(rows[id], s) && !SharesPort(rows[id], s))
  {
    PortsAccepted(s);
    hide PublishedError, TcpError, ValidHostPorts, PortInRange, HostsOf, SharesRoute, Overlap;
    if HostPorts(s) == [] {
      assert forall id | id in rows :: !SharesPort(rows[id], s);
      assert |PublishedPorts(s.published)| == 0 && |ListenPorts(s.tcp)| == 0;
    }
    hide SharesPort;
  }

  // ---------------------------------------------------------------- the invariant

  predicate ServiceOk(s: Service) {
    && ValidKey(s.key)
    && IsRoutePrefix(s.prefix) && CleanPrefix(s.prefix)
    && HostsOf(s) != []
    && ValidHostPorts(HostPorts(s))
    && (forall p | p in s.tcp :: PortInRange(p.containerPort) && p.idleTimeoutSecond > 0)
  }

  predicate Exclusive(a: Service, b: Service) {
    && a.key != b.key
    && (a.agent == b.agent ==>
          && !SharesPort(a, b)
          && (a.prefix == b.prefix ==> !exists h | h in HostsOf(a) :: h in HostsOf(b)))
  }

  ghost predicate Inv(rows: Rows) {
    && (forall id | id in rows :: ServiceOk(rows[id]))
    && (forall a, b {:trigger Exclusive(rows[a], rows[b])} | a in rows && b in rows && a != b ::
          Exclusive(rows[a], rows[b]))
  }

  // An accepted prefix is in normal form.
  lemma {:induction false} CleanIsNormal(p: string)
    requires CleanPrefix(NormalizeRoutePathPrefix(p))
    ensures IsRoutePrefix(NormalizeRoutePathPrefix(p))
  {
    var t := Trim(p);
    var full := if HasPrefix(t, "/") then t else "/" + t;
    var n := NormalizeRoutePathPrefix(p);
    TrimRightOfShape(full, '/');
    assert n[0] == '/';
    if |n| > 1 {
      assert n == TrimRightOf(full, '/');
      assert n[|n| - 1] in n;
    }
  }

  lemma BuiltIsOk(q: Request)
    requires Build(q).Ok?
    ensures var s := Build(q).value;
      ValidKey(s.key) && IsRoutePrefix(s.prefix) && CleanPrefix(s.prefix) && HostsOf(s) != [] && s.key == Trim(q.key)
          && s.agent == q.agent
  {
    var s := Build(q).value;
    CleanIsNormal(q.prefix);
    var primary := NormalizeRouteHost(q.routeHost);
    var hosts := Hosts(primary, q.routeHosts);
    var h := hosts[0];
    AddedMeaning([], [primary] + q.routeHosts, h);
    var v :| v in [primary] + q.routeHosts && NormalizeRouteHost(v) == h;
    NormalizeHostTwice(v);
    assert h in [s.routeHost] + s.routeHosts;
    AddedMeaning([], [s.routeHost] + s.routeHosts, h);
  }

  lemma StoredKeepsInv(rows: Rows, agents: map<string, Agent>, id: Id, s: Service)
    requires Inv(rows) && Check(rows, agents, s, id).None?
    requires ValidKey(s.key) && IsRoutePrefix(s.prefix) && CleanPrefix(s.prefix) && HostsOf(s) != []
    requires forall other | other in rows && other != id :: rows[other].key != s.key
    ensures Inv(rows[id := s])
  {
    hide ValidKey, IsRoutePrefix, CleanPrefix, HostsOf, PortInRange, Reserved, NormalizeRoutePathPrefix;
    PortsAccepted(s);
    hide PublishedError, TcpError, ValidHostPorts, HostPorts;
    var rows' := rows[id := s];
    assert ServiceOk(s);
    forall other | other in rows && other != id ensures Exclusive(rows[other], s) && Exclusive(s, rows[other]) {
      ClaimsAreExclusive(rows, agents, id, s, other);
    }
    forall a, b | a in rows' && b in rows' && a != b ensures Exclusive(rows'[a], rows'[b]) {
      if a != id && b != id { assert Exclusive(rows[a], rows[b]); }
    }
  }

  lemma ClaimsAreExclusive(rows: Rows, agents: map<string, Agent>, id: Id, s: Service, other: Id)
    requires Inv(rows) && Check(rows, agents, s, id).None?
    requires other in rows && other != id && rows[other].key != s.key
    ensures Exclusive(rows[other], s) && Exclusive(s, rows[other])
  {
    var o := rows[other];
    PrefixNormalForm(o.prefix);
    hide NormalizeRoutePathPrefix, HostsOf, PublishedError, TcpError, ValidHostPorts, IsRoutePrefix, PrebindIssue;
    assert ServiceOk(o);
    if o.agent == s.agent {
      assert !SharesRoute(o, s);
      assert !SharesPort(o, s);
    }
  }

  lemma CreateInv(rows: Rows, agents: map<string, Agent>, id: Id, q: Request)
    requires Inv(rows) && id !in rows
    ensures Inv(Create(rows, agents, id, q).0)
  {
    hide Check, NormalizeRoutePathPrefix, ValidKey;
    if Create(rows, agents, id, q).1.None? {
      BuiltIsOk(q);
      var s := Build(q).value;
      assert forall other | other in rows :: rows[other].key != s.key;
      hide Build;
      StoredKeepsInv(rows, agents, id, s);
    }
  }

  lemma UpdateInv(rows: Rows, agents: map<string, Agent>, id: Id, q: Request)
    requires Inv(rows)
    ensures Inv(Update(rows, agents, id, q).0)
  {
    hide Check, NormalizeRoutePathPrefix, ValidKey;
    if Update(rows, agents, id, q).1.None? {
      BuiltIsOk(q);
      var s := Build(q).value;
      hide Build;
      forall other | other in rows && other != id ensures rows[other].key != s.key {
        assert Exclusive(rows[other], rows[id]);
      }
      StoredKeepsInv(rows, agents, id, s);
    }
  }

  datatype Event =
    | Creating(id: Id, request: Request, agents: map<string, Agent>)
    | Updating(id: Id, request: Request, agents: map<string, Agent>)
    | Deleting(id: Id, active: bool)

  function Apply(rows: Rows, e: Event): Rows {
    match e
    case Creating(id, q, agents) => if id in rows then rows else Create(rows, agents, id, q).0
    case Updating(id, q, agents) => Update(rows, agents, id, q).0
    case Deleting(id, active) => Delete(rows, id, active).0
  }

  function Run(rows: Rows, es: seq<Event>): Rows
    decreases |es|
  {
    if es == [] then rows else Run(Apply(rows, es[0]), es[1..])
  }

  lemma {:induction false} RunInv(rows: Rows, es: seq<Event>)
    requires Inv(rows)
    ensures Inv(Run(rows, es))
    decreases |es|
  {
    if es != [] {
      match es[0] {
        case Creating(id, q, agents) => if id !in rows { CreateInv(rows, agents, id, q); }
        case Updating(id, q, agents) => UpdateInv(rows, agents, id, q);
        case Deleting(id, active) => DeleteInv(rows, id, active);
      }
      RunInv(Apply(rows, es[0]), es[1..]);
    }
  }

  lemma DeleteInv(rows: Rows, id: Id, active: bool)
    requires Inv(rows)
    ensures Inv(Delete(rows, id, active).0)
  {
    hide ServiceOk, Exclusive;
  }

  // However creates, updates and deletes are mixed, and whatever the agents are at the time: two
  // services of one agent never bind a host port both, nor serve a prefix of a host both, and no
  // service binds a port twice or a reserved one.
  lemma ClaimsStayExclusive(es: seq<Event>, a: Id, b: Id)
    ensures var rows := Run(map[], es);
      a in rows ==>
        && NoRepeats(HostPorts(rows[a])) && (forall p | p in HostPorts(rows[a]) :: PortInRange(p) && !Reserved(p))
        && (b in rows && a != b && rows[a].agent == rows[b].agent ==>
              && (forall p | p in HostPorts(rows[a]) :: p !in HostPorts(rows[b]))
              && (rows[a].prefix == rows[b].prefix ==> forall h | h in HostsOf(rows[a]) :: h !in HostsOf(rows[b])))
  {
    var rows := Run(map[], es);
    RunInv(map[], es);
    hide HostsOf, HostPorts, PortInRange, Reserved, Run, ValidKey, IsRoutePrefix;
    if a in rows {
      assert ServiceOk(rows[a]);
      if b in rows && a != b { assert Exclusive(rows[a], rows[b]); }
    }
  }

  // The identity of a stored service never changes.
  lemma {:induction false} IdentityStays(rows: Rows, e: Event, id: Id)
    requires id in rows && id in Apply(rows, e)
    requires e.Updating? ==> forall name | name in e.agents :: Trim(name) == name
    ensures Apply(rows, e)[id].key == rows[id].key && Apply(rows, e)[id].agent == rows[id].agent
  {
    hide Trim, Build, ValidKey, PublishedError, TcpError, Overlap, HostsOf, HostPorts, PrebindIssue, RouteConflict,
        PortConflict;
    if e.Updating? && e.id == id && Update(rows, e.agents, id, e.request).1.None? { BuiltIsOk(e.request); }
  }
}
