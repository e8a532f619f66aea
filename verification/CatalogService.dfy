/** The catalog as it runs: the validators' loops over ports, hosts and stored services, and the
    operations that store what they accept. */
module CatalogService {
  import opened Wrappers
  import opened Text
  import opened RouteNames
  import opened Catalog

  method NormalizeRouteHosts(primary: string, hosts: seq<string>) returns (r: Result<(string, seq<string>), Error>)
    ensures var all := Hosts(NormalizeRouteHost(primary), hosts);
      r == if all == [] then Err(NoRouteHost)
           else Ok((if NormalizeRouteHost(primary) == "" then all[0] else NormalizeRouteHost(primary), all))
  {
    hide NormalizeRouteHost;
    var first := NormalizeRouteHost(primary);
    var normalized := CollectHosts([first] + hosts);
    if |normalized| == 0 { return Err(NoRouteHost); }
    return Ok((if first == "" then normalized[0] else first, normalized));
  }

  method ValidatePublishedPorts(items: seq<PublishedPort>) returns (failure: Option<Error>)
    ensures failure == PublishedError(items, {})
  {
    var seen := {};
    assert items[0..] == items;
    for i := 0 to |items|
      invariant PublishedError(items, {}) == PublishedError(items[i..], seen)
    {
      assert items[i..][0] == items[i] && items[i..][1..] == items[i + 1..];
      var item := items[i];
      if item.hostPort <= 0 || item.hostPort > 65535 { return Some(BadHostPort); }
      if item.containerPort <= 0 || item.containerPort > 65535 { return Some(BadContainerPort); }
      if Reserved(item.hostPort) { return Some(ReservedPort); }
      if item.hostPort in seen { return Some(RepeatedPort); }
      seen := seen + {item.hostPort};
    }
    failure := None;
  }

  method ValidateTcpProxyPorts(items: seq<TcpPort>) returns (failure: Option<Error>)
    ensures failure == TcpError(items, {})
  {
    var seen := {};
    assert items[0..] == items;
    for i := 0 to |items|
      invariant TcpError(items, {}) == TcpError(items[i..], seen)
    {
      assert items[i..][0] == items[i] && items[i..][1..] == items[i + 1..];
      var item := items[i];
      if item.listenPort <= 0 || item.listenPort > 65535 { return Some(BadHostPort); }
      if item.containerPort <= 0 || item.containerPort > 65535 { return Some(BadContainerPort); }
      if item.idleTimeoutSecond <= 0 { return Some(BadIdleTimeout); }
      if Reserved(item.listenPort) { return Some(ReservedPort); }
      if item.listenPort in seen { return Some(RepeatedPort); }
      seen := seen + {item.listenPort};
    }
    failure := None;
  }

  // Whether some value is (or is not) among the marked ones.
  method Marked(values: seq<int>, marks: set<int>) returns (found: bool)
    ensures found <==> exists p | p in values :: p in marks
  {
    for i := 0 to |values|
      invariant forall j | 0 <= j < i :: values[j] !in marks
    {
      var p := values[i];
      if p in marks {
        assert p in values && p in marks;
        return true;
      }
    }
    found := false;
  }

  method ValidateHostPortSets(s: Service) returns (failure: Option<Error>)
    ensures failure == if Overlap(s) then Some(PortSetsOverlap) else None
  {
    var published := set p | p in PublishedPorts(s.published);
    var listens := ListenPorts(s.tcp);
    var found := Marked(listens, published);
    failure := if found then Some(PortSetsOverlap) else None;
  }

  method ShareHost(a: seq<string>, b: seq<string>) returns (found: bool)
    ensures found <==> exists h | h in a :: h in b
  {
    var requested := set h | h in b;
    for i := 0 to |a|
      invariant forall j | 0 <= j < i :: a[j] !in b
    {
      if a[i] in requested { return true; }
    }
    found := false;
  }

  method CheckPrebind(agent: Agent, s: Service) returns (failure: Option<Error>)
    ensures failure == PrebindIssue(agent, s)
  {
    if !agent.tcpPrebind { return None; }
    var taken := Marked(PublishedPorts(s.published), agent.prebound);
    if taken { return Some(PortPrebound); }
    var listens := ListenPorts(s.tcp);
    for i := 0 to |listens|
      invariant forall j | 0 <= j < i :: !(20000 <= listens[j] <= 20099 && listens[j] !in agent.prebound)
    {
      if listens[i] < 20000 || listens[i] > 20099 { continue; }
      if listens[i] !in agent.prebound { return Some(PortNotPrebound); }
    }
    failure := None;
  }

  class Store {
    var rows: Rows

    constructor ()
      ensures rows == map[]
    {
      rows := map[];
    }

    method ListByAgent(agent: string) returns (ids: seq<Id>)
      ensures forall id :: id in ids <==> id in rows && rows[id].agent == agent
    {
      ids := [];
      var todo := rows.Keys;
      while todo != {}
        invariant todo <= rows.Keys
        invariant forall id :: id in ids <==> id in rows && id !in todo && rows[id].agent == agent
        decreases |todo|
      {
        var id :| id in todo;
        if rows[id].agent == agent { ids := ids + [id]; }
        todo := todo - {id};
      }
    }

    method EnsureRouteAvailable(s: Service, self: Id) returns (failure: Option<Error>)
      ensures failure == if HostsOf(s) == [] then Some(NoRouteHost)
                         else if RouteConflict(rows, s, self) then Some(RouteTaken) else None
    {
      hide HostsOf, NormalizeRoutePathPrefix;
      if HostsOf(s) == [] { return Some(NoRouteHost); }
      var ids := ListByAgent(s.agent);
      for i := 0 to |ids|
        invariant forall j | 0 <= j < i :: ids[j] == self || !SharesRoute(rows[ids[j]], s)
      {
        var other := rows[ids[i]];
        if ids[i] == self || NormalizeRoutePathPrefix(other.prefix) != s.prefix { continue; }
        var shared := ShareHost(HostsOf(other), HostsOf(s));
        if shared { return Some(RouteTaken); }
      }
      failure := None;
    }

    method EnsureHostPortsAvailable(agent: Agent, s: Service, self: Id) returns (failure: Option<Error>)
      ensures failure == if HostPorts(s) == [] then None
                         else if PrebindIssue(agent, s).Some? then PrebindIssue(agent, s)
                         else if PortConflict(rows, s, self) then Some(PortTaken) else None
    {
      if |s.published| == 0 && |s.tcp| == 0 { return None; }
      failure := CheckPrebind(agent, s);
      if failure.Some? { return; }
      var requested := set p | p in HostPorts(s);
      var ids := ListByAgent(s.agent);
      for i := 0 to |ids|
        invariant forall j | 0 <= j < i :: ids[j] == self || !SharesPort(rows[ids[j]], s)
      {
        if ids[i] == self { continue; }
        var taken := Marked(HostPorts(rows[ids[i]]), requested);
        if taken { return Some(PortTaken); }
      }
      failure := None;
    }

    method CheckEntity(agents: map<string, Agent>, s: Service, self: Id) returns (failure: Option<Error>)
      ensures failure == Check(rows, agents, s, self)
    {
      hide PublishedError, TcpError, Overlap, RouteConflict, PortConflict, PrebindIssue, HostsOf, HostPorts;
      failure := ValidatePublishedPorts(s.published);
      if failure.Some? { return; }
      failure := ValidateTcpProxyPorts(s.tcp);
      if failure.Some? { return; }
      failure := ValidateHostPortSets(s);
      if failure.Some? { return; }
      if !Assignable(agents, s.agent) { return Some(AgentUnknown); }
      failure := EnsureRouteAvailable(s, self);
      if failure.Some? { return; }
      failure := EnsureHostPortsAvailable(agents[s.agent], s, self);
    }

    method BuildEntity(q: Request) returns (r: Result<Service, Error>)
      ensures r == Build(q)
    {
      hide NormalizeRouteHost, NormalizeRoutePathPrefix, ValidKey, CleanPrefix;
      var key := Trim(q.key);
      if !ValidKey(key) { return Err(BadKey); }
      if q.containerPort <= 0 || q.containerPort > 65535 { return Err(BadContainerPort); }
      var hosts := NormalizeRouteHosts(q.routeHost, q.routeHosts);
      if hosts.Err? { return Err(hosts.error); }
      var prefix := NormalizeRoutePathPrefix(q.prefix);
      if !CleanPrefix(prefix) { return Err(BadPrefix); }
      return Ok(Service(key, q.agent, q.containerPort, hosts.value.0, hosts.value.1, prefix,
                        q.published, WithDefaults(q.tcp), q.enabled != Some(false)));
    }

    method Create(agents: map<string, Agent>, id: Id, q: Request) returns (failure: Option<Error>)
      modifies this
      ensures (rows, failure) == Catalog.Create(old(rows), agents, id, q)
    {
      hide Check, Build, ValidKey;
      var key := Trim(q.key);
      if !ValidKey(key) { return Some(BadKey); }
      if KeyUsed(rows, key) { return Some(KeyTaken); }
      var built := BuildEntity(q);
      if built.Err? { return Some(built.error); }
      failure := CheckEntity(agents, built.value, id);
      if failure.Some? { return; }
      rows := rows[id := built.value];
    }

    method Update(agents: map<string, Agent>, id: Id, q: Request) returns (failure: Option<Error>)
      modifies this
      ensures (rows, failure) == Catalog.Update(old(rows), agents, id, q)
    {
      hide Check, Build, ValidKey;
      var key := Trim(q.key);
      if !ValidKey(key) { return Some(BadKey); }
      if id !in rows { return Some(NotFound); }
      if key != rows[id].key { return Some(KeyImmutable); }
      if Trim(q.agent) != rows[id].agent { return Some(AgentImmutable); }
      var built := BuildEntity(q);
      if built.Err? { return Some(built.error); }
      failure := CheckEntity(agents, built.value, id);
      if failure.Some? { return; }
      rows := rows[id := built.value];
    }

    method Delete(id: Id, active: bool) returns (failure: Option<Error>)
      modifies this
      ensures (rows, failure) == Catalog.Delete(old(rows), id, active)
    {
      if id !in rows { return Some(NotFound); }
      if active { return Some(ReleaseActive); }
      rows := rows - {id};
      failure := None;
    }
  }
}
