/** From a request to a container: what a committed reconcile of a published snapshot serves. */
module PublishedPath {
  import opened Wrappers
  import opened Text
  import opened RouteNames
  import opened Sorting
  import opened ReleaseModel
  import opened ReleaseInvariant
  import opened ReleaseTheorems
  import opened Reconcile
  import opened Publisher
  import C = Catalog
  import R = Router
  import T = TcpRouter
  import RT = ReconcileTheorems
  import RouterCorrect
  import RouterTheorems
  import opened Widths

  // ---------------------------------------------------------------- where backends come from

  // A published backend: of a release behind HTTP or a listen port, of a listen port without a
  // release, or the one that normalizes.
  datatype Origin =
    | OfSlot(id: Id, slot: Slot)
    | OfPort(id: Id, port: C.TcpPort, slot: Slot)
    | Unavailable(id: Id, port: C.TcpPort)
    | Normalize

  predicate PortOf(rows: C.Rows, id: Id, port: C.TcpPort) {
    id in rows && port in rows[id].tcp && C.PortInRange(port.listenPort) && C.PortInRange(port.containerPort)
  }

  predicate Arises(rows: C.Rows, s: State, ids: seq<Id>, o: Origin) {
    match o
    case OfSlot(id, slot) => id in ids && id in rows && (id, slot) in s.instances
    case OfPort(id, port, slot) => id in ids && PortOf(rows, id, port) && (id, slot) in s.instances
    case Unavailable(id, port) => id in ids && PortOf(rows, id, port)
    case Normalize => true
  }

  function ContainerOf(rows: C.Rows, s: State, id: Id, slot: Slot, port: int): Server
    requires id in rows && (id, slot) in s.instances
  {
    Server(rows[id].key, s.instances[(id, slot)].release, slot, port)
  }

  function EntryOf(rows: C.Rows, s: State, ids: seq<Id>, o: Origin): Entry<Backend>
    requires Arises(rows, s, ids, o)
  {
    match o
    case OfSlot(id, slot) =>
      (BackendNameForRelease(id, s.instances[(id, slot)].release),
       Backend(false, None, map["srv" := ContainerOf(rows, s, id, slot, rows[id].containerPort)]))
    case OfPort(id, port, slot) =>
      (TcpBackendNameForRelease(id, s.instances[(id, slot)].release, port.listenPort),
       TcpBackend(PortProxy(rows, s, id, port), map["srv" := ContainerOf(rows, s, id, slot, port.containerPort)]))
    case Unavailable(id, port) =>
      (TcpUnavailableBackendName(port.listenPort), TcpBackend(PortProxy(rows, s, id, port), map[]))
    case Normalize => NORMALIZE_ENTRY
  }

  // A permutation of the snapshot, and proxies compiled from it.
  ghost predicate Published(
    rows: C.Rows, s: State, ids: seq<Id>, agent: string, services: seq<R.Service>, proxies: seq<T.Proxy>)
  {
    && Reachable(s) && C.Inv(rows) && AgentList(rows, ids, agent) && UuidReleases(s)
    && multiset(services) == multiset(Snapshot(rows, s, ids))
    && multiset(proxies) == multiset(T.AllProxies(services))
  }

  lemma {:induction false} HttpEntriesAre(services: seq<R.Service>, e: Entry<Backend>)
    ensures e in HttpEntries(services) <==> exists x | x in services :: e in ServiceEntries(x)
  {
    hide ServiceEntries;
    if services != [] { HttpEntriesAre(services[1..], e); }
  }

  lemma {:induction false} TcpEntriesAre(proxies: seq<T.Proxy>, e: Entry<Backend>)
    ensures e in TcpEntries(proxies) <==> exists p | p in proxies :: e in ProxyEntries(p)
  {
    hide ProxyEntries;
    if proxies != [] { TcpEntriesAre(proxies[1..], e); }
  }

  lemma PublishedService(rows: C.Rows, s: State, ids: seq<Id>, services: seq<R.Service>, x: R.Service) returns (id: Id)
    requires forall id | id in ids :: id in rows
    requires multiset(services) == multiset(Snapshot(rows, s, ids)) && x in services
    ensures id in ids && rows[id].enabled && x == ServiceConfig(rows, s, id)
  {
    hide ServiceConfig;
    SameElements(services, Snapshot(rows, s, ids), x);
    SnapshotAre(rows, s, ids, x);
    id :| id in ids && rows[id].enabled && x == ServiceConfig(rows, s, id);
  }

  lemma PublishedProxy(
    rows: C.Rows, s: State, ids: seq<Id>, agent: string, services: seq<R.Service>, proxies: seq<T.Proxy>, p: T.Proxy)
    returns (id: Id, port: C.TcpPort)
    requires Published(rows, s, ids, agent, services, proxies) && p in proxies
    ensures id in ids && PortOf(rows, id, port) && rows[id].enabled && p == PortProxy(rows, s, id, port)
  {
    hide ServiceConfig, Snapshot, T.AllProxies, T.ProxiesOf, T.ProxyOf, UuidReleases, Reachable, C.ServiceOk, Uuid;
    SameElements(proxies, T.AllProxies(services), p);
    T.AllProxiesAre(services, p);
    var x :| x in services && p in T.ProxiesOf(x, x.tcpPorts);
    T.ProxiesAre(x, x.tcpPorts, p);
    var q :| q in x.tcpPorts && T.Usable(q) && p == T.ProxyOf(x, q);
    id := PublishedService(rows, s, ids, services, x);
    port := ConfiguredPort(rows, s, id, q);
    assert C.ServiceOk(rows[id]);
    PortsInRange(rows, id, port);
  }

  lemma ConfiguredPort(rows: C.Rows, s: State, id: Id, q: R.TcpPort) returns (port: C.TcpPort)
    requires id in rows && q in ServiceConfig(rows, s, id).tcpPorts
    ensures port in rows[id].tcp && q == TcpConfig(id, Resolve(s, id, LiveSlotOf(s, id)), port)
  {
    hide Resolve, TcpConfig;
    var i :| 0 <= i < |ServiceConfig(rows, s, id).tcpPorts| && ServiceConfig(rows, s, id).tcpPorts[i] == q;
    port := rows[id].tcp[i];
  }

  lemma PortsInRange(rows: C.Rows, id: Id, port: C.TcpPort)
    requires id in rows && C.ServiceOk(rows[id]) && port in rows[id].tcp
    ensures PortOf(rows, id, port)
  {
    var i :| 0 <= i < |rows[id].tcp| && rows[id].tcp[i] == port;
    assert C.HostPorts(rows[id])[|rows[id].published| + i] == port.listenPort;
  }

  lemma TcpPortsInRange(rows: C.Rows, id: Id, port: C.TcpPort)
    requires C.Inv(rows) && id in rows && port in rows[id].tcp
    ensures PortOf(rows, id, port)
  {
    assert C.ServiceOk(rows[id]);
    PortsInRange(rows, id, port);
  }

  // Every entry of a published snapshot has an origin.
  lemma EntryHasOrigin(
    rows: C.Rows, s: State, ids: seq<Id>, agent: string, services: seq<R.Service>, proxies: seq<T.Proxy>,
    e: Entry<Backend>)
    returns (o: Origin)
    requires Published(rows, s, ids, agent, services, proxies) && e in BackendEntries(services, proxies)
    ensures Arises(rows, s, ids, o) && e == EntryOf(rows, s, ids, o)
  {
    hide HttpEntries, TcpEntries, ServiceEntries, ProxyEntries, ServiceConfig, PortProxy, Snapshot, Reachable, C.Inv,
        Uuid;
    hide UuidReleases, T.AllProxies, TcpBackendNameForRelease, BackendNameForRelease;
    HttpEntriesAre(services, e);
    TcpEntriesAre(proxies, e);
    if x :| x in services && e in ServiceEntries(x) {
      var id := PublishedService(rows, s, ids, services, x);
      o := HttpOrigin(rows, s, ids, id, e);
    } else if p :| p in proxies && e in ProxyEntries(p) {
      var id, port := PublishedProxy(rows, s, ids, agent, services, proxies, p);
      o := TcpOrigin(rows, s, ids, id, port, e);
    } else {
      o := Normalize;
    }
  }

  lemma HttpOrigin(rows: C.Rows, s: State, ids: seq<Id>, id: Id, e: Entry<Backend>) returns (o: Origin)
    requires id in ids && id in rows && Uuid(id) && UuidReleases(s) && e in ServiceEntries(ServiceConfig(rows, s, id))
    ensures o.OfSlot? && o.id == id && Arises(rows, s, ids, o) && e == EntryOf(rows, s, ids, o)
  {
    hide ServiceEntries, ServiceConfig, Uuid, UuidReleases, BackendNameForRelease;
    ServersAreContainers(rows, s, id, e);
    var release, slot :| (id, slot) in s.instances && s.instances[(id, slot)].release == release
      && e == (BackendNameForRelease(id, release),
               Backend(false, None, map["srv" := Server(rows[id].key, release, slot, rows[id].containerPort)]));
    o := OfSlot(id, slot);
  }

  lemma TcpOrigin(rows: C.Rows, s: State, ids: seq<Id>, id: Id, port: C.TcpPort, e: Entry<Backend>) returns (o: Origin)
    requires id in ids && PortOf(rows, id, port) && Uuid(id) && UuidReleases(s)
    requires e in ProxyEntries(PortProxy(rows, s, id, port))
    ensures (o.OfPort? || o.Unavailable?) && o.id == id && o.port == port
    ensures Arises(rows, s, ids, o) && e == EntryOf(rows, s, ids, o)
  {
    var x := PortProxy(rows, s, id, port);
    hide ProxyEntries, Uuid, UuidReleases, TcpBackendNameForRelease, PortProxy;
    EntryShape(x, e);
    if e.1.servers == map[] {
      o := Unavailable(id, port);
      UnavailableName(rows, s, id, port);
    } else {
      TcpServersAreContainers(rows, s, id, port, e);
      var release, slot :| (id, slot) in s.instances && s.instances[(id, slot)].release == release
        && e.0 == TcpBackendNameForRelease(id, release, port.listenPort)
        && e.1.servers == map["srv" := Server(rows[id].key, release, slot, port.containerPort)];
      o := OfPort(id, port, slot);
    }
  }

  lemma EntryShape(p: T.Proxy, e: Entry<Backend>)
    requires e in ProxyEntries(p)
    ensures e.1 == TcpBackend(p, e.1.servers) && (e.1.servers == map[] ==> e.0 == p.unavailable)
  {
    assert e.0 != p.unavailable ==> "srv" in e.1.servers;
  }

  lemma UnavailableName(rows: C.Rows, s: State, id: Id, port: C.TcpPort)
    requires PortOf(rows, id, port)
    ensures PortProxy(rows, s, id, port).unavailable == TcpUnavailableBackendName(port.listenPort)
    ensures PortProxy(rows, s, id, port).frontend == TcpFrontendName(port.listenPort)
    ensures PortProxy(rows, s, id, port).listenPort == port.listenPort
  {
    hide Resolve, BackendNameForRelease, TcpBackendNameForRelease, TcpUnavailableBackendName, TcpFrontendName, Trim,
        R.Clamp;
  }

  // ---------------------------------------------------------------- names of their own

  // A release occupies one slot.
  lemma OneSlot(s: State, id: Id, a: Slot, b: Slot)
    requires Reachable(s) && (id, a) in s.instances && (id, b) in s.instances
    requires s.instances[(id, a)].release == s.instances[(id, b)].release
    ensures a == b
  {
    ReachableInv(s);
    assert InstanceOk(s, (id, a)) && InstanceOk(s, (id, b));
  }

  // A listen port belongs to one service, and to one port of it.
  lemma OnePort(rows: C.Rows, ids: seq<Id>, agent: string, a: Id, p: C.TcpPort, b: Id, q: C.TcpPort)
    requires C.Inv(rows) && AgentList(rows, ids, agent) && a in ids && b in ids
    requires PortOf(rows, a, p) && PortOf(rows, b, q) && p.listenPort == q.listenPort
    ensures a == b && p == q
  {
    hide Uuid;
    assert C.ServiceOk(rows[a]);
    var i :| 0 <= i < |rows[a].tcp| && rows[a].tcp[i] == p;
    var j :| 0 <= j < |rows[b].tcp| && rows[b].tcp[j] == q;
    var k, l := |rows[a].published| + i, |rows[b].published| + j;
    assert C.HostPorts(rows[a])[k] == p.listenPort && C.HostPorts(rows[b])[l] == q.listenPort;
    assert C.SharesPort(rows[a], rows[b]) by {
      assert p.listenPort in C.HostPorts(rows[a]) && p.listenPort in C.HostPorts(rows[b]);
    }
    assert a != b ==> C.Exclusive(rows[a], rows[b]);
  }

  function Initial(o: Origin): string {
    match o
    case OfSlot(_, _) => "b"
    case OfPort(_, _, _) => "t"
    case Unavailable(_, _) => "ep_t"
    case Normalize => "ep_n"
  }

  lemma NameStarts(rows: C.Rows, s: State, ids: seq<Id>, o: Origin)
    requires Arises(rows, s, ids, o) && UuidReleases(s) && (!o.Normalize? ==> Uuid(o.id))
    ensures Initial(o) <= EntryOf(rows, s, ids, o).0
  {
    hide Uuid, PortProxy, Digits, Itoa, Without, Trim;
    match o
    case OfSlot(id, slot) => BackendNameIs(id, s.instances[(id, slot)].release);
    case OfPort(id, port, slot) => TcpBackendNameIs(id, s.instances[(id, slot)].release, port.listenPort);
    case Unavailable(_, _) =>
    case Normalize =>
  }

  lemma SameKind(a: Origin, b: Origin, name: string)
    requires Initial(a) <= name && Initial(b) <= name
    ensures (a.OfSlot? <==> b.OfSlot?) && (a.OfPort? <==> b.OfPort?) && (a.Unavailable? <==> b.Unavailable?)
  {
    assert name[0] == Initial(a)[0] == Initial(b)[0];
    if |Initial(a)| == 4 && |Initial(b)| == 4 { assert name[3] == Initial(a)[3] == Initial(b)[3]; }
  }

  // Backends of different origin have different names.
  lemma OriginsDiffer(rows: C.Rows, s: State, ids: seq<Id>, agent: string, a: Origin, b: Origin)
    requires Reachable(s) && C.Inv(rows) && AgentList(rows, ids, agent) && UuidReleases(s)
    requires Arises(rows, s, ids, a) && Arises(rows, s, ids, b)
    requires EntryOf(rows, s, ids, a).0 == EntryOf(rows, s, ids, b).0
    ensures a == b
  {
    NameStarts(rows, s, ids, a);
    NameStarts(rows, s, ids, b);
    SameKind(a, b, EntryOf(rows, s, ids, a).0);
    assert a.OfSlot? || a.OfPort? ==>
      Uuid(s.instances[(a.id, a.slot)].release) && Uuid(s.instances[(b.id, b.slot)].release);
    hide Uuid, UuidReleases, PortProxy, BackendNameForRelease, TcpBackendNameForRelease, TcpUnavailableBackendName,
        C.Inv, Initial;
    match a
    case OfSlot(id, slot) =>
      BackendNamesDiffer(id, s.instances[(id, slot)].release, b.id, s.instances[(b.id, b.slot)].release);
      OneSlot(s, id, slot, b.slot);
    case OfPort(id, port, slot) =>
      TcpBackendNamesDiffer(id, s.instances[(id, slot)].release, port.listenPort,
                            b.id, s.instances[(b.id, b.slot)].release, b.port.listenPort);
      OneSlot(s, id, slot, b.slot);
      OnePort(rows, ids, agent, id, port, b.id, b.port);
    case Unavailable(id, port) =>
      if port.listenPort != b.port.listenPort { T.NamesTellPorts(port.listenPort, b.port.listenPort); }
      OnePort(rows, ids, agent, id, port, b.id, b.port);
    case Normalize =>
  }

  // In every reachable state, each backend of a published snapshot has a name of its own.
  lemma NamesAreTheirOwn(
    rows: C.Rows, s: State, ids: seq<Id>, agent: string, services: seq<R.Service>, proxies: seq<T.Proxy>,
    e: Entry<Backend>, other: Entry<Backend>)
    requires Published(rows, s, ids, agent, services, proxies)
    requires e in BackendEntries(services, proxies) && other in BackendEntries(services, proxies) && e.0 == other.0
    ensures e == other
  {
    var o := EntryHasOrigin(rows, s, ids, agent, services, proxies, e);
    var p := EntryHasOrigin(rows, s, ids, agent, services, proxies, other);
    hide EntryOf, Arises;
    OriginsDiffer(rows, s, ids, agent, o, p);
  }

  lemma AllAgree(
    rows: C.Rows, s: State, ids: seq<Id>, agent: string, services: seq<R.Service>, proxies: seq<T.Proxy>)
    requires Published(rows, s, ids, agent, services, proxies)
    ensures RT.AllAgree(proxies) && forall p | p in proxies :: Managed(p.frontend)
  {
    forall p | p in proxies ensures RT.Agrees(p) && Managed(p.frontend) {
      var id, port := PublishedProxy(rows, s, ids, agent, services, proxies, p);
      hide Reachable, C.Inv, Resolve, PortProxy, Managed, TcpFrontendName, TcpUnavailableBackendName, UuidReleases,
          Uuid;
      PortBackends(rows, s, id, port);
      UnavailableName(rows, s, id, port);
      ManagedName(port.listenPort);
    }
  }

  // So each of them is committed as it is wanted.
  lemma CommittedAsWanted(
    rows: C.Rows, s: State, ids: seq<Id>, agent: string, services: seq<R.Service>, proxies: seq<T.Proxy>,
    section: R.Section, before: Config, e: Entry<Backend>)
    requires Published(rows, s, ids, agent, services, proxies) && e in BackendEntries(services, proxies)
    ensures var after := Target(before, services, proxies, section);
      e.0 in after.backends && after.backends[e.0] == e.1
  {
    hide Published, BackendEntries, Target;
    AllAgree(rows, s, ids, agent, services, proxies);
    forall other | other in BackendEntries(services, proxies) && other.0 == e.0 ensures other == e {
      NamesAreTheirOwn(rows, s, ids, agent, services, proxies, e, other);
    }
    RT.BackendContent(before, services, proxies, section, e);
  }

  // ---------------------------------------------------------------- from a request to a container

  // The container of a release of the service, in the slot the release occupies.
  ghost predicate Serving(rows: C.Rows, s: State, id: Id, backend: Backend, release: Id, port: int)
    requires id in rows
  {
    exists slot :: (id, slot) in s.instances && s.instances[(id, slot)].release == release
      && backend.servers == map["srv" := Server(rows[id].key, release, slot, port)]
  }

  // What the draw decides: a waiting release exactly below its percent, else the live one.
  ghost predicate Drawn(s: State, id: Id, draw: int, release: Id) {
    && (forall c | Waiting(s, c, id) :: release == c <==> draw < s.releases[c].percent)
    && ((forall c | Waiting(s, c, id) :: s.releases[c].percent <= draw) ==> Occupant(s, id) == Some(release))
  }

  lemma WaitingIsUuid(s: State, id: Id)
    requires Reachable(s) && UuidReleases(s) && ReleaseInvariant.LiveSlot(s, id) != NoSlot
    ensures Occupant(s, id).Some? ==> Uuid(Occupant(s, id).value)
    ensures forall c | Waiting(s, c, id) :: Uuid(c)
  {
    hide Uuid;
    PublishedMatchesState(s, id);
  }

  lemma DrawnByName(s: State, id: Id, draw: int, release: Id)
    requires Reachable(s) && UuidReleases(s) && ReleaseInvariant.LiveSlot(s, id) != NoSlot && Uuid(id) && Uuid(release)
    requires var backend := BackendNameForRelease(id, release);
      && Occupant(s, id).Some?
      && (forall c | Waiting(s, c, id) :: backend == BackendNameForRelease(id, c) <==> draw < s.releases[c].percent)
      && ((forall c | Waiting(s, c, id) :: s.releases[c].percent <= draw) ==>
            backend == BackendNameForRelease(id, Occupant(s, id).value))
    ensures Drawn(s, id, draw, release)
  {
    WaitingIsUuid(s, id);
    hide Uuid, UuidReleases, BackendNameForRelease, Reachable, Waiting;
    BackendNamesDiffer(id, release, id, Occupant(s, id).value);
    forall c | Waiting(s, c, id) ensures release == c <==> draw < s.releases[c].percent {
      BackendNamesDiffer(id, release, id, c);
    }
  }

  lemma PlainBackend(rows: C.Rows, s: State, id: Id, req: R.Request, draw: int) returns (backend: string)
    requires Reachable(s) && UuidReleases(s) && id in rows && Uuid(id) && ReleaseInvariant.LiveSlot(s, id) != NoSlot
    requires Plain(ServiceConfig(rows, s, id), req)
    ensures var x := ServiceConfig(rows, s, id);
      backend in {x.Live(), x.Candidate()} && backend != "" && R.Decision(x, req, draw) == Some(backend)
  {
    var x := ServiceConfig(rows, s, id);
    ConfigIsConsistent(rows, s, id);
    PublishedBackends(rows, s, id);
    PlainChoice(x, req, draw);
    hide Plain, R.Decision, ServiceConfig, Reachable, UuidReleases, Uuid, Waiting;
    backend := R.Decision(x, req, draw).value;
  }

  // The compiled order sends a request as the specification of its service decides.
  lemma OrderEvaluates(
    rows: C.Rows, s: State, ids: seq<Id>, agent: string, order: seq<R.Service>, id: Id,
    req: R.Request, draws: nat -> int, draw: int, backend: string)
    requires Reachable(s) && C.Inv(rows) && AgentList(rows, ids, agent) && UuidReleases(s) && TextsReadable(rows, ids)
    requires multiset(order) == multiset(Snapshot(rows, s, ids)) && RouterCorrect.LongestFirst(order)
    requires R.NoSentinel(req) && RouterTheorems.OneDraw(draws, draw) && id in ids
    requires RouterCorrect.LongestMatch(Snapshot(rows, s, ids), ServiceConfig(rows, s, id), req)
    requires R.Decision(ServiceConfig(rows, s, id), req, draw) == Some(backend)
    ensures R.Evaluate(R.Compiled(order), req, draws, DEFAULT_BACKEND) == backend
  {
    var out := Snapshot(rows, s, ids);
    SnapshotIsGood(rows, s, ids, agent);
    assert R.WellNamed(out) && R.UniqueRoutes(out);
    hide *;
    RouterCorrect.LongestRoutes(out, ServiceConfig(rows, s, id), req, draw, backend);
    RouterCorrect.CompilerIsCorrect(out, order, req, draws, draw, backend);
  }

  // The shared frontend on port 80 sends the request to a backend that is there, with exactly the
  // container of this release.
  ghost predicate Delivered(
    rows: C.Rows, s: State, after: Config, id: Id, req: R.Request, draws: nat -> int, release: Id)
    requires id in rows
  {
    && "ep_http" in after.frontends && after.frontends["ep_http"].Http? && after.frontends["ep_http"].bindPort == 80
    && var f := after.frontends["ep_http"];
      var backend := R.Evaluate(f.section, req, draws, f.defaultBackend);
      && backend == BackendNameForRelease(id, release) && backend in after.backends
      && Serving(rows, s, id, after.backends[backend], release, rows[id].containerPort)
  }

  // A snapshot of a state, published and committed.
  ghost predicate Committed(
    rows: C.Rows, s: State, ids: seq<Id>, agent: string, services: seq<R.Service>, before: Config, after: Config)
  {
    && Reachable(s) && C.Inv(rows) && AgentList(rows, ids, agent) && UuidReleases(s)
    && multiset(services) == multiset(Snapshot(rows, s, ids)) && Reconciled(before, after, services)
  }

  // A request on its way to a service with a live slot, with one draw: no other service with a
  // longer prefix serves it.
  ghost predicate Addressed(
    rows: C.Rows, s: State, ids: seq<Id>, id: Id, req: R.Request, draws: nat -> int, draw: int)
    requires forall i | i in ids :: i in rows
  {
    && TextsReadable(rows, ids) && id in ids && rows[id].enabled && ReleaseInvariant.LiveSlot(s, id) != NoSlot
    && R.NoSentinel(req) && RouterTheorems.OneDraw(draws, draw) && 0 <= draw < 100
    && RouterCorrect.LongestMatch(Snapshot(rows, s, ids), ServiceConfig(rows, s, id), req)
  }

  // What the specification decides for one of its own backends is what the proxy does.
  lemma DecidedIsDelivered(
    rows: C.Rows, s: State, ids: seq<Id>, agent: string, services: seq<R.Service>, before: Config, after: Config,
    id: Id, req: R.Request, draws: nat -> int, draw: int, backend: string)
    returns (release: Id)
    requires Committed(rows, s, ids, agent, services, before, after) && Addressed(rows, s, ids, id, req, draws, draw)
    requires var x := ServiceConfig(rows, s, id);
      backend in {x.Live(), x.Candidate()} && backend != "" && R.Decision(x, req, draw) == Some(backend)
    ensures Uuid(release) && backend == BackendNameForRelease(id, release)
    ensures Delivered(rows, s, after, id, req, draws, release)
    ensures exists order ::
      && multiset(order) == multiset(Snapshot(rows, s, ids)) && RouterCorrect.LongestFirst(order)
      && R.Evaluate(R.Compiled(order), req, draws, DEFAULT_BACKEND) == backend
  {
    hide R.NoSentinel, RouterTheorems.OneDraw, RouterCorrect.LongestMatch, TextsReadable, Reachable, C.Inv;
    hide Target, R.Compiled, R.Evaluate, BackendNameForRelease, Serving, ServiceConfig, Snapshot, BackendEntries;
    hide R.Decision, SortedBy, RouterCorrect.LongestFirst, ServiceEntries, Managed, Trim, UuidReleases, Uuid;
    var proxies, section :| CompiledFrom(services, proxies, section)
        && after == Target(before, services, proxies, section);
    var order :| multiset(order) == multiset(services) && SortedBy(order, R.Before) && section == R.Compiled(order);
    RouterCorrect.SortedIsLongestFirst(order);
    assert Published(rows, s, ids, agent, services, proxies);
    RT.ServiceEntryNames(ServiceConfig(rows, s, id), backend);
    var e :| e in ServiceEntries(ServiceConfig(rows, s, id)) && e.0 == backend;
    OrderEvaluates(rows, s, ids, agent, order, id, req, draws, draw, backend);
    AllAgree(rows, s, ids, agent, services, proxies);
    RT.FrontendsAreExact(before, services, proxies, section, SHARED_FRONTEND);
    PublishedEntry(rows, s, ids, services, proxies, id, e);
    CommittedAsWanted(rows, s, ids, agent, services, proxies, section, before, e);
    release := EntryServes(rows, s, ids, id, e);
  }

  // In every reachable state with a live slot: once a published snapshot has been committed, the
  // proxy sends a plain request to a backend that is there and has exactly the container of its
  // release, the waiting release's exactly when the draw is below its percent.
  lemma RequestReachesContainer(
    rows: C.Rows, s: State, ids: seq<Id>, agent: string, services: seq<R.Service>, before: Config, after: Config,
    id: Id, req: R.Request, draws: nat -> int, draw: int)
    requires Committed(rows, s, ids, agent, services, before, after) && Addressed(rows, s, ids, id, req, draws, draw)
    requires Plain(ServiceConfig(rows, s, id), req)
    ensures exists release :: Drawn(s, id, draw, release) && Delivered(rows, s, after, id, req, draws, release)
  {
    var backend := PlainBackend(rows, s, id, req, draw);
    var release := DecidedIsDelivered(rows, s, ids, agent, services, before, after, id, req, draws, draw, backend);
    var order :| multiset(order) == multiset(Snapshot(rows, s, ids)) && RouterCorrect.LongestFirst(order)
      && R.Evaluate(R.Compiled(order), req, draws, DEFAULT_BACKEND) == backend;
    hide Delivered, Plain, Reachable, C.Inv, UuidReleases, Uuid, BackendNameForRelease, Snapshot, R.Evaluate;
    hide R.Compiled, RouterCorrect.LongestFirst, RouterCorrect.LongestMatch, Drawn, Waiting, ServiceConfig;
    EndToEnd(rows, s, ids, agent, order, id, req, draws, draw);
    DrawnByName(s, id, draw, release);
  }

  lemma PublishedEntry(
    rows: C.Rows, s: State, ids: seq<Id>, services: seq<R.Service>, proxies: seq<T.Proxy>, id: Id, e: Entry<Backend>)
    requires forall i | i in ids :: i in rows
    requires multiset(services) == multiset(Snapshot(rows, s, ids)) && id in ids && rows[id].enabled
    requires e in ServiceEntries(ServiceConfig(rows, s, id))
    ensures e in BackendEntries(services, proxies)
  {
    hide ServiceConfig, ServiceEntries, HttpEntries, TcpEntries;
    var x := ServiceConfig(rows, s, id);
    SnapshotAre(rows, s, ids, x);
    SameElements(services, Snapshot(rows, s, ids), x);
    HttpEntriesAre(services, e);
  }

  lemma EntryServes(rows: C.Rows, s: State, ids: seq<Id>, id: Id, e: Entry<Backend>) returns (release: Id)
    requires id in ids && id in rows && Uuid(id) && UuidReleases(s) && e in ServiceEntries(ServiceConfig(rows, s, id))
    ensures e.0 == BackendNameForRelease(id, release) && Uuid(release)
    ensures Serving(rows, s, id, e.1, release, rows[id].containerPort)
  {
    hide ServiceEntries, ServiceConfig, BackendNameForRelease, Uuid;
    var o := HttpOrigin(rows, s, ids, id, e);
    release := s.instances[(id, o.slot)].release;
    assert Uuid(release);
  }

  // ---------------------------------------------------------------- never the default

  // No published service has the default backend for its own.
  lemma PublishedOwnBackends(rows: C.Rows, s: State, ids: seq<Id>, agent: string)
    requires AgentList(rows, ids, agent) && UuidReleases(s)
    ensures RouterCorrect.OwnBackends(Snapshot(rows, s, ids))
  {
    hide Snapshot, Uuid, UuidReleases, Trim, BackendNameForRelease, ServiceConfig;
    forall x | x in Snapshot(rows, s, ids) ensures x.Live() != DEFAULT_BACKEND && x.Candidate() != DEFAULT_BACKEND {
      SnapshotAre(rows, s, ids, x);
      var id :| id in ids && x == ServiceConfig(rows, s, id);
      OwnConfig(rows, s, id);
    }
  }

  lemma OwnConfig(rows: C.Rows, s: State, id: Id)
    requires id in rows && Uuid(id) && UuidReleases(s)
    ensures var x := ServiceConfig(rows, s, id); x.Live() != DEFAULT_BACKEND && x.Candidate() != DEFAULT_BACKEND
  {
    var p := Resolve(s, id, LiveSlotOf(s, id));
    assert p.live.Some? ==> Uuid(p.live.value);
    assert p.candidate.Some? ==> Uuid(p.candidate.value);
    NamedConsistently(id, p.live);
    NamedConsistently(id, p.candidate);
    hide Resolve, Uuid, BackendNameForRelease, Trim;
    if p.live.Some? { BackendNamesDiffer(id, p.live.value, id, p.live.value); }
    if p.candidate.Some? { BackendNamesDiffer(id, p.candidate.value, id, p.candidate.value); }
  }

  // So a request that a published service with a live slot serves never ends at the default.
  lemma PublishedNeverFallsThrough(
    rows: C.Rows, s: State, ids: seq<Id>, agent: string, order: seq<R.Service>, id: Id,
    req: R.Request, draws: nat -> int, draw: int)
    requires Reachable(s) && C.Inv(rows) && AgentList(rows, ids, agent) && UuidReleases(s) && TextsReadable(rows, ids)
    requires multiset(order) == multiset(Snapshot(rows, s, ids)) && RouterCorrect.LongestFirst(order)
    requires id in ids && rows[id].enabled && ReleaseInvariant.LiveSlot(s, id) != NoSlot
        && R.Serves(ServiceConfig(rows, s, id), req)
    requires R.NoSentinel(req) && RouterTheorems.OneDraw(draws, draw)
    ensures R.Evaluate(R.Compiled(order), req, draws, DEFAULT_BACKEND) != DEFAULT_BACKEND
  {
    var out, x := Snapshot(rows, s, ids), ServiceConfig(rows, s, id);
    SnapshotIsGood(rows, s, ids, agent);
    PublishedOwnBackends(rows, s, ids, agent);
    PublishedBackends(rows, s, id);
    SnapshotAre(rows, s, ids, x);
    hide *;
    RouterCorrect.LiveServiceNeverFallsThrough(out, order, req, draws, draw, x);
  }

  // ---------------------------------------------------------------- from a connection to a container

  // The listen port is bound by a frontend of its own that sends the connection to a backend that is
  // there, with exactly the container of this release. Both close an idle connection after the time
  // asked for if and only if that fits into 32 bits.
  ghost predicate Connected(
    rows: C.Rows, s: State, after: Config, id: Id, port: C.TcpPort, draw: int, release: Id)
    requires PortOf(rows, id, port)
  {
    var name := "ep_tcp_" + Itoa(port.listenPort);
    && name in after.frontends && after.frontends[name].Tcp?
    && after.frontends[name].frontend.bindPort == port.listenPort
    && var backend := T.Backend(after.frontends[name].frontend, draw);
      && backend == TcpBackendNameForRelease(id, release, port.listenPort) && backend in after.backends
      && after.backends[backend].tcp
      && (after.frontends[name].frontend.clientTimeoutMillis == 1000 * port.idleTimeoutSecond <==>
            port.idleTimeoutSecond <= 2147483647)
      && (after.backends[backend].timeoutMillis == Some(1000 * port.idleTimeoutSecond) <==>
            port.idleTimeoutSecond <= 2147483647)
      && Serving(rows, s, id, after.backends[backend], release, port.containerPort)
  }

  // The same for TCP: the listen port of an enabled service is bound by a frontend that sends a
  // connection to a backend that is there and has exactly the container of its release.
  lemma ConnectionReachesContainer(
    rows: C.Rows, s: State, ids: seq<Id>, agent: string, services: seq<R.Service>, before: Config, after: Config,
    id: Id, port: C.TcpPort, draw: int)
    requires Committed(rows, s, ids, agent, services, before, after)
    requires id in ids && rows[id].enabled && ReleaseInvariant.LiveSlot(s, id) != NoSlot && 0 <= draw < 100
    requires port in rows[id].tcp
    ensures PortOf(rows, id, port)
    ensures exists release :: Drawn(s, id, draw, release) && Connected(rows, s, after, id, port, draw, release)
  {
    hide Reachable, C.Inv, UuidReleases, Uuid, Target, R.Compiled, SortedBy, T.AllProxies, Snapshot, T.Backend;
    hide Connected, Drawn;
    assert PortOf(rows, id, port) by { TcpPortsInRange(rows, id, port); }
    hide PortOf;
    var proxies, section :| CompiledFrom(services, proxies, section)
        && after == Target(before, services, proxies, section);
    assert Published(rows, s, ids, agent, services, proxies);
    var release := ConnectionServed(rows, s, ids, agent, services, proxies, section, before, id, port, draw);
  }

  lemma ConnectionServed(
    rows: C.Rows, s: State, ids: seq<Id>, agent: string, services: seq<R.Service>, proxies: seq<T.Proxy>,
    section: R.Section, before: Config, id: Id, port: C.TcpPort, draw: int) returns (release: Id)
    requires Published(rows, s, ids, agent, services, proxies) && id in ids && rows[id].enabled
        && PortOf(rows, id, port)
    requires ReleaseInvariant.LiveSlot(s, id) != NoSlot && 0 <= draw < 100
    ensures Drawn(s, id, draw, release)
    ensures Connected(rows, s, Target(before, services, proxies, section), id, port, draw, release)
  {
    var x := PortProxy(rows, s, id, port);
    UnavailableName(rows, s, id, port);
    assert Reachable(s) && UuidReleases(s) && Uuid(id) && C.Inv(rows);
    hide Reachable, UuidReleases, Uuid, Published, PortOf, PortProxy, Target, Serving, Drawn, Connected,
        TcpFrontendName;
    hide TcpBackendNameForRelease, T.Backend, T.FrontendFor, ProxyEntries, TcpEntries, BackendEntries, C.Inv;
    PortIsBound(rows, s, ids, agent, services, proxies, section, before, id, port);
    var e := PortBackend(rows, s, id, port, draw);
    PortIsPublished(rows, s, ids, agent, services, proxies, id, port);
    TcpEntriesAre(proxies, e);
    InEntries(services, proxies, e);
    CommittedAsWanted(rows, s, ids, agent, services, proxies, section, before, e);
    release := PortServes(rows, s, ids, id, port, e);
    ConnectionIsDrawn(rows, s, id, port, draw, release);
    IsConnected(rows, s, Target(before, services, proxies, section), id, port, draw, release, e);
  }

  lemma IsConnected(
    rows: C.Rows, s: State, after: Config, id: Id, port: C.TcpPort, draw: int, release: Id, e: Entry<Backend>)
    requires C.Inv(rows) && PortOf(rows, id, port)
    requires var x, name := PortProxy(rows, s, id, port), TcpFrontendName(port.listenPort);
      && name in after.frontends && after.frontends[name] == Tcp(T.FrontendFor(x))
      && e.0 == T.Backend(T.FrontendFor(x), draw) == TcpBackendNameForRelease(id, release, port.listenPort)
      && e.0 in after.backends && after.backends[e.0] == e.1 && e.1 == TcpBackend(x, e.1.servers)
      && Serving(rows, s, id, e.1, release, port.containerPort)
    ensures Connected(rows, s, after, id, port, draw, release)
  {
    BoundPort(PortProxy(rows, s, id, port));
    IdleTimeoutIs(rows, s, id, port);
    UnavailableName(rows, s, id, port);
    hide PortProxy, C.Inv, T.FrontendFor, T.Backend, Serving, Itoa, TcpBackendNameForRelease;
  }

  lemma ConnectionIsDrawn(rows: C.Rows, s: State, id: Id, port: C.TcpPort, draw: int, release: Id)
    requires Reachable(s) && UuidReleases(s) && id in rows && Uuid(id) && Uuid(release) && PortOf(rows, id, port)
    requires ReleaseInvariant.LiveSlot(s, id) != NoSlot && 0 <= draw < 100
    requires T.Backend(T.FrontendFor(PortProxy(rows, s, id, port)), draw)
             == TcpBackendNameForRelease(id, release, port.listenPort)
    ensures Drawn(s, id, draw, release)
  {
    hide Reachable, UuidReleases, Uuid, PortProxy, Waiting, T.FrontendFor, T.Backend, TcpBackendNameForRelease, Drawn;
    TcpEndToEnd(rows, s, id, port, draw);
    DrawnByPort(s, id, port.listenPort, draw, release);
  }

  lemma PortIsBound(
    rows: C.Rows, s: State, ids: seq<Id>, agent: string, services: seq<R.Service>, proxies: seq<T.Proxy>,
    section: R.Section, before: Config, id: Id, port: C.TcpPort)
    requires Published(rows, s, ids, agent, services, proxies) && id in ids && PortOf(rows, id, port)
        && rows[id].enabled
    ensures var after, name := Target(before, services, proxies, section), TcpFrontendName(port.listenPort);
      name in after.frontends && after.frontends[name] == Tcp(T.FrontendFor(PortProxy(rows, s, id, port)))
  {
    AllAgree(rows, s, ids, agent, services, proxies);
    PortIsPublished(rows, s, ids, agent, services, proxies, id, port);
    UnavailableName(rows, s, id, port);
    hide Published, Target, PortProxy, PortOf, Managed, T.FrontendFor, TcpFrontendName;
    var name := PortProxy(rows, s, id, port).frontend;
    RT.FrontendsAreExact(before, services, proxies, section, name);
    forall p | p in proxies && p.frontend == name ensures p == PortProxy(rows, s, id, port) {
      SameFrontend(rows, s, ids, agent, services, proxies, id, port, p);
    }
  }

  lemma InEntries(services: seq<R.Service>, proxies: seq<T.Proxy>, e: Entry<Backend>)
    requires e in TcpEntries(proxies)
    ensures e in BackendEntries(services, proxies)
  {
    hide HttpEntries, TcpEntries;
  }

  // Stored timeouts are positive; beyond 32 bits the proxy gets another one.
  lemma IdleTimeoutIs(rows: C.Rows, s: State, id: Id, port: C.TcpPort)
    requires C.Inv(rows) && PortOf(rows, id, port)
    ensures var x := PortProxy(rows, s, id, port);
      x.idleTimeoutSecond > 0
          && (x.idleTimeoutSecond == port.idleTimeoutSecond <==> port.idleTimeoutSecond <= 2147483647)
  {
    assert C.ServiceOk(rows[id]);
    hide Resolve, BackendNameForRelease, TcpBackendNameForRelease, Trim, R.Clamp, Int32;
  }

  lemma BoundPort(p: T.Proxy)
    ensures T.FrontendFor(p).bindPort == p.listenPort
    ensures p.idleTimeoutSecond > 0 ==> T.FrontendFor(p).clientTimeoutMillis == 1000 * p.idleTimeoutSecond
  {
  }

  lemma PortIsPublished(
    rows: C.Rows, s: State, ids: seq<Id>, agent: string, services: seq<R.Service>, proxies: seq<T.Proxy>,
    id: Id, port: C.TcpPort)
    requires Published(rows, s, ids, agent, services, proxies)
    requires id in ids && PortOf(rows, id, port) && rows[id].enabled
    ensures PortProxy(rows, s, id, port) in proxies
  {
    hide Resolve, Reachable, C.Inv, UuidReleases, Uuid, Snapshot, T.AllProxies, T.ProxiesOf, TcpConfig,
        BackendNameForRelease;
    var x := ServiceConfig(rows, s, id);
    var q := TcpConfig(id, Resolve(s, id, LiveSlotOf(s, id)), port);
    var i :| 0 <= i < |rows[id].tcp| && rows[id].tcp[i] == port;
    assert x.tcpPorts[i] == q;
    UsablePort(id, Resolve(s, id, LiveSlotOf(s, id)), port);
    hide ServiceConfig;
    T.ProxiesAre(x, x.tcpPorts, T.ProxyOf(x, q));
    SnapshotAre(rows, s, ids, x);
    SameElements(services, Snapshot(rows, s, ids), x);
    T.AllProxiesAre(services, T.ProxyOf(x, q));
    SameElements(proxies, T.AllProxies(services), T.ProxyOf(x, q));
  }

  lemma UsablePort(id: Id, p: Publisher.Published, port: C.TcpPort)
    requires C.PortInRange(port.listenPort) && C.PortInRange(port.containerPort)
    ensures T.Usable(TcpConfig(id, p, port))
  {
  }

  lemma SameFrontend(
    rows: C.Rows, s: State, ids: seq<Id>, agent: string, services: seq<R.Service>, proxies: seq<T.Proxy>,
    id: Id, port: C.TcpPort, p: T.Proxy)
    requires Published(rows, s, ids, agent, services, proxies)
    requires id in ids && PortOf(rows, id, port) && p in proxies && p.frontend == TcpFrontendName(port.listenPort)
    ensures p == PortProxy(rows, s, id, port)
  {
    hide Reachable, C.Inv, UuidReleases, Uuid, Snapshot, T.AllProxies, PortProxy, TcpFrontendName;
    var other, q := PublishedProxy(rows, s, ids, agent, services, proxies, p);
    UnavailableName(rows, s, other, q);
    if q.listenPort != port.listenPort { T.NamesTellPorts(q.listenPort, port.listenPort); }
    OnePort(rows, ids, agent, other, q, id, port);
  }

  lemma PortBackend(rows: C.Rows, s: State, id: Id, port: C.TcpPort, draw: int) returns (e: Entry<Backend>)
    requires Reachable(s) && UuidReleases(s) && id in rows && Uuid(id) && ReleaseInvariant.LiveSlot(s, id) != NoSlot
        && PortOf(rows, id, port)
    requires 0 <= draw < 100
    ensures var x := PortProxy(rows, s, id, port);
      && e in ProxyEntries(x) && e.0 == T.Backend(T.FrontendFor(x), draw) && e.1.servers != map[]
  {
    var x := PortProxy(rows, s, id, port);
    PublishedPort(rows, s, id, port);
    T.TcpDecision(x, draw);
    PortAgreesToo(rows, s, id, port);
    hide Reachable, UuidReleases, Uuid, PortProxy, Waiting, TcpBackendNameForRelease;
    var name := T.Backend(T.FrontendFor(x), draw);
    hide T.FrontendFor, T.Backend;
    e := NamedEntry(x, name);
  }

  lemma PortAgreesToo(rows: C.Rows, s: State, id: Id, port: C.TcpPort)
    requires UuidReleases(s) && id in rows && Uuid(id) && PortOf(rows, id, port)
    ensures RT.Agrees(PortProxy(rows, s, id, port))
  {
    hide Resolve, PortProxy, Uuid, UuidReleases, TcpBackendNameForRelease;
    PortBackends(rows, s, id, port);
    var p := Resolve(s, id, LiveSlotOf(s, id));
    IdNotEmpty(s, id);
  }

  lemma IdNotEmpty(s: State, id: Id)
    requires UuidReleases(s)
    ensures var p := Resolve(s, id, LiveSlotOf(s, id));
      (p.live.Some? ==> IdText(p.live) != "") && (p.candidate.Some? ==> IdText(p.candidate) != "")
  {
  }

  lemma NamedEntry(x: T.Proxy, name: string) returns (e: Entry<Backend>)
    requires RT.Agrees(x) && name != "" && (name == x.live || name == x.candidate)
    ensures e in ProxyEntries(x) && e.0 == name && e.1.servers != map[]
  {
    var live := TcpEntry(x, x.live, x.liveRelease, Reconcile.LiveSlot(x.liveSlot));
    var candidate := TcpEntry(x, x.candidate, x.candidateRelease, Reconcile.CandidateSlot(x.liveSlot));
    e := if name == x.live then live[0] else candidate[0];
    assert "srv" in e.1.servers;
  }

  lemma PortServes(rows: C.Rows, s: State, ids: seq<Id>, id: Id, port: C.TcpPort, e: Entry<Backend>)
      returns (release: Id)
    requires id in ids && PortOf(rows, id, port) && Uuid(id) && UuidReleases(s)
    requires e in ProxyEntries(PortProxy(rows, s, id, port)) && e.1.servers != map[]
    ensures e.0 == TcpBackendNameForRelease(id, release, port.listenPort) && Uuid(release)
    ensures Serving(rows, s, id, e.1, release, port.containerPort)
    ensures e.1 == TcpBackend(PortProxy(rows, s, id, port), e.1.servers)
  {
    EntryShape(PortProxy(rows, s, id, port), e);
    hide ProxyEntries, PortProxy, TcpBackendNameForRelease, Uuid;
    var o := TcpOrigin(rows, s, ids, id, port, e);
    release := s.instances[(id, o.slot)].release;
    assert Uuid(release);
  }

  lemma DrawnByPort(s: State, id: Id, port: int, draw: int, release: Id)
    requires Reachable(s) && UuidReleases(s) && ReleaseInvariant.LiveSlot(s, id) != NoSlot && Uuid(id) && Uuid(release)
        && port > 0
    requires var backend := TcpBackendNameForRelease(id, release, port);
      && Occupant(s, id).Some?
      && (forall c | Waiting(s, c, id) :: backend == TcpBackendNameForRelease(id, c, port) <==>
          draw < s.releases[c].percent)
      && ((forall c | Waiting(s, c, id) :: s.releases[c].percent <= draw) ==>
            backend == TcpBackendNameForRelease(id, Occupant(s, id).value, port))
    ensures Drawn(s, id, draw, release)
  {
    WaitingIsUuid(s, id);
    hide Uuid, UuidReleases, TcpBackendNameForRelease, Reachable, Waiting;
    TcpBackendNamesDiffer(id, release, port, id, Occupant(s, id).value, port);
    forall c | Waiting(s, c, id) ensures release == c <==> draw < s.releases[c].percent {
      TcpBackendNamesDiffer(id, release, port, id, c, port);
    }
  }
}
