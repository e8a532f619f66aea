/** Applying a snapshot to the proxy's data plane: one transaction that ensures what the snapshot
    wants, removes what it no longer wants, and commits or leaves everything as it was. */
module Reconcile {
  import opened Wrappers
  import opened Text
  import opened RouteNames
  import opened Sorting
  import M = ReleaseModel
  import R = Router
  import T = TcpRouter
  import RouterCorrect

  // ---------------------------------------------------------------- configurations

  datatype Server = Server(serviceKey: string, release: string, slot: M.Slot, port: int)

  datatype Backend = Backend(tcp: bool, timeoutMillis: Option<int>, servers: map<string, Server>)

  datatype Frontend =
    | Http(bindPort: int, defaultBackend: string, section: R.Section)
    | Tcp(frontend: T.Frontend)
    | Foreign(text: string, backends: set<string>)
  {
    // The backends a frontend refers to.
    ghost predicate Names(b: string) {
      match this
      case Http(_, default, section) => b == default || exists r | r in section.rules :: r.backend == b
      case Tcp(f) => b == f.defaultBackend || (f.split.Some? && f.split.value.0 == b)
      case Foreign(_, backends) => b in backends
    }
  }

  datatype Config = Config(backends: map<string, Backend>, frontends: map<string, Frontend>)

  const SHARED_FRONTEND := "ep_http"
  const SHARED_PORT := 80

  predicate Managed(name: string) {
    HasPrefix(Trim(name), "ep_tcp_")
  }

  // ---------------------------------------------------------------- what a snapshot wants

  type Entry<T> = (string, T)

  function LiveSlot(slot: M.Slot): M.Slot {
    if slot == M.NoSlot then M.Blue else slot
  }

  function CandidateSlot(slot: M.Slot): M.Slot {
    if LiveSlot(slot) == M.Blue then M.Green else M.Blue
  }

  function HttpBackend(s: R.Service, release: string, slot: M.Slot): Backend {
    Backend(false, None, map["srv" := Server(s.key, release, slot, s.containerPort)])
  }

  function ServiceEntries(s: R.Service): seq<Entry<Backend>> {
    (if s.Live() != "" then [(s.Live(), HttpBackend(s, s.LiveRelease(), LiveSlot(s.liveSlot)))] else [])
    + if s.Candidate() == "" then []
      else [(s.Candidate(), HttpBackend(s, s.CandidateRelease(), CandidateSlot(s.liveSlot)))]
  }

  function HttpEntries(services: seq<R.Service>): seq<Entry<Backend>> {
    if services == [] then [] else ServiceEntries(services[0]) + HttpEntries(services[1..])
  }

  function TcpBackend(p: T.Proxy, servers: map<string, Server>): Backend {
    Backend(true, Some(p.idleTimeoutSecond * 1000), servers)
  }

  function TcpEntry(p: T.Proxy, name: string, release: string, slot: M.Slot): seq<Entry<Backend>> {
    if name == "" || release == "" then []
    else [(name, TcpBackend(p, map["srv" := Server(p.serviceKey, release, slot, p.containerPort)]))]
  }

  function ProxyEntries(p: T.Proxy): seq<Entry<Backend>> {
    TcpEntry(p, p.live, p.liveRelease, LiveSlot(p.liveSlot))
    + TcpEntry(p, p.candidate, p.candidateRelease, CandidateSlot(p.liveSlot))
    + [(p.unavailable, TcpBackend(p, map[]))]
  }

  function TcpEntries(proxies: seq<T.Proxy>): seq<Entry<Backend>> {
    if proxies == [] then [] else ProxyEntries(proxies[0]) + TcpEntries(proxies[1..])
  }

  const NORMALIZE_ENTRY: Entry<Backend> := (NORMALIZE_BACKEND, Backend(false, None, map[]))

  function BackendEntries(services: seq<R.Service>, proxies: seq<T.Proxy>): seq<Entry<Backend>> {
    HttpEntries(services) + TcpEntries(proxies) + [NORMALIZE_ENTRY]
  }

  function TcpFrontends(proxies: seq<T.Proxy>): seq<Entry<Frontend>> {
    seq(|proxies|, i requires 0 <= i < |proxies| => (proxies[i].frontend, Tcp(T.FrontendFor(proxies[i]))))
  }

  function SharedFrontend(section: R.Section): Frontend {
    Http(SHARED_PORT, DEFAULT_BACKEND, section)
  }

  // Later entries replace earlier ones.
  function Overlay<T>(m: map<string, T>, entries: seq<Entry<T>>): map<string, T>
    decreases |entries|
  {
    if entries == [] then m else Overlay(m[entries[0].0 := entries[0].1], entries[1..])
  }

  predicate WantedFrontend(proxies: seq<T.Proxy>, name: string) {
    name == SHARED_FRONTEND || exists p | p in proxies :: p.frontend == name
  }

  predicate StaleFrontend(proxies: seq<T.Proxy>, name: string) {
    Managed(name) && !WantedFrontend(proxies, name)
  }

  predicate WantedBackend(services: seq<R.Service>, proxies: seq<T.Proxy>, name: string) {
    || name == DEFAULT_BACKEND || name == NORMALIZE_BACKEND
    || (name != "" && exists s | s in services :: name == s.Live() || name == s.Candidate())
    || (exists p | p in proxies :: name == p.unavailable)
    || (name != "" && exists p | p in proxies :: name == p.live || name == p.candidate)
  }

  function Ensured(c: Config, services: seq<R.Service>, proxies: seq<T.Proxy>, section: R.Section): Config {
    Config(Overlay(c.backends, BackendEntries(services, proxies)),
           Overlay(c.frontends, TcpFrontends(proxies))[SHARED_FRONTEND := SharedFrontend(section)])
  }

  function LessUnwanted(
    m: map<string, Backend>, committed: set<string>, services: seq<R.Service>, proxies: seq<T.Proxy>)
    : map<string, Backend>
  {
    map n | n in m && !(n in committed && !WantedBackend(services, proxies, n)) :: m[n]
  }

  function LessStale(m: map<string, Frontend>, committed: set<string>, proxies: seq<T.Proxy>): map<string, Frontend> {
    map n | n in m && !(n in committed && StaleFrontend(proxies, n)) :: m[n]
  }

  // What is committed: everything ensured, less the stale sections that were there before.
  function Target(c: Config, services: seq<R.Service>, proxies: seq<T.Proxy>, section: R.Section): Config {
    var e := Ensured(c, services, proxies, section);
    Config(LessUnwanted(e.backends, c.backends.Keys, services, proxies),
           LessStale(e.frontends, c.frontends.Keys, proxies))
  }

  // ---------------------------------------------------------------- the data plane

  class DataPlane {
    var config: Config
    var tx: Option<Config>
    var calls: nat
    const fault: nat -> bool // whether the k-th request fails
    const lost: nat -> bool  // whether it takes effect all the same, and only its answer is missing

    constructor (config: Config, fault: nat -> bool, lost: nat -> bool)
      ensures this.config == config && tx == None && this.fault == fault && this.lost == lost
    {
      this.config, tx, calls, this.fault, this.lost := config, None, 0, fault, lost;
    }

    ghost predicate AnswersArrive()
    {
      forall k: nat :: fault(k) ==> !lost(k)
    }

    ghost predicate Reliable()
    {
      forall k: nat :: !fault(k)
    }

    method Request() returns (ok: bool)
      modifies this`calls
      ensures ok == !fault(old(calls))
    {
      ok := !fault(calls);
      calls := calls + 1;
    }

    method StartTransaction() returns (ok: bool)
      modifies this`tx, this`calls
      ensures ok ==> tx == Some(config)
      ensures Reliable() ==> ok
    {
      ok := Request();
      if !ok { return; }
      ok := Request();
      if ok { tx := Some(config); }
    }

    method AbortTransaction()
      modifies this`tx, this`calls
    {
      var ok := Request();
      if ok { tx := None; }
    }

    // What a failed request does inside the transaction is dropped with it; a commit is the one
    // request whose effect can outlive a missing answer.
    method CommitTransaction() returns (ok: bool)
      requires tx.Some?
      modifies this
      ensures config == old(tx.value) || (!ok && config == old(config))
      ensures !ok && AnswersArrive() ==> config == old(config)
      ensures Reliable() ==> ok
    {
      var k := calls;
      ok := Request();
      if ok || lost(k) { config := tx.value; }
      if ok { tx := None; }
    }

    // Replaces the section; a missing one is created by a second request.
    method EnsureBackend(name: string, b: Backend) returns (ok: bool)
      requires tx.Some?
      modifies this`tx, this`calls
      ensures tx.Some? && tx.value.frontends == old(tx.value.frontends)
      ensures ok ==> tx.value.backends == old(tx.value.backends)[name := b]
      ensures Reliable() ==> ok
    {
      ok := Request();
      if !ok { return; }
      if name !in tx.value.backends {
        ok := Request();
        if !ok { return; }
      }
      tx := Some(Config(tx.value.backends[name := b], tx.value.frontends));
    }

    method EnsureServer(backend: string, name: string, server: Server) returns (ok: bool)
      requires tx.Some? && backend in tx.value.backends
      modifies this`tx, this`calls
      ensures tx.Some? && tx.value.frontends == old(tx.value.frontends)
      ensures ok ==> var b := old(tx.value.backends)[backend];
        tx.value.backends == old(tx.value.backends)[backend := b.(servers := b.servers[name := server])]
      ensures Reliable() ==> ok
    {
      var b := tx.value.backends[backend];
      ok := Request();
      if !ok { return; }
      if name !in b.servers {
        ok := Request();
        if !ok { return; }
      }
      tx := Some(Config(tx.value.backends[backend := b.(servers := b.servers[name := server])], tx.value.frontends));
    }

    method ReplaceFrontend(name: string, f: Frontend) returns (ok: bool)
      requires tx.Some?
      modifies this`tx, this`calls
      ensures tx.Some? && tx.value.backends == old(tx.value.backends)
      ensures ok ==> tx.value.frontends == old(tx.value.frontends)[name := f]
      ensures Reliable() ==> ok
    {
      ok := Request();
      if !ok { return; }
      if name !in tx.value.frontends {
        ok := Request();
        if !ok { return; }
      }
      tx := Some(Config(tx.value.backends, tx.value.frontends[name := f]));
    }

    // Listing reads the committed configuration, not the transaction.
    method ListFrontends() returns (names: Option<seq<string>>)
      modifies this`calls
      ensures names.Some? ==> forall n :: n in names.value <==> n in config.frontends
      ensures Reliable() ==> names.Some?
    {
      var ok := Request();
      if !ok { return None; }
      var all := Listed(config.frontends.Keys);
      names := Some(all);
    }

    method ListBackends() returns (names: Option<seq<string>>)
      modifies this`calls
      ensures names.Some? ==> forall n :: n in names.value <==> n in config.backends
      ensures Reliable() ==> names.Some?
    {
      var ok := Request();
      if !ok { return None; }
      var all := Listed(config.backends.Keys);
      names := Some(all);
    }

    // Deleting a section that is not there is no failure.
    method DeleteBackend(name: string) returns (ok: bool)
      requires tx.Some?
      modifies this`tx, this`calls
      ensures tx.Some? && tx.value.frontends == old(tx.value.frontends)
      ensures ok ==> tx.value.backends == old(tx.value.backends) - {name}
      ensures Reliable() ==> ok
    {
      ok := Request();
      if ok { tx := Some(Config(tx.value.backends - {name}, tx.value.frontends)); }
    }

    method DeleteFrontend(name: string) returns (ok: bool)
      requires tx.Some?
      modifies this`tx, this`calls
      ensures tx.Some? && tx.value.backends == old(tx.value.backends)
      ensures ok ==> tx.value.frontends == old(tx.value.frontends) - {name}
      ensures Reliable() ==> ok
    {
      ok := Request();
      if ok { tx := Some(Config(tx.value.backends, tx.value.frontends - {name})); }
    }
  }

  method Listed(names: set<string>) returns (r: seq<string>)
    ensures forall n :: n in r <==> n in names
  {
    r := [];
    var todo := names;
    while todo != {}
      invariant todo <= names && forall n :: n in r <==> n in names && n !in todo
      decreases |todo|
    {
      var n :| n in todo;
      r := r + [n];
      todo := todo - {n};
    }
  }

  // ---------------------------------------------------------------- reconciling

  lemma {:induction false} OverlayBoth<T>(m: map<string, T>, a: seq<Entry<T>>, b: seq<Entry<T>>)
    ensures Overlay(m, a + b) == Overlay(Overlay(m, a), b)
    decreases |a|
  {
    if a == [] {
      assert a + b == b;
    } else {
      assert (a + b)[1..] == a[1..] + b;
      OverlayBoth(m[a[0].0 := a[0].1], a[1..], b);
    }
  }

  lemma OverlayOne<T>(m: map<string, T>, name: string, x: T)
    ensures Overlay(m, [(name, x)]) == m[name := x]
  {
    assert [(name, x)][1..] == [];
  }

  method EnsureTarget(plane: DataPlane, name: string, b: Backend, server: Server) returns (ok: bool)
    requires plane.tx.Some? && b.servers == map[]
    modifies plane`tx, plane`calls
    ensures plane.tx.Some? && plane.tx.value.frontends == old(plane.tx.value.frontends)
    ensures ok ==> plane.tx.value.backends == old(plane.tx.value.backends)[name := b.(servers := map["srv" := server])]
    ensures plane.Reliable() ==> ok
  {
    ok := plane.EnsureBackend(name, b);
    if !ok { return; }
    ok := plane.EnsureServer(name, "srv", server);
  }

  method EnsureService(plane: DataPlane, s: R.Service) returns (ok: bool)
    requires plane.tx.Some?
    modifies plane`tx, plane`calls
    ensures plane.tx.Some? && plane.tx.value.frontends == old(plane.tx.value.frontends)
    ensures ok ==> plane.tx.value.backends == Overlay(old(plane.tx.value.backends), ServiceEntries(s))
    ensures plane.Reliable() ==> ok
  {
    var live, candidate := s.Live(), s.Candidate();
    ghost var before := plane.tx.value.backends;
    var liveServer := Server(s.key, s.LiveRelease(), LiveSlot(s.liveSlot), s.containerPort);
    var candidateServer := Server(s.key, s.CandidateRelease(), CandidateSlot(s.liveSlot), s.containerPort);
    ghost var first := if live != "" then [(live, HttpBackend(s, s.LiveRelease(), LiveSlot(s.liveSlot)))] else [];
    ghost var second := if candidate != ""
        then [(candidate, HttpBackend(s, s.CandidateRelease(), CandidateSlot(s.liveSlot)))] else [];
    assert ServiceEntries(s) == first + second;
    OverlayBoth(before, first, second);
    OverlayOne(before, live, HttpBackend(s, s.LiveRelease(), LiveSlot(s.liveSlot)));
    ok := true;
    if live != "" {
      ok := EnsureTarget(plane, live, Backend(false, None, map[]), liveServer);
      if !ok { return; }
    }
    assert plane.tx.value.backends == Overlay(before, first);
    OverlayOne(plane.tx.value.backends, candidate, HttpBackend(s, s.CandidateRelease(), CandidateSlot(s.liveSlot)));
    if candidate != "" {
      ok := EnsureTarget(plane, candidate, Backend(false, None, map[]), candidateServer);
    }
  }

  method EnsureServices(plane: DataPlane, services: seq<R.Service>) returns (ok: bool)
    requires plane.tx.Some?
    modifies plane`tx, plane`calls
    ensures plane.tx.Some? && plane.tx.value.frontends == old(plane.tx.value.frontends)
    ensures ok ==> plane.tx.value.backends == Overlay(old(plane.tx.value.backends), HttpEntries(services))
    ensures plane.Reliable() ==> ok
  {
    hide ServiceEntries;
    ghost var total := Overlay(plane.tx.value.backends, HttpEntries(services));
    assert services[0..] == services;
    for i := 0 to |services|
      invariant plane.tx.Some? && plane.tx.value.frontends == old(plane.tx.value.frontends)
      invariant Overlay(plane.tx.value.backends, HttpEntries(services[i..])) == total
    {
      assert services[i..][0] == services[i] && services[i..][1..] == services[i + 1..];
      OverlayBoth(plane.tx.value.backends, ServiceEntries(services[i]), HttpEntries(services[i + 1..]));
      ok := EnsureService(plane, services[i]);
      if !ok { return; }
    }
    assert services[|services|..] == [];
    ok := true;
  }

  method EnsureTcpTarget(plane: DataPlane, p: T.Proxy, name: string, release: string, slot: M.Slot) returns (ok: bool)
    requires plane.tx.Some?
    modifies plane`tx, plane`calls
    ensures plane.tx.Some? && plane.tx.value.frontends == old(plane.tx.value.frontends)
    ensures ok ==> plane.tx.value.backends == Overlay(old(plane.tx.value.backends), TcpEntry(p, name, release, slot))
    ensures plane.Reliable() ==> ok
  {
    if name == "" || release == "" { return true; }
    var server := Server(p.serviceKey, release, slot, p.containerPort);
    OverlayOne(plane.tx.value.backends, name, TcpBackend(p, map["srv" := server]));
    ok := EnsureTarget(plane, name, TcpBackend(p, map[]), server);
  }

  method EnsureProxy(plane: DataPlane, p: T.Proxy) returns (ok: bool)
    requires plane.tx.Some?
    modifies plane`tx, plane`calls
    ensures plane.tx.Some?
    ensures ok ==> plane.tx.value.backends == Overlay(old(plane.tx.value.backends), ProxyEntries(p))
    ensures ok ==> plane.tx.value.frontends == old(plane.tx.value.frontends)[p.frontend := Tcp(T.FrontendFor(p))]
    ensures plane.Reliable() ==> ok
  {
    hide TcpEntry, T.FrontendFor;
    ghost var before := plane.tx.value.backends;
    ghost var first := TcpEntry(p, p.live, p.liveRelease, LiveSlot(p.liveSlot));
    ghost var second := TcpEntry(p, p.candidate, p.candidateRelease, CandidateSlot(p.liveSlot));
    OverlayBoth(before, first, second);
    OverlayBoth(before, first + second, [(p.unavailable, TcpBackend(p, map[]))]);
    ok := EnsureTcpTarget(plane, p, p.live, p.liveRelease, LiveSlot(p.liveSlot));
    if !ok { return; }
    ok := EnsureTcpTarget(plane, p, p.candidate, p.candidateRelease, CandidateSlot(p.liveSlot));
    if !ok { return; }
    OverlayOne(plane.tx.value.backends, p.unavailable, TcpBackend(p, map[]));
    ok := plane.EnsureBackend(p.unavailable, TcpBackend(p, map[]));
    if !ok { return; }
    ok := plane.ReplaceFrontend(p.frontend, Tcp(T.FrontendFor(p)));
  }

  lemma TcpFrontendsFrom(proxies: seq<T.Proxy>, i: nat)
    requires i < |proxies|
    ensures TcpFrontends(proxies[i..]) == [(proxies[i].frontend, Tcp(T.FrontendFor(proxies[i])))]
        + TcpFrontends(proxies[i + 1..])
  {
    hide T.FrontendFor;
    assert proxies[i..] == [proxies[i]] + proxies[i + 1..];
  }

  method EnsureProxies(plane: DataPlane, proxies: seq<T.Proxy>) returns (ok: bool)
    requires plane.tx.Some?
    modifies plane`tx, plane`calls
    ensures plane.tx.Some?
    ensures ok ==> plane.tx.value.backends == Overlay(old(plane.tx.value.backends), TcpEntries(proxies))
    ensures ok ==> plane.tx.value.frontends == Overlay(old(plane.tx.value.frontends), TcpFrontends(proxies))
    ensures plane.Reliable() ==> ok
  {
    hide ProxyEntries, T.FrontendFor;
    ghost var backends := Overlay(plane.tx.value.backends, TcpEntries(proxies));
    ghost var frontends := Overlay(plane.tx.value.frontends, TcpFrontends(proxies));
    assert proxies[0..] == proxies;
    for i := 0 to |proxies|
      invariant plane.tx.Some?
      invariant Overlay(plane.tx.value.backends, TcpEntries(proxies[i..])) == backends
      invariant Overlay(plane.tx.value.frontends, TcpFrontends(proxies[i..])) == frontends
    {
      assert proxies[i..][0] == proxies[i] && proxies[i..][1..] == proxies[i + 1..];
      OverlayBoth(plane.tx.value.backends, ProxyEntries(proxies[i]), TcpEntries(proxies[i + 1..]));
      TcpFrontendsFrom(proxies, i);
      var entry := (proxies[i].frontend, Tcp(T.FrontendFor(proxies[i])));
      OverlayBoth(plane.tx.value.frontends, [entry], TcpFrontends(proxies[i + 1..]));
      OverlayOne(plane.tx.value.frontends, entry.0, entry.1);
      ok := EnsureProxy(plane, proxies[i]);
      if !ok { return; }
    }
    assert proxies[|proxies|..] == [];
    ok := true;
  }

  method DeleteStaleFrontends(plane: DataPlane, proxies: seq<T.Proxy>) returns (ok: bool)
    requires plane.tx.Some?
    modifies plane`tx, plane`calls
    ensures plane.tx.Some? && plane.tx.value.backends == old(plane.tx.value.backends)
    ensures ok ==> plane.tx.value.frontends == LessStale(old(plane.tx.value.frontends), plane.config.frontends.Keys,
        proxies)
    ensures plane.Reliable() ==> ok
  {
    hide StaleFrontend;
    var listed := plane.ListFrontends();
    if listed.None? { return false; }
    var names := listed.value;
    for i := 0 to |names|
      invariant plane.tx.Some? && plane.tx.value.backends == old(plane.tx.value.backends)
      invariant plane.tx.value.frontends == LessStale(old(plane.tx.value.frontends), (set n | n in names[..i]), proxies)
    {
      assert names[..i + 1] == names[..i] + [names[i]];
      if !StaleFrontend(proxies, names[i]) { continue; }
      ok := plane.DeleteFrontend(names[i]);
      if !ok { return; }
    }
    assert names[..|names|] == names;
    ok := true;
  }

  method DeleteStaleBackends(plane: DataPlane, services: seq<R.Service>, proxies: seq<T.Proxy>) returns (ok: bool)
    requires plane.tx.Some?
    modifies plane`tx, plane`calls
    ensures plane.tx.Some? && plane.tx.value.frontends == old(plane.tx.value.frontends)
    ensures ok ==> plane.tx.value.backends == LessUnwanted(old(plane.tx.value.backends), plane.config.backends.Keys,
        services, proxies)
    ensures plane.Reliable() ==> ok
  {
    hide WantedBackend;
    var listed := plane.ListBackends();
    if listed.None? { return false; }
    var names := listed.value;
    for i := 0 to |names|
      invariant plane.tx.Some? && plane.tx.value.frontends == old(plane.tx.value.frontends)
      invariant plane.tx.value.backends == LessUnwanted(old(plane.tx.value.backends), (set n | n in names[..i]),
          services, proxies)
    {
      assert names[..i + 1] == names[..i] + [names[i]];
      if WantedBackend(services, proxies, names[i]) { continue; }
      ok := plane.DeleteBackend(names[i]);
      if !ok { return; }
    }
    assert names[..|names|] == names;
    ok := true;
  }

  // Everything between opening and committing the transaction.
  method Prepare(plane: DataPlane, services: seq<R.Service>, proxies: seq<T.Proxy>, section: R.Section)
      returns (ok: bool)
    requires plane.tx == Some(plane.config)
    modifies plane`tx, plane`calls
    ensures plane.tx.Some?
    ensures ok ==> plane.tx == Some(Target(plane.config, services, proxies, section))
    ensures plane.Reliable() ==> ok
  {
    hide HttpEntries, TcpEntries, TcpFrontends, WantedBackend, StaleFrontend;
    var c := plane.config;
    OverlayBoth(c.backends, HttpEntries(services), TcpEntries(proxies));
    OverlayBoth(c.backends, HttpEntries(services) + TcpEntries(proxies), [NORMALIZE_ENTRY]);
    ok := EnsureServices(plane, services);
    if !ok { return; }
    ok := EnsureProxies(plane, proxies);
    if !ok { return; }
    OverlayOne(plane.tx.value.backends, NORMALIZE_ENTRY.0, NORMALIZE_ENTRY.1);
    ok := plane.EnsureBackend(NORMALIZE_ENTRY.0, NORMALIZE_ENTRY.1);
    if !ok { return; }
    ok := plane.ReplaceFrontend(SHARED_FRONTEND, SharedFrontend(section));
    if !ok { return; }
    assert plane.tx.value == Ensured(c, services, proxies, section);
    hide Ensured;
    ok := DeleteStaleFrontends(plane, proxies);
    if !ok { return; }
    ok := DeleteStaleBackends(plane, services, proxies);
  }

  // A section and a list of TCP proxies the compilers may produce for a snapshot.
  ghost predicate CompiledFrom(services: seq<R.Service>, proxies: seq<T.Proxy>, section: R.Section) {
    && (exists order ::
          multiset(order) == multiset(services) && SortedBy(order, R.Before) && section == R.Compiled(order))
    && multiset(proxies) == multiset(T.AllProxies(services)) && SortedBy(proxies, T.ByPort)
  }

  // The configuration a reconcile of these services may commit.
  ghost predicate Reconciled(before: Config, after: Config, services: seq<R.Service>) {
    exists proxies, section :: CompiledFrom(services, proxies, section)
        && after == Target(before, services, proxies, section)
  }

  // A reconcile commits the whole target or leaves the committed configuration as it was. It does
  // the former if it reports success, and the latter if it reports failure, unless the answer to
  // the commit was lost.
  method Reconcile(plane: DataPlane, services: seq<R.Service>) returns (ok: bool)
    modifies plane
    ensures Reconciled(old(plane.config), plane.config, services) || (!ok && plane.config == old(plane.config))
    ensures !ok && plane.AnswersArrive() ==> plane.config == old(plane.config)
    ensures plane.Reliable() ==> ok
  {
    hide Target, R.Compiled, R.Before, R.Evaluate, R.Routes;
    ok := plane.Request();
    if !ok { return; }
    ok := plane.StartTransaction();
    if !ok { return; }
    var section := RouterCorrect.FrontendSection(services);
    var proxies := T.BuildTcpProxyConfigs(services);
    assert CompiledFrom(services, proxies, section);
    ok := Prepare(plane, services, proxies, section);
    assert ok ==> Reconciled(plane.config, plane.tx.value, services);
    if ok { ok := plane.CommitTransaction(); }
    if !ok { plane.AbortTransaction(); }
  }
}
