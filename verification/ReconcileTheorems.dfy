/** What a committed reconcile leaves behind. */
module ReconcileTheorems {
  import opened Wrappers
  import opened Text
  import opened RouteNames
  import opened Sorting
  import opened Reconcile
  import R = Router
  import T = TcpRouter

  // ---------------------------------------------------------------- overlays

  // The last entry of a name.
  function LastOf<T>(entries: seq<Entry<T>>, name: string): Option<T>
    decreases |entries|
  {
    if entries == [] then None
    else
      var later := LastOf(entries[1..], name);
      if later.Some? then later else if entries[0].0 == name then Some(entries[0].1) else None
  }

  lemma {:induction false} OverlayAt<T>(m: map<string, T>, entries: seq<Entry<T>>, name: string)
    ensures name in Overlay(m, entries) <==> LastOf(entries, name).Some? || name in m
    ensures LastOf(entries, name).Some? ==> Overlay(m, entries)[name] == LastOf(entries, name).value
    ensures LastOf(entries, name).None? && name in m ==> Overlay(m, entries)[name] == m[name]
    decreases |entries|
  {
    if entries != [] { OverlayAt(m[entries[0].0 := entries[0].1], entries[1..], name); }
  }

  lemma {:induction false} LastIsEntry<T>(entries: seq<Entry<T>>, name: string)
    ensures LastOf(entries, name).Some? <==> exists e | e in entries :: e.0 == name
    ensures LastOf(entries, name).Some? ==> (name, LastOf(entries, name).value) in entries
    decreases |entries|
  {
    if entries != [] { LastIsEntry(entries[1..], name); }
  }

  // ---------------------------------------------------------------- names of the entries

  ghost predicate Ensures(services: seq<R.Service>, proxies: seq<T.Proxy>, name: string) {
    exists e | e in BackendEntries(services, proxies) :: e.0 == name
  }

  lemma ServiceEntryNames(s: R.Service, name: string)
    ensures (exists e | e in ServiceEntries(s) :: e.0 == name) <==>
        name != "" && (name == s.Live() || name == s.Candidate())
  {
    hide Trim, R.Clamp;
    var live := (s.Live(), HttpBackend(s, s.LiveRelease(), LiveSlot(s.liveSlot)));
    var candidate := (s.Candidate(), HttpBackend(s, s.CandidateRelease(), CandidateSlot(s.liveSlot)));
    assert s.Live() != "" ==> live in ServiceEntries(s);
    assert s.Candidate() != "" ==> candidate in ServiceEntries(s);
    assert forall e | e in ServiceEntries(s) ::
        (e == live && s.Live() != "") || (e == candidate && s.Candidate() != "");
  }

  lemma {:induction false} HttpEntryNames(services: seq<R.Service>, name: string)
    ensures (exists e | e in HttpEntries(services) :: e.0 == name) <==>
            name != "" && exists s | s in services :: name == s.Live() || name == s.Candidate()
  {
    hide Trim, ServiceEntries;
    if services != [] {
      ServiceEntryNames(services[0], name);
      HttpEntryNames(services[1..], name);
    }
  }

  // A TCP backend is named only with its release.
  predicate Agrees(p: T.Proxy) {
    (p.live != "" ==> p.liveRelease != "") && (p.candidate != "" ==> p.candidateRelease != "")
  }

  predicate AllAgree(proxies: seq<T.Proxy>) {
    forall p | p in proxies :: Agrees(p)
  }

  lemma ProxyEntryNames(p: T.Proxy, name: string)
    requires Agrees(p)
    ensures (exists e | e in ProxyEntries(p) :: e.0 == name) <==>
            name == p.unavailable || (name != "" && (name == p.live || name == p.candidate))
  {
    var live := TcpEntry(p, p.live, p.liveRelease, LiveSlot(p.liveSlot));
    var candidate := TcpEntry(p, p.candidate, p.candidateRelease, CandidateSlot(p.liveSlot));
    var last := (p.unavailable, TcpBackend(p, map[]));
    assert last in ProxyEntries(p);
    assert forall e :: e in ProxyEntries(p) <==> e in live || e in candidate || e == last;
    assert p.live != "" ==> live[0] in live;
    assert p.candidate != "" ==> candidate[0] in candidate;
  }

  lemma {:induction false} TcpEntryNames(proxies: seq<T.Proxy>, name: string)
    requires AllAgree(proxies)
    ensures (exists e | e in TcpEntries(proxies) :: e.0 == name) <==>
            exists p | p in proxies :: name == p.unavailable || (name != "" && (name == p.live || name == p.candidate))
  {
    hide ProxyEntries;
    if proxies != [] {
      ProxyEntryNames(proxies[0], name);
      TcpEntryNames(proxies[1..], name);
    }
  }

  // Every wanted backend is ensured, except the default one, which the bootstrap provides.
  lemma EntryNames(services: seq<R.Service>, proxies: seq<T.Proxy>, name: string)
    requires AllAgree(proxies)
    ensures Ensures(services, proxies, name) ==> WantedBackend(services, proxies, name)
    ensures WantedBackend(services, proxies, name) ==> Ensures(services, proxies, name) || name == DEFAULT_BACKEND
  {
    hide Trim, HttpEntries, TcpEntries, AllAgree;
    HttpEntryNames(services, name);
    TcpEntryNames(proxies, name);
    var all := BackendEntries(services, proxies);
    assert NORMALIZE_ENTRY in all;
    assert forall e :: e in all <==> e in HttpEntries(services) || e in TcpEntries(proxies) || e == NORMALIZE_ENTRY;
  }

  // ---------------------------------------------------------------- backends

  // If the default backend is there, exactly the wanted backends remain.
  lemma BackendsAreExact(c: Config, services: seq<R.Service>, proxies: seq<T.Proxy>, section: R.Section, name: string)
    requires AllAgree(proxies) && DEFAULT_BACKEND in c.backends
    ensures name in Target(c, services, proxies, section).backends <==> WantedBackend(services, proxies, name)
  {
    hide WantedBackend, BackendEntries, AllAgree, Overlay;
    EntryNames(services, proxies, name);
    OverlayAt(c.backends, BackendEntries(services, proxies), name);
    LastIsEntry(BackendEntries(services, proxies), name);
  }

  // A backend ensured under a name of its own is committed as it was wanted.
  lemma BackendContent(
    c: Config, services: seq<R.Service>, proxies: seq<T.Proxy>, section: R.Section, e: Entry<Backend>)
    requires AllAgree(proxies) && e in BackendEntries(services, proxies)
    requires forall other | other in BackendEntries(services, proxies) && other.0 == e.0 :: other == e
    ensures var t := Target(c, services, proxies, section); e.0 in t.backends && t.backends[e.0] == e.1
  {
    hide WantedBackend, BackendEntries, AllAgree, Overlay;
    EntryNames(services, proxies, e.0);
    OverlayAt(c.backends, BackendEntries(services, proxies), e.0);
    LastIsEntry(BackendEntries(services, proxies), e.0);
  }

  // ---------------------------------------------------------------- frontends

  lemma TcpFrontendNames(proxies: seq<T.Proxy>, name: string)
    ensures LastOf(TcpFrontends(proxies), name).Some? <==> exists p | p in proxies :: p.frontend == name
    ensures LastOf(TcpFrontends(proxies), name).Some? ==>
      exists p | p in proxies :: p.frontend == name
          && LastOf(TcpFrontends(proxies), name).value == Tcp(T.FrontendFor(p))
  {
    hide T.FrontendFor, LastOf;
    var all := TcpFrontends(proxies);
    LastIsEntry(all, name);
    forall p | p in proxies ensures (p.frontend, Tcp(T.FrontendFor(p))) in all {
      var i :| 0 <= i < |proxies| && proxies[i] == p;
      assert all[i] == (p.frontend, Tcp(T.FrontendFor(p)));
    }
    forall e | e in all ensures exists p | p in proxies :: e == (p.frontend, Tcp(T.FrontendFor(p))) {
      var i :| 0 <= i < |all| && all[i] == e;
      assert e == (proxies[i].frontend, Tcp(T.FrontendFor(proxies[i])));
    }
  }

  lemma SharedIsNotManaged()
    ensures !Managed(SHARED_FRONTEND)
  {
    TrimmedEnds(SHARED_FRONTEND);
    assert SHARED_FRONTEND[3] != "ep_tcp_"[3];
  }

  // Exactly the wanted managed frontends remain, the shared one is the compiled one, and every
  // other frontend is as it was.
  lemma FrontendsAreExact(c: Config, services: seq<R.Service>, proxies: seq<T.Proxy>, section: R.Section, name: string)
    requires forall p | p in proxies :: Managed(p.frontend)
    ensures var t := Target(c, services, proxies, section).frontends;
      && (Managed(name) ==> (name in t <==> exists p | p in proxies :: p.frontend == name))
      && (Managed(name) && name in t ==>
          exists p | p in proxies :: p.frontend == name && t[name] == Tcp(T.FrontendFor(p)))
      && SHARED_FRONTEND in t && t[SHARED_FRONTEND] == SharedFrontend(section)
      && (!Managed(name) && name != SHARED_FRONTEND ==>
            (name in t <==> name in c.frontends) && (name in t ==> t[name] == c.frontends[name]))
  {
    hide T.FrontendFor, Managed, TcpFrontends, Overlay, LastOf;
    SharedIsNotManaged();
    TcpFrontendNames(proxies, name);
    OverlayAt(c.frontends, TcpFrontends(proxies), name);
  }

  lemma ManagedIs(name: string)
    ensures Managed(name) <==> "ep_tcp_" <= Trim(name)
  {
  }

  lemma ListenPortsManaged(services: seq<R.Service>, p: T.Proxy)
    requires p in T.AllProxies(services)
    ensures p.frontend == "ep_tcp_" + Itoa(p.listenPort) && Managed(p.frontend)
  {
    T.AllProxiesAre(services, p);
    var x :| x in services && p in T.ProxiesOf(x, x.tcpPorts);
    hide T.AllProxies;
    T.ProxiesAre(x, x.tcpPorts, p);
    hide T.ProxiesOf, Itoa, Trim, R.Clamp;
    ItoaTrimmed("ep_tcp_", p.listenPort);
  }

  lemma ItoaTrimmed(head: string, n: nat)
    requires head != "" && !IsSpace(head[0])
    ensures Trim(head + Itoa(n)) == head + Itoa(n)
  {
    var text := Itoa(n);
    assert text[|text| - 1] in text;
    assert (head + text)[|head + text| - 1] == text[|text| - 1];
    hide Itoa;
    TrimmedEnds(head + text);
  }

  // The service list wants a TCP frontend for this port.
  predicate Listens(services: seq<R.Service>, port: int) {
    port > 0 && exists x, q | x in services && q in x.tcpPorts :: q.listenPort == port && q.containerPort > 0
  }

  lemma ListensIs(services: seq<R.Service>, port: nat)
    ensures Listens(services, port) <==> exists p | p in T.AllProxies(services) :: p.listenPort == port
  {
    hide T.AllProxies, T.ProxiesOf;
    if x, q :| x in services && q in x.tcpPorts && q.listenPort == port && q.containerPort > 0 && port > 0 {
      T.ProxiesAre(x, x.tcpPorts, T.ProxyOf(x, q));
      T.AllProxiesAre(services, T.ProxyOf(x, q));
      assert T.ProxyOf(x, q).listenPort == port;
    }
    if p :| p in T.AllProxies(services) && p.listenPort == port {
      T.AllProxiesAre(services, p);
      var x :| x in services && p in T.ProxiesOf(x, x.tcpPorts);
      T.ProxiesAre(x, x.tcpPorts, p);
    }
  }

  // Whatever was committed before: the shared frontend listens on port 80 and ends at the default
  // backend, each port wanted has its frontend and no other port keeps one, and a frontend of any
  // other name is left exactly as it was.
  lemma FrontendsByName(before: Config, after: Config, services: seq<R.Service>)
    requires Reconciled(before, after, services)
    ensures "ep_http" in after.frontends && after.frontends["ep_http"].Http?
            && after.frontends["ep_http"].bindPort == 80 && after.frontends["ep_http"].defaultBackend == "ep_default"
    ensures forall name | "ep_tcp_" <= Trim(name) ::
              name in after.frontends <==> exists port: nat :: name == "ep_tcp_" + Itoa(port) && Listens(services, port)
    ensures forall name | name != "ep_http" && !("ep_tcp_" <= Trim(name)) ::
              (name in after.frontends <==> name in before.frontends)
              && (name in after.frontends ==> after.frontends[name] == before.frontends[name])
  {
    hide T.AllProxies, Target, R.Compiled, SortedBy, Trim, Itoa, Listens, Managed, T.FrontendFor;
    var proxies, section :| CompiledFrom(services, proxies, section)
        && after == Target(before, services, proxies, section);
    forall p: T.Proxy | p in proxies ensures Managed(p.frontend) && p.frontend == "ep_tcp_" + Itoa(p.listenPort) {
      SameElements(proxies, T.AllProxies(services), p);
      ListenPortsManaged(services, p);
    }
    FrontendsAreExact(before, services, proxies, section, "ep_http");
    forall name | "ep_tcp_" <= Trim(name)
      ensures name in after.frontends <==>
                exists port: nat :: name == "ep_tcp_" + Itoa(port) && Listens(services, port)
    {
      FrontendOfPort(before, services, proxies, section, name);
    }
    forall name | name != "ep_http" && !("ep_tcp_" <= Trim(name))
      ensures name in after.frontends <==> name in before.frontends
      ensures name in after.frontends ==> after.frontends[name] == before.frontends[name]
    {
      ManagedIs(name);
      FrontendsAreExact(before, services, proxies, section, name);
    }
  }

  lemma FrontendOfPort(
    before: Config, services: seq<R.Service>, proxies: seq<T.Proxy>, section: R.Section, name: string)
    requires multiset(proxies) == multiset(T.AllProxies(services)) && "ep_tcp_" <= Trim(name)
    requires forall p | p in proxies :: Managed(p.frontend) && p.frontend == "ep_tcp_" + Itoa(p.listenPort)
    ensures name in Target(before, services, proxies, section).frontends <==>
              exists port: nat :: name == "ep_tcp_" + Itoa(port) && Listens(services, port)
  {
    hide T.AllProxies, Target, Trim, Itoa, Listens, T.FrontendFor;
    ManagedIs(name);
    FrontendsAreExact(before, services, proxies, section, name);
    forall p: T.Proxy ensures p in proxies <==> p in T.AllProxies(services) {
      if p in proxies || p in T.AllProxies(services) { SameElements(proxies, T.AllProxies(services), p); }
    }
    if p :| p in proxies && p.frontend == name {
      ListensIs(services, p.listenPort);
      assert name == "ep_tcp_" + Itoa(p.listenPort);
    }
    if port: nat :| name == "ep_tcp_" + Itoa(port) && Listens(services, port) {
      ListensIs(services, port);
      var p :| p in T.AllProxies(services) && p.listenPort == port;
      assert p.frontend == name;
    }
  }

  // ---------------------------------------------------------------- every backend named exists

  lemma {:induction false} RuleBackends(services: seq<R.Service>, r: R.Rule)
    requires r in R.RulesOf(services)
    ensures r.backend == NORMALIZE_BACKEND
            || (r.backend != "" && exists s | s in services :: r.backend == s.Live() || r.backend == s.Candidate())
  {
    hide R.ServiceRules, Trim;
    if r in R.ServiceRules(services[0]) {
      ServiceRuleBackends(services[0], r);
    } else {
      RuleBackends(services[1..], r);
    }
  }

  lemma ServiceRuleBackends(s: R.Service, r: R.Rule)
    requires r in R.ServiceRules(s)
    ensures r.backend == NORMALIZE_BACKEND || (r.backend != "" && (r.backend == s.Live() || r.backend == s.Candidate()))
  {
    hide Trim, R.Clamp, R.Base, R.NoQuery, R.NoOverride, R.If, R.Unless, R.RuleFor;
    forall backend, test | r in R.RuleFor(backend, test) ensures r.backend == backend && backend != "" {
      RuleForBackend(backend, test, r);
    }
  }

  lemma RuleForBackend(backend: string, test: seq<R.Literal>, r: R.Rule)
    requires r in R.RuleFor(backend, test)
    ensures r.backend == backend && backend != ""
  {
  }

  lemma SharedNamesWanted(services: seq<R.Service>, proxies: seq<T.Proxy>, order: seq<R.Service>, b: string)
    requires multiset(order) == multiset(services) && SharedFrontend(R.Compiled(order)).Names(b)
    ensures WantedBackend(services, proxies, b)
  {
    hide Trim, R.RulesOf, R.AclsOf;
    if b != DEFAULT_BACKEND {
      var r :| r in R.RulesOf(order) && r.backend == b;
      RuleBackends(order, r);
      if b != NORMALIZE_BACKEND {
        var s :| s in order && (b == s.Live() || b == s.Candidate());
        SameElements(order, services, s);
      }
    }
  }

  lemma TcpNamesWanted(services: seq<R.Service>, proxies: seq<T.Proxy>, p: T.Proxy, b: string)
    requires p in proxies && Tcp(T.FrontendFor(p)).Names(b)
    ensures WantedBackend(services, proxies, b)
  {
    hide Trim, R.Clamp;
  }

  // Every backend named by a wanted frontend is committed. A frontend of somebody else's keeps
  // its backends exactly when the snapshot wants them too.
  lemma NamedBackendsExist(
    c: Config, services: seq<R.Service>, proxies: seq<T.Proxy>, section: R.Section, name: string, b: string)
    requires CompiledFrom(services, proxies, section) && AllAgree(proxies) && DEFAULT_BACKEND in c.backends
    requires forall p | p in proxies :: Managed(p.frontend)
    requires var t := Target(c, services, proxies, section); name in t.frontends && t.frontends[name].Names(b)
    ensures var t := Target(c, services, proxies, section);
      b in t.backends <==> (Managed(name) || name == SHARED_FRONTEND || WantedBackend(services, proxies, b))
  {
    hide Target, Managed, WantedBackend, R.Compiled, T.FrontendFor, AllAgree;
    BackendsAreExact(c, services, proxies, section, b);
    FrontendsAreExact(c, services, proxies, section, name);
    if name == SHARED_FRONTEND {
      var order :| multiset(order) == multiset(services) && section == R.Compiled(order);
      SharedNamesWanted(services, proxies, order, b);
    } else if Managed(name) {
      var p :| p in proxies && p.frontend == name
        && Target(c, services, proxies, section).frontends[name] == Tcp(T.FrontendFor(p));
      TcpNamesWanted(services, proxies, p, b);
    }
  }

  // ---------------------------------------------------------------- once is enough

  lemma TargetBackendsTwice(c: Config, services: seq<R.Service>, proxies: seq<T.Proxy>, section: R.Section)
    requires AllAgree(proxies)
    ensures var t := Target(c, services, proxies, section); Target(t, services, proxies, section).backends == t.backends
  {
    hide WantedBackend, BackendEntries, AllAgree, Overlay;
    var t := Target(c, services, proxies, section);
    var t' := Target(t, services, proxies, section);
    forall name
      ensures name in t'.backends <==> name in t.backends
      ensures name in t.backends && name in t'.backends ==> t'.backends[name] == t.backends[name]
    {
      EntryNames(services, proxies, name);
      OverlayAt(c.backends, BackendEntries(services, proxies), name);
      OverlayAt(t.backends, BackendEntries(services, proxies), name);
      LastIsEntry(BackendEntries(services, proxies), name);
    }
    hide Target;
    assert t'.backends == t.backends;
  }

  lemma TargetFrontendsTwice(c: Config, services: seq<R.Service>, proxies: seq<T.Proxy>, section: R.Section)
    ensures var t := Target(c, services, proxies, section);
      Target(t, services, proxies, section).frontends == t.frontends
  {
    hide T.FrontendFor, Managed, TcpFrontends, Overlay;
    var t := Target(c, services, proxies, section);
    var t' := Target(t, services, proxies, section);
    forall name
      ensures name in t'.frontends <==> name in t.frontends
      ensures name in t.frontends && name in t'.frontends ==> t'.frontends[name] == t.frontends[name]
    {
      TcpFrontendNames(proxies, name);
      OverlayAt(c.frontends, TcpFrontends(proxies), name);
      OverlayAt(t.frontends, TcpFrontends(proxies), name);
    }
    hide Target;
    assert t'.frontends == t.frontends;
  }

  predicate DistinctKeys(services: seq<R.Service>) {
    forall i, j | 0 <= i < j < |services| :: services[i].key != services[j].key
  }

  lemma KeysTellApart(services: seq<R.Service>, order: seq<R.Service>)
    requires DistinctKeys(services) && multiset(order) == multiset(services)
    ensures TellsApart(order, R.Before)
  {
    hide R.HostKey;
    forall x, y | x in order && y in order && R.Before(x, y) && R.Before(y, x) ensures x == y {
      LexTotal(x.key, y.key);
      LexTotal(R.HostKey(x), R.HostKey(y));
      SameElements(order, services, x);
      SameElements(order, services, y);
      var i :| 0 <= i < |services| && services[i] == x;
      var j :| 0 <= j < |services| && services[j] == y;
      assert x.key == y.key;
    }
  }

  // With distinct keys and listen ports a snapshot compiles to one section and one list of proxies.
  lemma CompiledOnce(
    services: seq<R.Service>, p1: seq<T.Proxy>, s1: R.Section, p2: seq<T.Proxy>, s2: R.Section)
    requires DistinctKeys(services) && T.ExclusiveListens(services)
    requires CompiledFrom(services, p1, s1) && CompiledFrom(services, p2, s2)
    ensures p1 == p2 && s1 == s2
  {
    hide R.Compiled, R.Before, T.AllProxies, T.ExclusiveListens;
    var o1 :| multiset(o1) == multiset(services) && SortedBy(o1, R.Before) && s1 == R.Compiled(o1);
    var o2 :| multiset(o2) == multiset(services) && SortedBy(o2, R.Before) && s2 == R.Compiled(o2);
    KeysTellApart(services, o1);
    SortedOnce(o1, o2, R.Before);
    T.AllDistinct(services);
    PortsTellApart(T.AllProxies(services), p1);
    SortedOnce(p1, p2, T.ByPort);
  }

  lemma PortsTellApart(all: seq<T.Proxy>, order: seq<T.Proxy>)
    requires T.DistinctPorts(all) && multiset(order) == multiset(all)
    ensures TellsApart(order, T.ByPort)
  {
    forall x, y | x in order && y in order && T.ByPort(x, y) && T.ByPort(y, x) ensures x == y {
      SameElements(order, all, x);
      SameElements(order, all, y);
      var i :| 0 <= i < |all| && all[i] == x;
      var j :| 0 <= j < |all| && all[j] == y;
    }
  }

  // Reconciling a snapshot again changes nothing.
  lemma RepeatingChangesNothing(
    c: Config, services: seq<R.Service>, p1: seq<T.Proxy>, s1: R.Section, p2: seq<T.Proxy>, s2: R.Section)
    requires DistinctKeys(services) && T.ExclusiveListens(services) && AllAgree(p1)
    requires CompiledFrom(services, p1, s1) && CompiledFrom(services, p2, s2)
    ensures Target(Target(c, services, p1, s1), services, p2, s2) == Target(c, services, p1, s1)
  {
    hide Target, CompiledFrom, DistinctKeys, T.ExclusiveListens, AllAgree;
    CompiledOnce(services, p1, s1, p2, s2);
    TargetBackendsTwice(c, services, p1, s1);
    TargetFrontendsTwice(c, services, p1, s1);
  }
}
