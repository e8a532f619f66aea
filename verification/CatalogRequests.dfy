/** What the catalog accepts and stores, in terms of the request: numbers, letters and texts as they
    were sent. */
module CatalogRequests {
  import opened Wrappers
  import opened Text
  import opened RouteNames
  import opened Catalog

  predicate KeyLetter(c: char) {
    c in SMALL || c in "0123456789" || c == '-'
  }

  // Lower-case letters, digits and inner dashes, 24 of them at most.
  predicate KeyText(key: string) {
    && 1 <= |key| <= 24 && key[0] != '-' && key[|key| - 1] != '-'
    && forall c | c in key :: KeyLetter(c)
  }

  lemma {:induction false} KeyCharIs(c: char)
    ensures KeyChar(c) <==> KeyLetter(c)
  {
    SmallAre(c);
    if '0' <= c <= '9' { assert "0123456789"[c as int - '0' as int] == c; }
  }

  lemma ValidKeyIs(key: string)
    ensures ValidKey(key) <==> KeyText(key)
  {
    forall c | c in key ensures KeyChar(c) <==> KeyLetter(c) { KeyCharIs(c); }
    hide KeyChar;
  }

  // Neither control characters nor blanks, semicolons, question marks or hashes.
  predicate PathText(path: string) {
    forall c | c in path :: c as int > 31 && c as int != 127 && c !in " ;?#"
  }

  // A host that a request names is the text without blanks around it, in small letters.
  predicate Names(q: Request, host: string) {
    host != "" && exists v | v in [q.routeHost] + q.routeHosts :: host == Lower(Trim(v))
  }

  lemma HostsAre(primary: string, hosts: seq<string>, q: Request, host: string)
    requires primary == NormalizeRouteHost(q.routeHost) && hosts == Hosts(primary, q.routeHosts)
    ensures host in hosts <==> Names(q, host)
  {
    AddedMeaning([], [primary] + q.routeHosts, host);
    NormalizeHostTwice(q.routeHost);
    if host != "" && host in hosts {
      var v :| v in [primary] + q.routeHosts && NormalizeRouteHost(v) == host;
      assert host == Lower(Trim(if v == primary then q.routeHost else v));
    }
    if Names(q, host) {
      var v :| v in [q.routeHost] + q.routeHosts && host == Lower(Trim(v));
      assert NormalizeRouteHost(if v == q.routeHost then primary else v) == host;
    }
    hide Trim, Lower;
  }

  lemma SomeHost(q: Request)
    ensures Hosts(NormalizeRouteHost(q.routeHost), q.routeHosts) != [] <==> exists host :: Names(q, host)
  {
    hide Names, Hosts, NormalizeRouteHost;
    var hosts := Hosts(NormalizeRouteHost(q.routeHost), q.routeHosts);
    forall host ensures host in hosts <==> Names(q, host) { HostsAre(NormalizeRouteHost(q.routeHost), hosts, q, host); }
    if hosts != [] { assert hosts[0] in hosts; }
  }

  // What a request must be by itself.
  lemma BuildAccepts(q: Request)
    ensures Build(q).Ok? <==>
      && KeyText(Trim(q.key)) && 1 <= q.containerPort <= 65535
      && (exists host :: Names(q, host))
      && PathText(NormalizeRoutePathPrefix(q.prefix))
  {
    ValidKeyIs(Trim(q.key));
    SomeHost(q);
    hide ValidKey, KeyText, Hosts, Names, NormalizeRoutePathPrefix, NormalizeRouteHost, Trim;
  }

  // A service as a request asks for it. Its prefix starts at the root and has no slash at its end;
  // a listen port without a timeout gets an hour, and a service is enabled unless asked not to be.
  ghost predicate AsRequested(q: Request, s: Service) {
    && s.key == Trim(q.key) && s.agent == q.agent && s.containerPort == q.containerPort
    && s.prefix == NormalizeRoutePathPrefix(q.prefix)
    && (forall host :: host in HostsOf(s) <==> Names(q, host))
    && s.published == q.published
    && |s.tcp| == |q.tcp|
    && (forall i | 0 <= i < |q.tcp| ::
          && s.tcp[i].listenPort == q.tcp[i].listenPort && s.tcp[i].containerPort == q.tcp[i].containerPort
          && s.tcp[i].idleTimeoutSecond == if q.tcp[i].idleTimeoutSecond == 0 then 3600 else q.tcp[i].idleTimeoutSecond)
    && (!s.enabled <==> q.enabled == Some(false))
  }

  lemma BuiltAsRequested(q: Request)
    requires Build(q).Ok?
    ensures AsRequested(q, Build(q).value)
  {
    var s := Build(q).value;
    var primary := NormalizeRouteHost(q.routeHost);
    var hosts := Hosts(primary, q.routeHosts);
    NormalizeHostTwice(q.routeHost);
    forall host ensures host in HostsOf(s) <==> Names(q, host) {
      HostsAre(primary, hosts, q, host);
      StoredHosts(primary, q.routeHosts, host);
    }
    hide Names, Hosts, HostsOf, NormalizeRoutePathPrefix, NormalizeRouteHost, Trim, CleanPrefix, ValidKey;
  }

  lemma StoredHosts(primary: string, others: seq<string>, host: string)
    requires NormalizeRouteHost(primary) == primary && Hosts(primary, others) != []
    ensures var hosts := Hosts(primary, others);
      host in Hosts(if primary == "" then hosts[0] else primary, hosts) <==> host in hosts
  {
    var hosts := Hosts(primary, others);
    var first := if primary == "" then hosts[0] else primary;
    hide NormalizeRouteHost;
    AddedMeaning([], [first] + hosts, host);
    AddedMeaning([], [primary] + others, host);
    AddedMeaning([], [primary] + others, hosts[0]);
    AddedAreNormal([primary] + others);
    AddedMeaning([], [primary] + others, primary);
  }

  // After an accepted create or update the service is stored as requested, and every other one is
  // as it was.
  lemma StoredAsRequested(rows: Rows, agents: map<string, Agent>, id: Id, q: Request, update: bool)
    ensures var (after, error) := if update then Update(rows, agents, id, q) else Create(rows, agents, id, q);
      if error.None? then
        && id in after && AsRequested(q, after[id])
        && forall other | other != id ::
             (other in after <==> other in rows) && (other in after ==> after[other] == rows[other])
      else after == rows
  {
    if Build(q).Ok? { BuiltAsRequested(q); }
    hide Build, Check, AsRequested, ValidKey, KeyUsed, Trim;
  }

  // ---------------------------------------------------------------- ports in numbers

  // A port of the host that is no port of the proxy's own.
  predicate HostPort(p: int) {
    1 <= p <= 65535 && p != 80 && p != 5555 && p != 19999
  }

  predicate Binds(s: Service, p: int) {
    (exists x | x in s.published :: x.hostPort == p) || (exists x | x in s.tcp :: x.listenPort == p)
  }

  lemma BindsAre(s: Service, p: int)
    ensures p in HostPorts(s) <==> Binds(s, p)
    ensures p in PublishedPorts(s.published) <==> exists x | x in s.published :: x.hostPort == p
    ensures p in ListenPorts(s.tcp) <==> exists x | x in s.tcp :: x.listenPort == p
  {
    if x :| x in s.published && x.hostPort == p {
      var i :| 0 <= i < |s.published| && s.published[i] == x;
      assert PublishedPorts(s.published)[i] == p;
    }
    if x :| x in s.tcp && x.listenPort == p {
      var i :| 0 <= i < |s.tcp| && s.tcp[i] == x;
      assert ListenPorts(s.tcp)[i] == p;
    }
  }

  // A service passes the checks exactly if every port it binds is one of the host's and is bound once,
  // its agent is enabled and, where it binds the ports 20000 to 20099 in advance, has those bound and
  // no published one; and no other service of that agent binds a port of it, or serves its prefix on
  // one of its hosts.
  lemma AcceptedInNumbers(rows: Rows, agents: map<string, Agent>, s: Service, self: Id)
    requires Inv(rows)
    ensures Check(rows, agents, s, self).None? <==>
      && (forall p | Binds(s, p) :: HostPort(p))
      && (forall i, j | 0 <= i < j < |HostPorts(s)| :: HostPorts(s)[i] != HostPorts(s)[j])
      && (forall x | x in s.published :: 1 <= x.containerPort <= 65535)
      && (forall x | x in s.tcp :: 1 <= x.containerPort <= 65535 && x.idleTimeoutSecond >= 1)
      && s.agent in agents && agents[s.agent].enabled
      && (agents[s.agent].tcpPrebind ==>
            && (forall x | x in s.published :: x.hostPort !in agents[s.agent].prebound)
            && (forall x | x in s.tcp && 20000 <= x.listenPort <= 20099 :: x.listenPort in agents[s.agent].prebound))
      && HostsOf(s) != []
      && (forall id | id in rows && id != self && rows[id].agent == s.agent ::
            && (forall p :: !(Binds(rows[id], p) && Binds(s, p)))
            && (rows[id].prefix == s.prefix ==> forall h | h in HostsOf(rows[id]) :: h !in HostsOf(s)))
  {
    AcceptedExactly(rows, agents, s, self);
    forall p ensures p in HostPorts(s) <==> Binds(s, p) { BindsAre(s, p); }
    PortsFit(s, if s.agent in agents then agents[s.agent] else Agent(false, false, {}));
    forall id | id in rows ensures SharesPort(rows[id], s) <==> exists p :: Binds(rows[id], p) && Binds(s, p) {
      BoundTwice(rows[id], s);
    }
    forall id | id in rows ensures NormalizeRoutePathPrefix(rows[id].prefix) == rows[id].prefix {
      assert ServiceOk(rows[id]);
      PrefixNormalForm(rows[id].prefix);
    }
    hide Check, HostsOf, HostPorts, Binds, SharesPort, NormalizeRoutePathPrefix, FitsAgent, Inv;
  }

  lemma PortsFit(s: Service, agent: Agent)
    ensures FitsAgent(agent, s) <==> (agent.tcpPrebind ==>
      && (forall x | x in s.published :: x.hostPort !in agent.prebound)
      && (forall x | x in s.tcp && 20000 <= x.listenPort <= 20099 :: x.listenPort in agent.prebound))
  {
    forall x | x in s.published ensures x.hostPort in PublishedPorts(s.published) { BindsAre(s, x.hostPort); }
    forall x | x in s.tcp ensures x.listenPort in ListenPorts(s.tcp) { BindsAre(s, x.listenPort); }
  }

  lemma BoundTwice(a: Service, b: Service)
    ensures SharesPort(a, b) <==> exists p :: Binds(a, p) && Binds(b, p)
  {
    forall p ensures (p in HostPorts(a) <==> Binds(a, p)) && (p in HostPorts(b) <==> Binds(b, p)) {
      BindsAre(a, p);
      BindsAre(b, p);
    }
    hide HostPorts, Binds;
  }
}
