/** What operators and browsers can rely on: a share asked for is the share sent, and a release asked
    for by name or remembered by a cookie is the one reached. */
module PublishedRoutes {
  import opened Wrappers
  import opened Text
  import opened RouteNames
  import opened ReleaseModel
  import opened ReleaseInvariant
  import opened ReleaseTheorems
  import opened Publisher
  import opened PublishedPath
  import C = Catalog
  import K = Reconcile
  import P = RouterPaths
  import R = Router
  import RouterCorrect
  import RouterTheorems

  // ---------------------------------------------------------------- the share asked for

  // What an accepted shift leaves: the release waits with the percent asked for, or at 100 holds
  // the live slot with nothing waiting beside it.
  lemma ShiftLeaves(s: State, id: Id, p: int, now: Time)
    requires Reachable(s) && id in s.releases && SetTrafficPercent(s, id, p, now).1.Ok?
    ensures var s', service := SetTrafficPercent(s, id, p, now).0, s.releases[id].service;
      && Reachable(s') && 0 <= p <= 100 && LiveSlot(s', service) != NoSlot
      && (p < 100 ==> Waiting(s', id, service) && s'.releases[id].percent == p)
      && (p == 100 ==> Occupant(s', service) == Some(id) && forall c :: !Waiting(s', c, service))
  {
    var s' := SetTrafficPercent(s, id, p, now).0;
    ShiftAccepted(s, id, p, now);
    ReachableOn(s, Shifting(id, p, now));
    ReachableInv(s);
    if p < 100 {
      assert ReleaseOk(s, id);
      PartialShift(s, id, p, now);
    } else {
      ConfirmedShift(s, id, now);
    }
  }

  lemma PartialShift(s: State, id: Id, p: int, now: Time)
    requires Inv(s) && id in s.releases && 0 <= p < 100 && SetTrafficPercent(s, id, p, now).1.Ok?
    ensures var s', service := SetTrafficPercent(s, id, p, now).0, s.releases[id].service;
      LiveSlot(s', service) != NoSlot && Waiting(s', id, service) && s'.releases[id].percent == p
  {
    hide UpdateTrafficFlags, HealthyAt;
    assert ReleaseOk(s, id);
    hide ReleaseOk;
  }

  lemma ConfirmedShift(s: State, id: Id, now: Time)
    requires Reachable(s) && id in s.releases && SetTrafficPercent(s, id, 100, now).1.Ok?
    ensures var s', service := SetTrafficPercent(s, id, 100, now).0, s.releases[id].service;
      LiveSlot(s', service) != NoSlot && Occupant(s', service) == Some(id) && forall c :: !Waiting(s', c, service)
  {
    var s', r := SetTrafficPercent(s, id, 100, now).0, s.releases[id];
    ReachableInv(s);
    assert ReleaseOk(s, id);
    forall c ensures !Waiting(s', c, r.service) {
      if Waiting(s', c, r.service) { OneReleaseAtATime(s, id, c); }
    }
  }

  // Whatever was stored before: once a shift of a release to p percent has been accepted and
  // published, a plain request of its service is sent to it exactly when the draw is below p.
  lemma ShiftIsObeyed(
    rows: C.Rows, s: State, id: Id, p: int, now: Time, ids: seq<Id>, agent: string, services: seq<R.Service>,
    before: K.Config, after: K.Config, req: R.Request, draws: nat -> int, draw: int)
    requires Reachable(s) && id in s.releases && SetTrafficPercent(s, id, p, now).1.Ok?
    requires var s', service := SetTrafficPercent(s, id, p, now).0, s.releases[id].service;
      && Committed(rows, s', ids, agent, services, before, after)
      && Addressed(rows, s', ids, service, req, draws, draw) && Plain(ServiceConfig(rows, s', service), req)
    ensures var s', service := SetTrafficPercent(s, id, p, now).0, s.releases[id].service;
      exists release :: Delivered(rows, s', after, service, req, draws, release) && (release == id <==> draw < p)
  {
    hide SetTrafficPercent, Delivered, Plain, Snapshot, ServiceConfig, Reachable, Occupant, C.Inv, UuidReleases;
    hide R.NoSentinel, RouterTheorems.OneDraw, RouterCorrect.LongestMatch, TextsReadable, K.Reconciled;
    var s', service := SetTrafficPercent(s, id, p, now).0, s.releases[id].service;
    ShiftLeaves(s, id, p, now);
    RequestReachesContainer(rows, s', ids, agent, services, before, after, service, req, draws, draw);
    var release :| Drawn(s', service, draw, release) && Delivered(rows, s', after, service, req, draws, release);
  }

  // And so is a connection to any of its listen ports.
  lemma ShiftIsObeyedByTcp(
    rows: C.Rows, s: State, id: Id, p: int, now: Time, ids: seq<Id>, agent: string, services: seq<R.Service>,
    before: K.Config, after: K.Config, port: C.TcpPort, draw: int)
    requires Reachable(s) && id in s.releases && SetTrafficPercent(s, id, p, now).1.Ok?
    requires Committed(rows, SetTrafficPercent(s, id, p, now).0, ids, agent, services, before, after)
    requires var service := s.releases[id].service;
      service in ids && rows[service].enabled && port in rows[service].tcp && 0 <= draw < 100
    ensures var s', service := SetTrafficPercent(s, id, p, now).0, s.releases[id].service;
      && PortOf(rows, service, port)
      && exists release :: Connected(rows, s', after, service, port, draw, release) && (release == id <==> draw < p)
  {
    hide SetTrafficPercent, Connected, Snapshot, Reachable, Occupant, C.Inv, UuidReleases, PortOf;
    var s', service := SetTrafficPercent(s, id, p, now).0, s.releases[id].service;
    ShiftLeaves(s, id, p, now);
    ConnectionReachesContainer(rows, s', ids, agent, services, before, after, service, port, draw);
    var release :| Drawn(s', service, draw, release) && Connected(rows, s', after, service, port, draw, release);
  }

  // ---------------------------------------------------------------- releases asked for by name

  lemma NamesOf(rows: C.Rows, s: State, id: Id)
    requires Reachable(s) && UuidReleases(s) && id in rows && Uuid(id) && LiveSlot(s, id) != NoSlot
    ensures var x := ServiceConfig(rows, s, id);
      && Occupant(s, id).Some? && x.LiveRelease() == Occupant(s, id).value && Lower(x.LiveRelease()) == x.LiveRelease()
      && (forall c | Waiting(s, c, id) :: x.CandidateRelease() == c && c != x.LiveRelease())
      && (x.CandidateRelease() != "" ==> Waiting(s, x.CandidateRelease(), id))
      && Lower(x.CandidateRelease()) == x.CandidateRelease()
      && R.Consistent(x) && x.Live() != ""
  {
    ConfigIsConsistent(rows, s, id);
    PublishedBackends(rows, s, id);
    PublishedMatchesState(s, id);
    NotBothSlots(s, id);
    var p := Resolve(s, id, LiveSlotOf(s, id));
    assert p.live.Some? ==> Uuid(p.live.value);
    assert p.candidate.Some? ==> Uuid(p.candidate.value);
    UuidIsPlain(p.live);
    UuidIsPlain(p.candidate);
    hide Resolve, Uuid, UuidReleases, Reachable, BackendNameForRelease, Trim, Lower, Waiting, R.Consistent;
  }

  lemma UuidIsPlain(id: Option<Id>)
    requires id.Some? ==> Uuid(id.value)
    ensures Trim(IdText(id)) == IdText(id) == Lower(IdText(id)) && (IdText(id) == "" <==> id.None?)
  {
    if id.Some? {
      UuidIsUuidLike(id.value);
      assert forall i | 0 <= i < |id.value| :: id.value[i] in id.value;
    } else { assert Trim("") == ""; }
    hide Uuid;
  }

  // Away from the two paths below the prefix that are normalized.
  predicate Unreserved(c: C.Service, req: R.Request) {
    && Lower(req.path) != Lower(P.Under(c.prefix, "/__ep/normalize"))
    && Lower(req.path) != Lower(P.Under(c.prefix, "/__ep/beta"))
  }

  // The live release, or the one that waits.
  ghost predicate Present(s: State, id: Id, release: Id) {
    Occupant(s, id) == Some(release) || Waiting(s, release, id)
  }

  // The request asks for the release by the preview parameter.
  predicate Asks(req: R.Request, release: Id) {
    req.query.Some? && Lower(req.query.value) == release
  }

  // It asks for none that is there, and its cookie, named by the service's key with underscores for
  // dashes, remembers the release.
  ghost predicate Remembers(s: State, c: C.Service, id: Id, req: R.Request, release: Id) {
    && (forall r | Asks(req, r) :: !Present(s, id, r))
    && P.CookieOf(c.key) in req.cookies && Lower(req.cookies[P.CookieOf(c.key)]) == release
  }

  // A published service serves the requests for its stored hosts below its stored prefix.
  lemma ServesAsStored(rows: C.Rows, s: State, id: Id, req: R.Request)
    requires C.Inv(rows) && id in rows
    ensures R.Serves(ServiceConfig(rows, s, id), req) <==>
              Lower(req.host) in C.HostsOf(rows[id]) && rows[id].prefix <= req.path
  {
    assert C.ServiceOk(rows[id]);
    PrefixNormalForm(rows[id].prefix);
    ConfigHosts(rows, s, id);
    var x := ServiceConfig(rows, s, id);
    AddedMeaning([], [x.routeHost] + x.routeHosts, Lower(req.host));
    hide Resolve, BackendNameForRelease, Lower, NormalizeRouteHost, C.HostsOf, NormalizeRoutePathPrefix;
  }

  lemma ReservedPaths(rows: C.Rows, s: State, id: Id, req: R.Request)
    requires C.Inv(rows) && id in rows && Unreserved(rows[id], req)
    ensures var x := ServiceConfig(rows, s, id);
      Lower(req.path) != Lower(NormalizePath(x.prefix)) && Lower(req.path) != Lower(BetaPath(x.prefix))
  {
    assert C.ServiceOk(rows[id]);
    PrefixNormalForm(rows[id].prefix);
    hide Resolve, BackendNameForRelease, Lower;
    P.StickyPathIs(rows[id].prefix, "/__ep/normalize");
    P.StickyPathIs(rows[id].prefix, "/__ep/beta");
  }

  lemma NamedChoice(x: R.Service, req: R.Request, draw: int, release: string)
    requires R.Consistent(x) && R.Serves(x, req) && x.Live() != "" && release != ""
    requires Lower(req.path) != Lower(NormalizePath(x.prefix)) && Lower(req.path) != Lower(BetaPath(x.prefix))
    requires x.LiveRelease() != x.CandidateRelease()
    requires Lower(x.LiveRelease()) == x.LiveRelease() && Lower(x.CandidateRelease()) == x.CandidateRelease()
    requires release in {x.LiveRelease(), x.CandidateRelease()}
    requires Asks(req, release)
      || (!Asks(req, x.LiveRelease()) && (x.CandidateRelease() != "" ==> !Asks(req, x.CandidateRelease()))
          && x.Cookie() in req.cookies && Lower(req.cookies[x.Cookie()]) == release)
    ensures R.Decision(x, req, draw) == Some(if release == x.LiveRelease() then x.Live() else x.Candidate())
  {
    hide Trim, Lower, NormalizePath, BetaPath, StickyCookieName, R.Serves;
  }

  lemma PresentNames(rows: C.Rows, s: State, id: Id, release: Id)
    requires Reachable(s) && UuidReleases(s) && id in rows && Uuid(id) && LiveSlot(s, id) != NoSlot
    requires Present(s, id, release)
    ensures var x := ServiceConfig(rows, s, id);
      && release in {x.LiveRelease(), x.CandidateRelease()} && release != ""
      && (if release == x.LiveRelease() then x.Live() else x.Candidate()) == BackendNameForRelease(id, release) != ""
      && Uuid(release)
  {
    NamesOf(rows, s, id);
    PublishedBackends(rows, s, id);
    PublishedMatchesState(s, id);
    assert Uuid(release);
    hide Uuid, UuidReleases, Reachable, BackendNameForRelease, Waiting, ServiceConfig;
  }

  // In every reachable state with a live slot, once its snapshot is committed: a request that asks
  // for the live or the waiting release reaches the container of that release, and one that asks for
  // neither but whose cookie remembers one of them reaches that, whatever the draw and the share.
  lemma NamedReleaseIsReached(
    rows: C.Rows, s: State, ids: seq<Id>, agent: string, services: seq<R.Service>, before: K.Config, after: K.Config,
    id: Id, req: R.Request, draws: nat -> int, draw: int, release: Id)
    requires Committed(rows, s, ids, agent, services, before, after) && Addressed(rows, s, ids, id, req, draws, draw)
    requires R.Serves(ServiceConfig(rows, s, id), req) && Unreserved(rows[id], req) && Present(s, id, release)
    requires Asks(req, release) || Remembers(s, rows[id], id, req, release)
    ensures Delivered(rows, s, after, id, req, draws, release)
  {
    hide R.NoSentinel, RouterTheorems.OneDraw, RouterCorrect.LongestMatch, TextsReadable, K.Reconciled, Delivered;
    hide Reachable, C.Inv, UuidReleases, Uuid, ServiceConfig, Snapshot, BackendNameForRelease, R.Serves, R.Decision;
    hide Lower, Trim, R.Consistent, Waiting;
    var x := ServiceConfig(rows, s, id);
    NamesOf(rows, s, id);
    ReservedPaths(rows, s, id, req);
    PresentNames(rows, s, id, release);
    NothingElse(s, x, id);
    ConfigCookie(rows, s, id);
    NamedChoice(x, req, draw, release);
    var backend := if release == x.LiveRelease() then x.Live() else x.Candidate();
    var found := DecidedIsDelivered(rows, s, ids, agent, services, before, after, id, req, draws, draw, backend);
    BackendNamesDiffer(id, release, id, found);
  }

  lemma NothingElse(s: State, x: R.Service, id: Id)
    requires Occupant(s, id).Some? && x.LiveRelease() == Occupant(s, id).value
    requires x.CandidateRelease() != "" ==> Waiting(s, x.CandidateRelease(), id)
    requires x.LiveRelease() == Lower(x.LiveRelease()) && (forall c | Waiting(s, c, id) :: c != x.LiveRelease())
    ensures Present(s, id, x.LiveRelease()) && (x.CandidateRelease() != "" ==> Present(s, id, x.CandidateRelease()))
  {
    hide Trim, Lower, Waiting;
  }

  lemma ConfigCookie(rows: C.Rows, s: State, id: Id)
    requires C.Inv(rows) && id in rows
    ensures ServiceConfig(rows, s, id).Cookie() == P.CookieOf(rows[id].key)
  {
    assert C.ServiceOk(rows[id]);
    hide Resolve, BackendNameForRelease, StickyCookieName;
    P.CookieNameIs(rows[id].key);
  }

  // ---------------------------------------------------------------- the paths that are normalized

  lemma OrdinaryConfig(rows: C.Rows, s: State, id: Id)
    requires C.Inv(rows) && id in rows && Uuid(id) && UuidReleases(s)
    ensures var x := ServiceConfig(rows, s, id);
      && x.prefix == rows[id].prefix && IsRoutePrefix(x.prefix)
      && x.Live() !in {"ep_normalize", "ep_default"} && x.Candidate() !in {"ep_normalize", "ep_default"}
      && (x.Live() != "" <==> Resolve(s, id, LiveSlotOf(s, id)).live.Some?)
  {
    assert C.ServiceOk(rows[id]);
    PrefixNormalForm(rows[id].prefix);
    var p := Resolve(s, id, LiveSlotOf(s, id));
    assert p.live.Some? ==> Uuid(p.live.value);
    assert p.candidate.Some? ==> Uuid(p.candidate.value);
    NamedConsistently(id, p.live);
    NamedConsistently(id, p.candidate);
    hide Resolve, Uuid, BackendNameForRelease, Trim, C.Inv, NormalizeRoutePathPrefix;
    if p.live.Some? { BackendNamesDiffer(id, p.live.value, id, p.live.value); }
    if p.candidate.Some? { BackendNamesDiffer(id, p.candidate.value, id, p.candidate.value); }
  }

  lemma PublishedIsOrdinary(rows: C.Rows, s: State, ids: seq<Id>, agent: string)
    requires C.Inv(rows) && AgentList(rows, ids, agent) && UuidReleases(s)
    ensures P.Ordinary(Snapshot(rows, s, ids))
  {
    hide Snapshot, Uuid, UuidReleases, Trim, ServiceConfig, C.Inv, IsRoutePrefix;
    forall x | x in Snapshot(rows, s, ids)
      ensures IsRoutePrefix(x.prefix) && x.Live() !in {"ep_normalize", "ep_default"}
        && x.Candidate() !in {"ep_normalize", "ep_default"}
    {
      SnapshotAre(rows, s, ids, x);
      var id :| id in ids && x == ServiceConfig(rows, s, id);
      OrdinaryConfig(rows, s, id);
    }
  }

  // In every reachable state, with or without a live slot, the compiled snapshot normalizes a
  // request for "/__ep/beta" below the prefix of its service; and one for "/__ep/normalize" exactly
  // if there is a live slot or the service's first container runs.
  lemma ReservedPathsAreNormalized(
    rows: C.Rows, s: State, ids: seq<Id>, agent: string, order: seq<R.Service>, id: Id,
    req: R.Request, draws: nat -> int, draw: int)
    requires Reachable(s) && C.Inv(rows) && AgentList(rows, ids, agent) && UuidReleases(s) && TextsReadable(rows, ids)
    requires multiset(order) == multiset(Snapshot(rows, s, ids)) && RouterCorrect.LongestFirst(order)
    requires id in ids && R.NoSentinel(req) && RouterTheorems.OneDraw(draws, draw)
    requires R.Serves(ServiceConfig(rows, s, id), req)
    requires RouterCorrect.LongestMatch(Snapshot(rows, s, ids), ServiceConfig(rows, s, id), req)
    ensures Lower(req.path) == Lower(P.Under(rows[id].prefix, "/__ep/beta")) ==>
              R.Evaluate(R.Compiled(order), req, draws, "ep_default") == "ep_normalize"
    ensures Lower(req.path) == Lower(P.Under(rows[id].prefix, "/__ep/normalize")) ==>
              (R.Evaluate(R.Compiled(order), req, draws, "ep_default") == "ep_normalize" <==>
                 LiveSlot(s, id) != NoSlot || (id, Blue) in s.instances)
  {
    var out, x := Snapshot(rows, s, ids), ServiceConfig(rows, s, id);
    SnapshotIsGood(rows, s, ids, agent);
    PublishedIsOrdinary(rows, s, ids, agent);
    OrdinaryConfig(rows, s, id);
    LiveIsNamed(s, id);
    hide *;
    if Lower(req.path) == Lower(P.Under(rows[id].prefix, "/__ep/beta")) {
      P.BetaIsNormalized(out, order, x, req, draws, draw);
    }
    if Lower(req.path) == Lower(P.Under(rows[id].prefix, "/__ep/normalize")) {
      P.NormalizeNeedsLive(out, order, x, req, draws, draw);
    }
  }

  lemma LiveIsNamed(s: State, id: Id)
    requires Reachable(s)
    ensures Resolve(s, id, LiveSlotOf(s, id)).live.Some? <==> LiveSlot(s, id) != NoSlot || (id, Blue) in s.instances
  {
    if LiveSlot(s, id) != NoSlot { LiveSlotServes(s, id); }
  }
}
