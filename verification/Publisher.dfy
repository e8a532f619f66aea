/** The snapshot an agent is sent: which releases of a service are named in it, and that the
    proxy compiled from it serves exactly them, in exactly the published shares. */
module Publisher {
  import opened Wrappers
  import opened Text
  import opened Widths
  import opened RouteNames
  import opened ReleaseModel
  import opened ReleaseInvariant
  import opened ReleaseTheorems
  import opened Sorting
  import C = Catalog
  import R = Router
  import RouterTheorems
  import RouterCorrect
  import TcpRouter
  import Reconcile
  import ReconcileTheorems

  // ---------------------------------------------------------------- releases of a service

  datatype Published = Published(live: Option<Id>, candidate: Option<Id>, percent: int)

  function NormalizeLiveSlot(slot: Slot): Slot {
    if slot == NoSlot then Blue else slot
  }

  function OtherSlot(slot: Slot): Slot {
    if slot == Green then Blue else Green
  }

  predicate SplitActive(r: Release) {
    r.status.Splittable() && PartialPercent(R.Clamp(r.percent))
  }

  predicate BetaVisible(r: Release) {
    r.status == ReadyToSwitch || (r.status == Switched && PartialPercent(R.Clamp(r.percent)))
  }

  function InstanceRelease(s: State, service: Id, slot: Slot): Option<Id> {
    if (service, slot) in s.instances then Some(s.instances[(service, slot)].release) else None
  }

  function Resolve(s: State, service: Id, current: Slot): Published {
    var liveSlot := NormalizeLiveSlot(current);
    var live := InstanceRelease(s, service, liveSlot);
    var candidate := InstanceRelease(s, service, OtherSlot(liveSlot));
    if candidate.None? then Published(live, None, 0)
    else if candidate.value !in s.releases || !BetaVisible(s.releases[candidate.value]) then Published(live, None, 0)
    else
      var r := s.releases[candidate.value];
      Published(live, candidate, if SplitActive(r) then R.Clamp(r.percent) else 0)
  }

  // `rows` lists the runtime instances of the service, in any order.
  method ResolveReleases(s: State, service: Id, current: Slot, rows: seq<(Id, Slot)>) returns (p: Published)
    requires forall k | k in rows :: k in s.instances
    requires forall slot | (service, slot) in s.instances :: (service, slot) in rows
    ensures p == Resolve(s, service, current)
  {
    var liveSlot := NormalizeLiveSlot(current);
    var candidateSlot := OtherSlot(liveSlot);
    var live: Option<Id>, candidate: Option<Id> := None, None;
    for i := 0 to |rows|
      invariant live == if (service, liveSlot) in rows[..i] then InstanceRelease(s, service, liveSlot) else None
      invariant candidate == if (service, candidateSlot) in rows[..i] then InstanceRelease(s, service, candidateSlot)
          else None
    {
      assert rows[..i + 1] == rows[..i] + [rows[i]];
      var key := rows[i];
      if key.0 != service { continue; }
      if key.1 == liveSlot { live := Some(s.instances[key].release); }
      if key.1 == candidateSlot { candidate := Some(s.instances[key].release); }
    }
    assert rows[..|rows|] == rows;
    if candidate.None? || candidate.value !in s.releases || !BetaVisible(s.releases[candidate.value]) {
      return Published(live, None, 0);
    }
    var r := s.releases[candidate.value];
    return Published(live, candidate, if SplitActive(r) then R.Clamp(r.percent) else 0);
  }

  predicate Waiting(s: State, id: Id, service: Id) {
    id in s.releases && s.releases[id].service == service && s.releases[id].status == ReadyToSwitch
  }

  // With a live slot, a snapshot taken in any reachable state names the release in that slot as
  // live, names a candidate exactly when a release is waiting to be switched, and carries that
  // release's percent.
  lemma PublishedMatchesState(s: State, service: Id)
    requires Reachable(s) && LiveSlot(s, service) != NoSlot
    ensures var p := Resolve(s, service, LiveSlot(s, service));
      && p.live.Some? && p.live == Occupant(s, service)
      && (forall id :: p.candidate == Some(id) <==> Waiting(s, id, service))
      && (p.candidate.Some? ==> p.percent == s.releases[p.candidate.value].percent && 0 <= p.percent <= 99)
      && (p.candidate.None? ==> p.percent == 0)
  {
    ReachableInv(s);
    LiveSlotServes(s, service);
    var p := Resolve(s, service, LiveSlot(s, service));
    var key := (service, OtherSlot(LiveSlot(s, service)));
    if key in s.instances {
      assert InstanceOk(s, key);
      assert ReleaseOk(s, s.instances[key].release);
    }
    forall id | Waiting(s, id, service) ensures p.candidate == Some(id) { assert ReleaseOk(s, id); }
  }

  // A release is named live before it is confirmed exactly when the service has no live slot yet
  // and its first container already runs.
  lemma NamedBeforeConfirmed(s: State, service: Id)
    requires Reachable(s)
    ensures var p := Resolve(s, service, LiveSlot(s, service));
      (p.live.Some? && p.live.value in s.releases && s.releases[p.live.value].percent != 100) <==>
      (LiveSlot(s, service) == NoSlot && (service, Blue) in s.instances)
  {
    ReachableInv(s);
    if LiveSlot(s, service) != NoSlot {
      LiveSlotServes(s, service);
    } else if (service, Blue) in s.instances {
      assert InstanceOk(s, (service, Blue));
      assert ReleaseOk(s, s.instances[(service, Blue)].release);
    }
  }

  // ---------------------------------------------------------------- backend names

  predicate Hex(s: string) {
    '-' !in s && forall c | c in s :: '0' <= c <= '9' || 'a' <= c <= 'f'
  }

  // Groups of 8, 4, 4, 4 and 12 digits.
  predicate Uuid(id: string) {
    && |id| == 36
    && id == id[..8] + "-" + id[9..13] + "-" + id[14..18] + "-" + id[19..23] + "-" + id[24..]
    && Hex(id[..8]) && Hex(id[9..13]) && Hex(id[14..18]) && Hex(id[19..23]) && Hex(id[24..])
  }

  function Digits(id: string): string
    requires |id| == 36
  {
    id[..8] + id[9..13] + id[14..18] + id[19..23] + id[24..]
  }

  lemma {:induction false} WithoutDash(a: string, b: string)
    requires '-' !in a
    ensures Without(a + "-" + b, '-') == a + Without(b, '-')
  {
    WithoutAppend(a + "-", b, '-');
    WithoutAppend(a, "-", '-');
    WithoutNothing(a, '-');
    assert Without("-", '-') == "" && a + "" == a;
  }

  lemma {:induction false} UuidDigits(id: string)
    requires Uuid(id)
    ensures Without(id, '-') == Digits(id) && |Digits(id)| == 32
  {
    hide Without, Hex;
    var e := id[24..];
    var d := id[19..23] + "-" + e;
    var c := id[14..18] + "-" + d;
    var b := id[9..13] + "-" + c;
    assert id == id[..8] + "-" + b;
    HexHasNoDash(id);
    WithoutNothing(e, '-');
    WithoutDash(id[19..23], e);
    WithoutDash(id[14..18], d);
    WithoutDash(id[9..13], c);
    WithoutDash(id[..8], b);
  }

  lemma HexHasNoDash(id: string)
    requires Uuid(id)
    ensures '-' !in id[..8] && '-' !in id[9..13] && '-' !in id[14..18] && '-' !in id[19..23] && '-' !in id[24..]
  {
  }

  lemma {:induction false} DigitsTellUuid(a: string, b: string)
    requires Uuid(a) && Uuid(b) && Digits(a) == Digits(b)
    ensures a == b
  {
    hide Hex;
    var d := Digits(a);
    assert d[..8] == a[..8] && d[8..12] == a[9..13] && d[12..16] == a[14..18] && d[16..20] == a[19..23]
        && d[20..] == a[24..];
    assert d[..8] == b[..8] && d[8..12] == b[9..13] && d[12..16] == b[14..18] && d[16..20] == b[19..23]
        && d[20..] == b[24..];
  }

  lemma {:induction false} UuidIsUuidLike(id: string)
    requires Uuid(id)
    ensures R.UuidLike(id) && Trim(id) == id
  {
    forall c | c in id ensures c == '-' || '0' <= c <= '9' || 'a' <= c <= 'f' {
      if c != '-' { UuidChar(id, c); }
    }
    TrimNoSpace(id);
  }

  lemma UuidChar(id: string, c: char)
    requires Uuid(id) && c in id && c != '-'
    ensures '0' <= c <= '9' || 'a' <= c <= 'f'
  {
    assert c in id[..8] || c in id[9..13] || c in id[14..18] || c in id[19..23] || c in id[24..];
  }

  lemma {:induction false} BackendNameIs(service: Id, release: Id)
    requires Uuid(service) && Uuid(release)
    ensures BackendNameForRelease(service, release) == "be_" + Digits(service) + "_" + Digits(release)
  {
    UuidIsUuidLike(release);
    UuidDigits(service);
    UuidDigits(release);
  }

  // Different releases of any services have different backends, none of them the default or the
  // normalize backend.
  lemma {:induction false} BackendNamesDiffer(s1: Id, r1: Id, s2: Id, r2: Id)
    requires Uuid(s1) && Uuid(r1) && Uuid(s2) && Uuid(r2)
    ensures BackendNameForRelease(s1, r1) == BackendNameForRelease(s2, r2) <==> s1 == s2 && r1 == r2
    ensures BackendNameForRelease(s1, r1) != "" && BackendNameForRelease(s1, r1) != DEFAULT_BACKEND
    ensures BackendNameForRelease(s1, r1) != NORMALIZE_BACKEND
        && Trim(BackendNameForRelease(s1, r1)) == BackendNameForRelease(s1, r1)
  {
    BackendNameIs(s1, r1);
    BackendNameIs(s2, r2);
    UuidDigits(s1);
    UuidDigits(r1);
    UuidDigits(s2);
    UuidDigits(r2);
    var n1, n2 := BackendNameForRelease(s1, r1), BackendNameForRelease(s2, r2);
    hide Digits, Uuid, BackendNameForRelease;
    assert |n1| == 68 && n1[..3] == "be_" && n1[3..35] == Digits(s1) && n1[36..] == Digits(r1);
    assert |n2| == 68 && n2[3..35] == Digits(s2) && n2[36..] == Digits(r2);
    if n1 == n2 {
      DigitsTellUuid(s1, s2);
      DigitsTellUuid(r1, r2);
    }
    LastDigit(r1);
    assert n1[67] == Digits(r1)[31] && n1[0] == 'b';
    TrimmedEnds(n1);
  }

  lemma {:induction false} LastDigit(id: Id)
    requires Uuid(id)
    ensures |Digits(id)| == 32 && !IsSpace(Digits(id)[31])
  {
    assert Digits(id)[31] == id[24..][11];
    assert id[24..][11] in id[24..];
  }

  // ---------------------------------------------------------------- snapshots

  function IdText(id: Option<Id>): string {
    if id.Some? then id.value else ""
  }

  function TcpConfig(service: Id, p: Published, port: C.TcpPort): R.TcpPort {
    R.TcpPort(port.listenPort, port.containerPort, Int32(port.idleTimeoutSecond),
              TcpBackendNameForRelease(service, IdText(p.live), port.listenPort),
              TcpBackendNameForRelease(service, IdText(p.candidate), port.listenPort))
  }

  function ConfigOf(id: Id, c: C.Service, current: Slot, p: Published): R.Service {
    R.Service(id, c.key, NormalizeRouteHost(c.routeHost), C.HostsOf(c), NormalizeRoutePathPrefix(c.prefix),
              IdText(p.live), BackendNameForRelease(id, IdText(p.live)),
              IdText(p.candidate), BackendNameForRelease(id, IdText(p.candidate)), p.percent,
              current, c.containerPort,
              seq(|c.tcp|, i requires 0 <= i < |c.tcp| => TcpConfig(id, p, c.tcp[i])))
  }

  function ServiceConfig(rows: C.Rows, s: State, id: Id): R.Service
    requires id in rows
  {
    ConfigOf(id, rows[id], LiveSlotOf(s, id), Resolve(s, id, LiveSlotOf(s, id)))
  }

  function LiveSlotOf(s: State, service: Id): Slot {
    if service in s.services then s.services[service].live else NoSlot
  }

  // The enabled services, in the order listed.
  function Snapshot(rows: C.Rows, s: State, ids: seq<Id>): seq<R.Service>
    requires forall id | id in ids :: id in rows
  {
    if ids == [] then []
    else (if rows[ids[0]].enabled then [ServiceConfig(rows, s, ids[0])] else []) + Snapshot(rows, s, ids[1..])
  }

  lemma {:induction false} SnapshotUpTo(rows: C.Rows, s: State, ids: seq<Id>, i: nat)
    requires (forall id | id in ids :: id in rows) && i < |ids|
    ensures (forall id | id in ids[..i] :: id in rows) && (forall id | id in ids[..i + 1] :: id in rows)
    ensures Snapshot(rows, s, ids[..i + 1]) ==
            Snapshot(rows, s, ids[..i]) + if rows[ids[i]].enabled then [ServiceConfig(rows, s, ids[i])] else []
    decreases |ids|
  {
    hide ServiceConfig;
    assert ids[..i + 1][1..] == ids[1..][..i];
    if i == 0 {
      assert ids[..1][1..] == [];
    } else {
      SnapshotUpTo(rows, s, ids[1..], i - 1);
      assert ids[1..][..i - 1 + 1] == ids[1..][..i] && ids[..i][1..] == ids[1..][..i - 1];
    }
  }

  // The order of publication; ties do not occur, since keys differ.
  predicate Earlier(a: R.Service, b: R.Service) {
    R.Precedes(|a.prefix|, a.routeHost, a.key, |b.prefix|, b.routeHost, b.key)
  }

  lemma EarlierOrders()
    ensures TotalOrder(Earlier)
  {
    hide R.Precedes;
    forall a: R.Service, b: R.Service ensures Earlier(a, b) || Earlier(b, a) {
      RouterCorrect.PrecedesOrders(|a.prefix|, a.routeHost, a.key, |b.prefix|, b.routeHost, b.key,
                                   |b.prefix|, b.routeHost, b.key);
    }
    forall a: R.Service, b: R.Service, c: R.Service | Earlier(a, b) && Earlier(b, c) ensures Earlier(a, c) {
      RouterCorrect.PrecedesOrders(|a.prefix|, a.routeHost, a.key, |b.prefix|, b.routeHost, b.key,
                                   |c.prefix|, c.routeHost, c.key);
    }
  }

  // The configurations of the enabled services, sorted. `instances` lists every stored runtime
  // instance. Sorting looks at no resolved release, so it may come last.
  method BuildSnapshot(rows: C.Rows, s: State, ids: seq<Id>, instances: seq<(Id, Slot)>) returns (out: seq<R.Service>)
    requires forall id | id in ids :: id in rows
    requires forall k :: k in instances <==> k in s.instances
    ensures multiset(out) == multiset(Snapshot(rows, s, ids)) && SortedBy(out, Earlier)
  {
    hide Resolve, ConfigOf, Earlier, SortedBy;
    var configs := [];
    for i := 0 to |ids|
      invariant configs == Snapshot(rows, s, ids[..i])
    {
      SnapshotUpTo(rows, s, ids, i);
      var id := ids[i];
      if !rows[id].enabled { continue; }
      var p := ResolveReleases(s, id, LiveSlotOf(s, id), instances);
      configs := configs + [ConfigOf(id, rows[id], LiveSlotOf(s, id), p)];
    }
    assert ids[..|ids|] == ids;
    EarlierOrders();
    out := Sort(configs, Earlier);
  }

  // The services of one agent, listed once each.
  predicate AgentList(rows: C.Rows, ids: seq<Id>, agent: string) {
    && (forall id | id in ids :: id in rows && rows[id].agent == agent && Uuid(id))
    && (forall i, j | 0 <= i < j < |ids| :: ids[i] != ids[j])
  }

  predicate UuidReleases(s: State) {
    forall k | k in s.instances :: Uuid(s.instances[k].release)
  }

  lemma {:induction false} SnapshotAre(rows: C.Rows, s: State, ids: seq<Id>, x: R.Service)
    requires forall id | id in ids :: id in rows
    ensures x in Snapshot(rows, s, ids) <==>
        exists id | id in ids :: rows[id].enabled && x == ServiceConfig(rows, s, id)
  {
    hide ServiceConfig;
    if ids != [] { SnapshotAre(rows, s, ids[1..], x); }
  }

  lemma ConfigIsConsistent(rows: C.Rows, s: State, id: Id)
    requires id in rows && Uuid(id) && UuidReleases(s)
    ensures var x := ServiceConfig(rows, s, id); R.UuidLike(x.id) && R.Consistent(x)
  {
    UuidIsUuidLike(id);
    var p := Resolve(s, id, LiveSlotOf(s, id));
    assert p.live.Some? ==> Uuid(p.live.value);
    assert p.candidate.Some? ==> Uuid(p.candidate.value);
    hide Resolve, Uuid, BackendNameForRelease;
    NamedConsistently(id, p.live);
    NamedConsistently(id, p.candidate);
  }

  lemma NamedConsistently(service: Id, release: Option<Id>)
    requires Uuid(service) && (release.Some? ==> Uuid(release.value))
    ensures Trim(BackendNameForRelease(service, IdText(release))) == BackendNameForRelease(service, IdText(release))
    ensures Trim(IdText(release)) == IdText(release)
    ensures BackendNameForRelease(service, IdText(release)) == "" <==> IdText(release) == ""
    ensures IdText(release) == "" <==> release.None?
  {
    if release.Some? {
      BackendNamesDiffer(service, release.value, service, release.value);
      UuidIsUuidLike(release.value);
      hide BackendNameForRelease;
    } else {
      assert Trim("") == "" && Without("", '-') == "";
    }
  }

  lemma ConfigHosts(rows: C.Rows, s: State, id: Id)
    requires id in rows
    ensures R.RouteHosts(ServiceConfig(rows, s, id)) == C.HostsOf(rows[id])
  {
    hide Resolve, BackendNameForRelease, Added;
    AddedAgain(rows[id].routeHost, rows[id].routeHosts);
  }

  lemma ConfigsAreExclusive(rows: C.Rows, s: State, a: Id, b: Id)
    requires C.Inv(rows) && a in rows && b in rows && a != b && rows[a].agent == rows[b].agent
    ensures var x, y := ServiceConfig(rows, s, a), ServiceConfig(rows, s, b);
      && (x.prefix == y.prefix ==> forall h | h in R.RouteHosts(x) :: h !in R.RouteHosts(y))
      && TcpRouter.DisjointListens(x, y)
  {
    hide Resolve;
    assert C.ServiceOk(rows[a]) && C.ServiceOk(rows[b]);
    assert C.Exclusive(rows[a], rows[b]);
    PrefixNormalForm(rows[a].prefix);
    PrefixNormalForm(rows[b].prefix);
    var x, y := ServiceConfig(rows, s, a), ServiceConfig(rows, s, b);
    if x.prefix == y.prefix {
      ConfigHosts(rows, s, a);
      ConfigHosts(rows, s, b);
    }
    forall p, q | p in x.tcpPorts && q in y.tcpPorts ensures p.listenPort != q.listenPort {
      ListensAreHostPorts(rows, s, a, p);
      ListensAreHostPorts(rows, s, b, q);
    }
  }

  lemma ListensAreHostPorts(rows: C.Rows, s: State, id: Id, p: R.TcpPort)
    requires id in rows && p in ServiceConfig(rows, s, id).tcpPorts
    ensures p.listenPort in C.HostPorts(rows[id])
  {
    hide Resolve;
    var c := rows[id];
    var i :| 0 <= i < |c.tcp| && ServiceConfig(rows, s, id).tcpPorts[i] == p;
    assert C.ListenPorts(c.tcp)[i] == p.listenPort;
    assert C.HostPorts(c)[|c.published| + i] == p.listenPort;
  }

  // Places in a snapshot come from places in the list of services.
  lemma {:induction false} SnapshotAt(rows: C.Rows, s: State, ids: seq<Id>, k: nat) returns (i: nat)
    requires (forall id | id in ids :: id in rows) && k < |Snapshot(rows, s, ids)|
    ensures k <= i < |ids| && Snapshot(rows, s, ids)[k] == ServiceConfig(rows, s, ids[i])
  {
    hide ServiceConfig;
    if rows[ids[0]].enabled && k == 0 {
      i := 0;
    } else {
      i := SnapshotAt(rows, s, ids[1..], if rows[ids[0]].enabled then k - 1 else k);
      i := i + 1;
    }
  }

  lemma {:induction false} SnapshotPair(rows: C.Rows, s: State, ids: seq<Id>, k: nat, l: nat) returns (i: nat, j: nat)
    requires (forall id | id in ids :: id in rows) && k < l < |Snapshot(rows, s, ids)|
    ensures i < j < |ids|
    ensures Snapshot(rows, s, ids)[k] == ServiceConfig(rows, s, ids[i])
        && Snapshot(rows, s, ids)[l] == ServiceConfig(rows, s, ids[j])
  {
    hide ServiceConfig;
    if rows[ids[0]].enabled && k == 0 {
      i := 0;
      j := SnapshotAt(rows, s, ids[1..], l - 1);
      j := j + 1;
    } else {
      var skip := if rows[ids[0]].enabled then 1 else 0;
      i, j := SnapshotPair(rows, s, ids[1..], k - skip, l - skip);
      i, j := i + 1, j + 1;
    }
  }

  // The hosts and the prefix of every enabled service are read by the proxy as they are written.
  predicate TextsReadable(rows: C.Rows, ids: seq<Id>)
    requires forall id | id in ids :: id in rows
  {
    forall id | id in ids && rows[id].enabled :: R.PlainHosts(C.HostsOf(rows[id])) && R.Unquoted(rows[id].prefix)
  }

  // The catalog's exclusive claims make a snapshot one the compiler is correct for if and only if
  // its texts are readable: hosts of one word each without quotes, backslashes and comment signs,
  // the first of which is not a flag, and prefixes without those signs. The catalog does not check
  // that. TCP frontends always have distinct names and ports.
  lemma SnapshotIsGood(rows: C.Rows, s: State, ids: seq<Id>, agent: string)
    requires C.Inv(rows) && AgentList(rows, ids, agent) && UuidReleases(s)
    ensures R.GoodSnapshot(Snapshot(rows, s, ids)) <==> TextsReadable(rows, ids)
    ensures TcpRouter.ExclusiveListens(Snapshot(rows, s, ids))
  {
    hide C.Inv, Uuid, UuidReleases, R.UuidLike, R.Consistent, R.Readable, R.RouteHosts, TcpRouter.DisjointListens;
    hide Resolve, ConfigOf, C.HostsOf, NoSpace;
    var out := Snapshot(rows, s, ids);
    forall x | x in out ensures R.UuidLike(x.id) && R.Consistent(x) && TcpRouter.DistinctListens(x.tcpPorts) {
      SnapshotAre(rows, s, ids, x);
      var id :| id in ids && x == ServiceConfig(rows, s, id);
      ConfigIsConsistent(rows, s, id);
      ConfigListens(rows, s, id);
    }
    forall k, l | 0 <= k < l < |out|
      ensures out[k].id != out[l].id && TcpRouter.DisjointListens(out[k], out[l])
      ensures out[k].prefix == out[l].prefix ==> forall h | h in R.RouteHosts(out[k]) :: h !in R.RouteHosts(out[l])
    {
      var i, j := SnapshotPair(rows, s, ids, k, l);
      ConfigsAreExclusive(rows, s, ids[i], ids[j]);
      ConfigId(rows, s, ids[i]);
      ConfigId(rows, s, ids[j]);
    }
    ReadableExactly(rows, s, ids, agent);
  }

  lemma ReadableExactly(rows: C.Rows, s: State, ids: seq<Id>, agent: string)
    requires C.Inv(rows) && AgentList(rows, ids, agent) && UuidReleases(s)
    ensures (forall x | x in Snapshot(rows, s, ids) :: R.Readable(x)) <==> TextsReadable(rows, ids)
  {
    hide C.Inv, Uuid, UuidReleases, R.Readable, R.PlainHosts, R.Unquoted, Snapshot, ServiceConfig, C.HostsOf;
    var out := Snapshot(rows, s, ids);
    forall id | id in ids && rows[id].enabled
      ensures ServiceConfig(rows, s, id) in out
      ensures R.Readable(ServiceConfig(rows, s, id)) <==>
                R.PlainHosts(C.HostsOf(rows[id])) && R.Unquoted(rows[id].prefix)
    {
      SnapshotAre(rows, s, ids, ServiceConfig(rows, s, id));
      ReadableConfig(rows, s, id);
    }
    forall x | x in out ensures exists id | id in ids :: rows[id].enabled && x == ServiceConfig(rows, s, id) {
      SnapshotAre(rows, s, ids, x);
    }
  }

  lemma ReadableConfig(rows: C.Rows, s: State, id: Id)
    requires C.Inv(rows) && id in rows && Uuid(id) && UuidReleases(s)
    ensures R.Readable(ServiceConfig(rows, s, id)) <==>
              R.PlainHosts(C.HostsOf(rows[id])) && R.Unquoted(rows[id].prefix)
  {
    var p := Resolve(s, id, LiveSlotOf(s, id));
    assert p.live.Some? ==> Uuid(p.live.value);
    assert p.candidate.Some? ==> Uuid(p.candidate.value);
    ConfigHosts(rows, s, id);
    hide Resolve, BackendNameForRelease, Uuid, C.HostsOf, R.RouteHosts;
    ReleaseWord(p.live);
    ReleaseWord(p.candidate);
    assert C.ServiceOk(rows[id]);
    PrefixWord(rows[id].prefix);
    hide C.ServiceOk, NormalizeRoutePathPrefix, Trim, NoSpace, R.Unquoted, R.PlainHosts;
  }

  lemma ReleaseWord(release: Option<Id>)
    requires release.Some? ==> Uuid(release.value)
    ensures var id := Trim(IdText(release)); R.Plain(id) && !R.Flag(id)
  {
    if release.Some? {
      UuidIsUuidLike(release.value);
      assert release.value[0] == release.value[..8][0] && release.value[0] in release.value[..8];
    } else {
      assert Trim("") == "";
    }
  }

  lemma PrefixWord(p: string)
    requires IsRoutePrefix(p) && C.CleanPrefix(p)
    ensures NormalizeRoutePathPrefix(p) == p && p != "" && NoSpace(p) && !R.Flag(p)
  {
    PrefixNormalForm(p);
    hide NormalizeRoutePathPrefix;
    forall c | c in p ensures !IsSpace(c) { assert !C.ForbiddenInPrefix(c); }
  }

  lemma ConfigId(rows: C.Rows, s: State, id: Id)
    requires id in rows
    ensures ServiceConfig(rows, s, id).id == id
  {
  }

  lemma ConfigListens(rows: C.Rows, s: State, id: Id)
    requires C.Inv(rows) && id in rows
    ensures TcpRouter.DistinctListens(ServiceConfig(rows, s, id).tcpPorts)
  {
    hide Resolve;
    var c := rows[id];
    assert C.ServiceOk(c);
    var ports := ServiceConfig(rows, s, id).tcpPorts;
    forall i, j | 0 <= i < j < |ports| ensures ports[i].listenPort != ports[j].listenPort {
      var all := C.HostPorts(c);
      assert all[|c.published| + i] == ports[i].listenPort && all[|c.published| + j] == ports[j].listenPort;
    }
  }

  // ---------------------------------------------------------------- end to end

  // A request without override or cookie, away from the sticky paths.
  predicate Plain(x: R.Service, req: R.Request) {
    && R.Serves(x, req) && req.query.None? && x.Cookie() !in req.cookies
    && Lower(req.path) != Lower(NormalizePath(x.prefix)) && Lower(req.path) != Lower(BetaPath(x.prefix))
  }

  lemma PlainChoice(x: R.Service, req: R.Request, draw: int)
    requires R.Consistent(x) && Plain(x, req) && x.Live() != "" && x.Percent() < 100
    ensures R.Decision(x, req, draw) ==
            Some(if x.Candidate() != "" && draw < x.Percent() && x.Percent() > 0 then x.Candidate() else x.Live())
  {
    hide Trim, Lower, NormalizePath, BetaPath, StickyCookieName, R.Serves;
  }

  lemma PublishedBackends(rows: C.Rows, s: State, id: Id)
    requires Reachable(s) && UuidReleases(s) && id in rows && Uuid(id) && LiveSlot(s, id) != NoSlot
    ensures var x := ServiceConfig(rows, s, id);
      && Occupant(s, id).Some? && x.Live() == BackendNameForRelease(id, Occupant(s, id).value) && x.Live() != ""
      && x.Percent() < 100
      && (forall c | Waiting(s, c, id) ::
            x.Candidate() == BackendNameForRelease(id, c) && x.Candidate() != "" && x.Candidate() != x.Live()
            && x.Percent() == s.releases[c].percent)
      && (x.Candidate() != "" ==> exists c :: Waiting(s, c, id))
  {
    PublishedMatchesState(s, id);
    var p := Resolve(s, id, LiveSlot(s, id));
    assert Uuid(p.live.value) by { LiveSlotServes(s, id); }
    assert p.candidate.Some? ==> Uuid(p.candidate.value);
    NamedConsistently(id, p.live);
    NamedConsistently(id, p.candidate);
    if p.candidate.Some? {
      NotBothSlots(s, id);
      BackendNamesDiffer(id, p.live.value, id, p.candidate.value);
    }
    hide Resolve, BackendNameForRelease, Trim, Uuid;
  }

  lemma NotBothSlots(s: State, service: Id)
    requires Reachable(s) && LiveSlot(s, service) != NoSlot
    ensures forall c | Waiting(s, c, service) :: Some(c) != Occupant(s, service)
  {
    LiveSlotServes(s, service);
  }

  // In every reachable state with a live slot, and while the catalog's texts are readable, the proxy
  // compiled from the published snapshot sends a plain request to the live slot's release, except
  // that it goes to a release waiting to be switched exactly when the draw is below that release's
  // percent.
  lemma EndToEnd(
    rows: C.Rows, s: State, ids: seq<Id>, agent: string, order: seq<R.Service>, id: Id,
    req: R.Request, draws: nat -> int, draw: int)
    requires Reachable(s) && C.Inv(rows) && AgentList(rows, ids, agent) && UuidReleases(s)
    requires TextsReadable(rows, ids) && id in ids && rows[id].enabled && LiveSlot(s, id) != NoSlot
    requires multiset(order) == multiset(Snapshot(rows, s, ids)) && RouterCorrect.LongestFirst(order)
    requires R.NoSentinel(req) && RouterTheorems.OneDraw(draws, draw) && 0 <= draw < 100
    requires Plain(ServiceConfig(rows, s, id), req)
    requires RouterCorrect.LongestMatch(Snapshot(rows, s, ids), ServiceConfig(rows, s, id), req)
    ensures var backend := R.Evaluate(R.Compiled(order), req, draws, DEFAULT_BACKEND);
      && Occupant(s, id).Some?
      && (forall c | Waiting(s, c, id) :: backend == BackendNameForRelease(id, c) <==> draw < s.releases[c].percent)
      && ((forall c | Waiting(s, c, id) :: s.releases[c].percent <= draw) ==>
            backend == BackendNameForRelease(id, Occupant(s, id).value))
  {
    var x, out := ServiceConfig(rows, s, id), Snapshot(rows, s, ids);
    SnapshotIsGood(rows, s, ids, agent);
    ConfigIsConsistent(rows, s, id);
    PublishedBackends(rows, s, id);
    PlainChoice(x, req, draw);
    var right := R.Decision(x, req, draw).value;
    RouterCorrect.LongestRoutes(out, x, req, draw, right);
    RouterCorrect.CompilerIsCorrect(out, order, req, draws, draw, right);
    hide *;
    hide Waiting;
    assert R.Evaluate(R.Compiled(order), req, draws, DEFAULT_BACKEND) == right;
  }

  // ---------------------------------------------------------------- reconciling a snapshot

  lemma {:induction false} ItoaEnds(n: nat)
    ensures !IsSpace(Itoa(n)[|Itoa(n)| - 1])
  {
    var text := Itoa(n);
    assert text[|text| - 1] in text;
  }

  lemma {:induction false} TcpBackendNameIs(service: Id, release: Id, port: int)
    requires Uuid(service) && Uuid(release) && port > 0
    ensures var name := TcpBackendNameForRelease(service, release, port);
      name == "tcp_" + Digits(service) + "_" + Digits(release) + "_" + Itoa(port) && Trim(name) == name && name != ""
  {
    UuidIsUuidLike(release);
    UuidDigits(service);
    UuidDigits(release);
    ItoaEnds(port);
    hide Itoa, Digits;
    var name := TcpBackendNameForRelease(service, release, port);
    assert name[|name| - 1] == Itoa(port)[|Itoa(port)| - 1] && name[0] == 't';
    TrimmedEnds(name);
  }

  lemma PortNamed(service: Id, release: Option<Id>, port: int)
    requires Uuid(service) && (release.Some? ==> Uuid(release.value)) && port > 0
    ensures var name := TcpBackendNameForRelease(service, IdText(release), port);
      Trim(name) == name && (name == "" <==> release.None?) && Trim(IdText(release)) == IdText(release)
  {
    if release.Some? {
      TcpBackendNameIs(service, release.value, port);
      UuidIsUuidLike(release.value);
    } else {
      assert Trim("") == "" && Without("", '-') == "";
    }
  }

  lemma ManagedName(port: nat)
    ensures Reconcile.Managed(TcpFrontendName(port))
  {
    hide Itoa;
    ItoaEnds(port);
    var name := TcpFrontendName(port);
    assert name[|name| - 1] == Itoa(port)[|Itoa(port)| - 1] && name[0] == 'e';
    TrimmedEnds(name);
  }

  // The TCP proxies of a published snapshot meet what the reconcile theorems ask of them, and its
  // services have distinct keys.
  lemma SnapshotReconciles(rows: C.Rows, s: State, ids: seq<Id>, agent: string, proxies: seq<TcpRouter.Proxy>)
    requires C.Inv(rows) && AgentList(rows, ids, agent) && UuidReleases(s)
    requires multiset(proxies) == multiset(TcpRouter.AllProxies(Snapshot(rows, s, ids)))
    ensures ReconcileTheorems.AllAgree(proxies)
    ensures forall p | p in proxies :: Reconcile.Managed(p.frontend)
    ensures ReconcileTheorems.DistinctKeys(Snapshot(rows, s, ids))
    ensures TcpRouter.ExclusiveListens(Snapshot(rows, s, ids))
  {
    hide TcpRouter.AllProxies, TcpRouter.ExclusiveListens, UuidReleases, ServiceConfig, Reconcile.Managed;
    var out := Snapshot(rows, s, ids);
    SnapshotIsGood(rows, s, ids, agent);
    forall p | p in proxies ensures ReconcileTheorems.Agrees(p) && Reconcile.Managed(p.frontend) {
      assert p in multiset(proxies);
      ProxyAgrees(rows, s, ids, agent, p);
    }
    forall k, l | 0 <= k < l < |out| ensures out[k].key != out[l].key {
      var i, j := SnapshotPair(rows, s, ids, k, l);
      assert C.Exclusive(rows[ids[i]], rows[ids[j]]);
      ConfigKey(rows, s, ids[i]);
      ConfigKey(rows, s, ids[j]);
    }
  }

  lemma ConfigKey(rows: C.Rows, s: State, id: Id)
    requires id in rows
    ensures ServiceConfig(rows, s, id).key == rows[id].key
  {
  }

  lemma ProxyAgrees(rows: C.Rows, s: State, ids: seq<Id>, agent: string, p: TcpRouter.Proxy)
    requires AgentList(rows, ids, agent) && UuidReleases(s)
    requires p in TcpRouter.AllProxies(Snapshot(rows, s, ids))
    ensures ReconcileTheorems.Agrees(p) && Reconcile.Managed(p.frontend)
  {
    hide ServiceConfig, Snapshot, TcpRouter.AllProxies, TcpRouter.ProxiesOf, Reconcile.Managed, Uuid, UuidReleases;
    var out := Snapshot(rows, s, ids);
    TcpRouter.ProxyNames(out, p);
    ManagedName(p.listenPort);
    TcpRouter.AllProxiesAre(out, p);
    var x :| x in out && p in TcpRouter.ProxiesOf(x, x.tcpPorts);
    TcpRouter.ProxiesAre(x, x.tcpPorts, p);
    var port :| port in x.tcpPorts && TcpRouter.Usable(port) && p == TcpRouter.ProxyOf(x, port);
    SnapshotAre(rows, s, ids, x);
    var id :| id in ids && x == ServiceConfig(rows, s, id);
    PortAgrees(rows, s, id, port);
  }

  lemma PortAgrees(rows: C.Rows, s: State, id: Id, port: R.TcpPort)
    requires id in rows && Uuid(id) && UuidReleases(s)
    requires port in ServiceConfig(rows, s, id).tcpPorts && TcpRouter.Usable(port)
    ensures ReconcileTheorems.Agrees(TcpRouter.ProxyOf(ServiceConfig(rows, s, id), port))
  {
    var p := Resolve(s, id, LiveSlotOf(s, id));
    assert p.live.Some? ==> Uuid(p.live.value);
    assert p.candidate.Some? ==> Uuid(p.candidate.value);
    hide Resolve, Uuid, TcpBackendNameForRelease, Trim, TcpFrontendName, TcpUnavailableBackendName, R.Clamp,
        BackendNameForRelease;
    PortNamed(id, p.live, port.listenPort);
    PortNamed(id, p.candidate, port.listenPort);
  }

  // Every HTTP backend of a service has one server: the container of the release it is named
  // after, in the slot that release occupies.
  lemma ServersAreContainers(rows: C.Rows, s: State, id: Id, e: Reconcile.Entry<Reconcile.Backend>)
    requires id in rows && Uuid(id) && UuidReleases(s)
    requires e in Reconcile.ServiceEntries(ServiceConfig(rows, s, id))
    ensures exists release, slot ::
      && (id, slot) in s.instances && s.instances[(id, slot)].release == release
      && e == (BackendNameForRelease(id, release),
               Reconcile.Backend(false, None,
                   map["srv" := Reconcile.Server(rows[id].key, release, slot, rows[id].containerPort)]))
  {
    var x := ServiceConfig(rows, s, id);
    var p := Resolve(s, id, LiveSlotOf(s, id));
    var liveSlot := NormalizeLiveSlot(LiveSlotOf(s, id));
    assert p.live.Some? ==> Uuid(p.live.value);
    assert p.candidate.Some? ==> Uuid(p.candidate.value);
    NamedConsistently(id, p.live);
    NamedConsistently(id, p.candidate);
    assert Reconcile.LiveSlot(x.liveSlot) == liveSlot && Reconcile.CandidateSlot(x.liveSlot) == OtherSlot(liveSlot);
    hide BackendNameForRelease, Trim, Uuid, R.Clamp;
    if e.0 == x.Live() && x.Live() != "" && e.1 == Reconcile.HttpBackend(x, x.LiveRelease(), liveSlot) {
      assert s.instances[(id, liveSlot)].release == p.live.value;
    } else {
      assert s.instances[(id, OtherSlot(liveSlot))].release == p.candidate.value;
    }
  }

  // ---------------------------------------------------------------- TCP, end to end

  // Different releases listening on different ports have different TCP backends.
  lemma {:induction false} TcpBackendNamesDiffer(s1: Id, r1: Id, p1: int, s2: Id, r2: Id, p2: int)
    requires Uuid(s1) && Uuid(r1) && p1 > 0 && Uuid(s2) && Uuid(r2) && p2 > 0
    ensures TcpBackendNameForRelease(s1, r1, p1) == TcpBackendNameForRelease(s2, r2, p2) <==>
        s1 == s2 && r1 == r2 && p1 == p2
  {
    TcpBackendNameIs(s1, r1, p1);
    TcpBackendNameIs(s2, r2, p2);
    UuidDigits(s1);
    UuidDigits(r1);
    UuidDigits(s2);
    UuidDigits(r2);
    var n1, n2 := TcpBackendNameForRelease(s1, r1, p1), TcpBackendNameForRelease(s2, r2, p2);
    hide Digits, Uuid, TcpBackendNameForRelease, Itoa;
    assert n1[4..36] == Digits(s1) && n1[37..69] == Digits(r1) && n1[70..] == Itoa(p1);
    assert n2[4..36] == Digits(s2) && n2[37..69] == Digits(r2) && n2[70..] == Itoa(p2);
    if n1 == n2 {
      DigitsTellUuid(s1, s2);
      DigitsTellUuid(r1, r2);
      ItoaInjective(p1, p2);
    }
  }

  function PortProxy(rows: C.Rows, s: State, id: Id, port: C.TcpPort): TcpRouter.Proxy
    requires id in rows && C.PortInRange(port.listenPort) && C.PortInRange(port.containerPort)
  {
    TcpRouter.ProxyOf(ServiceConfig(rows, s, id), TcpConfig(id, Resolve(s, id, LiveSlotOf(s, id)), port))
  }

  lemma PortBackends(rows: C.Rows, s: State, id: Id, port: C.TcpPort)
    requires UuidReleases(s) && id in rows && Uuid(id)
    requires C.PortInRange(port.listenPort) && C.PortInRange(port.containerPort)
    ensures var x, p := PortProxy(rows, s, id, port), Resolve(s, id, LiveSlotOf(s, id));
      && x.live == TcpBackendNameForRelease(id, IdText(p.live), port.listenPort) && (x.live == "" <==> p.live.None?)
      && x.candidate == TcpBackendNameForRelease(id, IdText(p.candidate), port.listenPort)
      && (x.candidate == "" <==> p.candidate.None?)
      && x.liveRelease == IdText(p.live) && x.candidateRelease == IdText(p.candidate)
      && x.percent == R.Clamp(p.percent)
  {
    var p := Resolve(s, id, LiveSlotOf(s, id));
    assert p.live.Some? ==> Uuid(p.live.value);
    assert p.candidate.Some? ==> Uuid(p.candidate.value);
    hide Resolve, BackendNameForRelease, TcpFrontendName, TcpUnavailableBackendName;
    PortNamed(id, p.live, port.listenPort);
    PortNamed(id, p.candidate, port.listenPort);
  }

  lemma PublishedPort(rows: C.Rows, s: State, id: Id, port: C.TcpPort)
    requires Reachable(s) && UuidReleases(s) && id in rows && Uuid(id) && LiveSlot(s, id) != NoSlot
    requires C.PortInRange(port.listenPort) && C.PortInRange(port.containerPort)
    ensures var x := PortProxy(rows, s, id, port);
      && Occupant(s, id).Some? && x.live == TcpBackendNameForRelease(id, Occupant(s, id).value, port.listenPort)
      && x.live != "" && 0 <= x.percent < 100
      && (forall c | Waiting(s, c, id) ::
            x.candidate == TcpBackendNameForRelease(id, c, port.listenPort) && x.candidate != ""
                && x.candidate != x.live
            && x.percent == s.releases[c].percent)
      && (x.candidate != "" ==> exists c :: Waiting(s, c, id))
  {
    var p := Resolve(s, id, LiveSlotOf(s, id));
    PublishedMatchesState(s, id);
    NotBothSlots(s, id);
    PortBackends(rows, s, id, port);
    assert Uuid(p.live.value) by { LiveSlotServes(s, id); }
    assert p.candidate.Some? ==> Uuid(p.candidate.value);
    if p.candidate.Some? {
      TcpBackendNamesDiffer(id, p.live.value, port.listenPort, id, p.candidate.value, port.listenPort);
    }
    hide Resolve, Uuid, UuidReleases, TcpBackendNameForRelease, PortProxy, Reachable;
  }

  // The same holds of TCP: in every reachable state with a live slot, a connection to a listen
  // port of the service reaches a waiting release exactly when the draw is below its percent, and
  // the live slot's release otherwise.
  lemma TcpEndToEnd(rows: C.Rows, s: State, id: Id, port: C.TcpPort, draw: int)
    requires Reachable(s) && UuidReleases(s) && id in rows && Uuid(id) && LiveSlot(s, id) != NoSlot
    requires C.PortInRange(port.listenPort) && C.PortInRange(port.containerPort) && 0 <= draw < 100
    ensures var backend := TcpRouter.Backend(TcpRouter.FrontendFor(PortProxy(rows, s, id, port)), draw);
      && Occupant(s, id).Some?
      && (forall c | Waiting(s, c, id) ::
            backend == TcpBackendNameForRelease(id, c, port.listenPort) <==> draw < s.releases[c].percent)
      && ((forall c | Waiting(s, c, id) :: s.releases[c].percent <= draw) ==>
            backend == TcpBackendNameForRelease(id, Occupant(s, id).value, port.listenPort))
  {
    PublishedPort(rows, s, id, port);
    TcpRouter.TcpDecision(PortProxy(rows, s, id, port), draw);
    hide *;
    hide Waiting;
  }

  // Every TCP backend of a service with a server has the container of its release, in the slot
  // that release occupies.
  lemma TcpServersAreContainers(rows: C.Rows, s: State, id: Id, port: C.TcpPort, e: Reconcile.Entry<Reconcile.Backend>)
    requires id in rows && Uuid(id) && UuidReleases(s)
    requires C.PortInRange(port.listenPort) && C.PortInRange(port.containerPort)
    requires e in Reconcile.ProxyEntries(PortProxy(rows, s, id, port)) && e.1.servers != map[]
    ensures exists release, slot ::
      && (id, slot) in s.instances && s.instances[(id, slot)].release == release
      && e.0 == TcpBackendNameForRelease(id, release, port.listenPort)
      && e.1.servers == map["srv" := Reconcile.Server(rows[id].key, release, slot, port.containerPort)]
  {
    var x, p := PortProxy(rows, s, id, port), Resolve(s, id, LiveSlotOf(s, id));
    PortBackends(rows, s, id, port);
    var liveSlot := NormalizeLiveSlot(LiveSlotOf(s, id));
    ResolvedAt(s, id);
    hide Resolve, TcpBackendNameForRelease, Trim, Uuid, UuidReleases, R.Clamp, TcpFrontendName,
        TcpUnavailableBackendName;
    hide BackendNameForRelease, Reconcile.TcpEntry;
    assert Reconcile.LiveSlot(x.liveSlot) == liveSlot && Reconcile.CandidateSlot(x.liveSlot) == OtherSlot(liveSlot);
    if e in Reconcile.TcpEntry(x, x.live, x.liveRelease, liveSlot) {
      EntryIs(x, x.live, x.liveRelease, liveSlot, e);
      assert s.instances[(id, liveSlot)].release == p.live.value;
    } else {
      assert e in Reconcile.TcpEntry(x, x.candidate, x.candidateRelease, OtherSlot(liveSlot));
      EntryIs(x, x.candidate, x.candidateRelease, OtherSlot(liveSlot), e);
      assert s.instances[(id, OtherSlot(liveSlot))].release == p.candidate.value;
    }
  }

  lemma EntryIs(x: TcpRouter.Proxy, name: string, release: string, slot: Slot, e: Reconcile.Entry<Reconcile.Backend>)
    requires e in Reconcile.TcpEntry(x, name, release, slot)
    ensures release != "" && e.0 == name
    ensures e.1.servers == map["srv" := Reconcile.Server(x.serviceKey, release, slot, x.containerPort)]
  {
  }

  // What is published as live or candidate is what occupies the slot.
  lemma ResolvedAt(s: State, id: Id)
    ensures var p, liveSlot := Resolve(s, id, LiveSlotOf(s, id)), NormalizeLiveSlot(LiveSlotOf(s, id));
      && (p.live.Some? ==> (id, liveSlot) in s.instances && s.instances[(id, liveSlot)].release == p.live.value)
      && (p.candidate.Some? ==>
            (id, OtherSlot(liveSlot)) in s.instances
                && s.instances[(id, OtherSlot(liveSlot))].release == p.candidate.value)
  {
  }

  // ---------------------------------------------------------------- deleting a service

  predicate Idle(r: Release) {
    r.status == Queued || r.status.IsTerminal() || (r.status == ReadyToSwitch && r.percent == 0)
  }

  // In every reachable state a stored service can be deleted exactly when each of its releases is
  // queued, closed, or waits without any traffic; no deploy task of it is open then.
  lemma DeletedWhenIdle(rows: C.Rows, s: State, id: Id)
    requires Reachable(s) && id in rows
    ensures C.Delete(rows, id, Open(s, id)).1.None? <==>
              forall r | r in s.releases && s.releases[r].service == id :: Idle(s.releases[r])
    ensures C.Delete(rows, id, Open(s, id)).1.None? ==>
              forall t | t in s.tasks && s.tasks[t].service == id :: s.tasks[t].status.IsTerminal()
  {
    ReachableInv(s);
    forall r | r in s.releases && s.releases[r].service == id
      ensures Idle(s.releases[r]) <==> !BlocksStart(s.releases[r], id)
    {
      assert ReleaseOk(s, r);
    }
    forall t | t in s.tasks && s.tasks[t].service == id && !s.tasks[t].status.IsTerminal() ensures Open(s, id) {
      assert TaskOk(s, t);
      var r := s.tasks[t].release;
      assert ReleaseOk(s, r);
      assert BlocksStart(s.releases[r], id);
    }
  }
}
