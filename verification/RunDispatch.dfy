/** The engine's dispatch cycle over the stored runs, with the executors' reports that arrive while
    it runs. Every effect on a run's row is one of the events of `RunLease`. */
module RunDispatch {
  import opened Wrappers
  import opened Text
  import opened Sorting
  import opened RunLease
  import opened RunHandling
  import opened Widths

  // Of a job or a service.
  type Id = string

  datatype Policy = RoundRobin | FixedLiveSlot

  // The columns of a run that never change and decide who may execute it.
  datatype Info = Info(job: Id, group: string, policy: Policy, service: Option<Id>, scheduledAt: Time)

  datatype OnlineExecutor = OnlineExecutor(id: string, slot: int, serviceInstance: bool, service: Option<Id>)

  datatype Executor = Executor(enabled: bool, lastSeen: Option<Time>)

  datatype Config = Config(defaultLeaseSec: int, defaultMaxRetries: int, heartbeatTimeout: Time, batch: nat)

  // What a cycle sees outside the database: who is connected, where services are live, which
  // deliveries the sessions refuse, and the reports that arrive before each listed run is looked at
  // and while it is handled.
  datatype World = World(
    online: map<string, seq<OnlineExecutor>>, liveSlots: map<Id, int>, refused: map<Key, string>,
    early: map<Key, Reports>, late: map<Key, Reports>)

  const EXECUTOR_OFFLINE := "executor offline"
  const NO_SERVICE := "serviceId required in payload for fixed_live_slot"
  const NO_LIVE_SLOT := "live slot unknown"

  // ---------------------------------------------------------------- choosing an executor

  // What an executor is looked for by.
  datatype Quest = WithId(id: string) | OwnAt(slot: int, service: Id) | FreeAt(slot: int)

  predicate Fits(e: OnlineExecutor, q: Quest) {
    match q
    case WithId(id) => e.id == id
    case OwnAt(slot, service) => e.slot == slot && e.serviceInstance && e.service == Some(service)
    case FreeAt(slot) => e.slot == slot && !e.serviceInstance
  }

  function First(online: seq<OnlineExecutor>, q: Quest): (i: nat)
    ensures i <= |online|
    ensures i < |online| ==> Fits(online[i], q)
    ensures forall j | 0 <= j < i :: !Fits(online[j], q)
  {
    if online == [] || Fits(online[0], q) then 0 else 1 + First(online[1..], q)
  }

  predicate Dispatches(e: Option<Executor>, now: Time, timeout: Time) {
    && e.Some? && e.value.enabled && e.value.lastSeen.Some?
    && e.value.lastSeen.value > now - (if timeout <= 0 then 15 * SECOND else timeout)
  }

  predicate Usable(e: OnlineExecutor, executors: map<string, Executor>, now: Time, timeout: Time) {
    Dispatches(if e.id in executors then Some(executors[e.id]) else None, now, timeout)
  }

  // The connected executors that are enabled and were seen recently.
  function Usables(online: seq<OnlineExecutor>, executors: map<string, Executor>, now: Time, timeout: Time)
    : (r: seq<OnlineExecutor>)
    ensures forall e :: e in r <==> e in online && Usable(e, executors, now, timeout)
  {
    if online == [] then []
    else
      var last := online[|online| - 1];
      Usables(online[..|online| - 1], executors, now, timeout)
      + if Usable(last, executors, now, timeout) then [last] else []
  }

  function Connected(world: World, group: string): seq<OnlineExecutor> {
    if group in world.online then world.online[group] else []
  }

  // The usable executors of a group, sorted by id.
  ghost predicate RankingOf(ranking: seq<OnlineExecutor>, group: string, world: World,
                            executors: map<string, Executor>, now: Time, timeout: Time) {
    && SortedBy(ranking, ById)
    && multiset(ranking) == multiset(Usables(Connected(world, group), executors, now, timeout))
  }

  predicate ById(a: OnlineExecutor, b: OnlineExecutor) {
    LexLeq(a.id, b.id)
  }

  lemma ByIdOrders()
    ensures TotalOrder(ById)
  {
    forall a: OnlineExecutor, b: OnlineExecutor ensures ById(a, b) || ById(b, a) { LexTotal(a.id, b.id); }
    forall a: OnlineExecutor, b: OnlineExecutor, c: OnlineExecutor | ById(a, b) && ById(b, c) ensures ById(a, c) {
      LexTransitive(a.id, b.id, c.id);
    }
  }

  // An index at most one lap ahead, brought back into range.
  function Wrap(i: nat, n: nat): (r: nat)
    requires i < 2 * n
    ensures r < n
  {
    if i < n then i else i - n
  }

  lemma WrapIsRemainder(i: nat, n: nat)
    requires 0 < i <= n
    ensures i % n == Wrap(i, n)
  {
  }

  // Where the next turn starts: after the last executor used, or at the front.
  function StartIndex(online: seq<OnlineExecutor>, cursor: Option<string>): (i: nat)
    requires online != []
    ensures i < |online|
  {
    if cursor.None? || cursor.value == "" then 0
    else
      var last := First(online, WithId(cursor.value));
      if last == |online| then 0 else Wrap(last + 1, |online|)
  }

  // For a run pinned to the live slot: the service's own instance there, else any independent
  // executor labelled with that slot.
  function FixedChoice(online: seq<OnlineExecutor>, slot: int, service: Id): Option<string> {
    var own := First(online, OwnAt(slot, service));
    var other := First(online, FreeAt(slot));
    if own < |online| then Some(online[own].id)
    else if other < |online| then Some(online[other].id)
    else None
  }

  // ---------------------------------------------------------------- round robin

  function NextTurn(online: seq<OnlineExecutor>, cursor: Option<string>): string
    requires online != []
  {
    online[StartIndex(online, cursor)].id
  }

  // The executors a job's next `n` turns use, each turn starting from the cursor the previous left.
  function Turns(online: seq<OnlineExecutor>, cursor: Option<string>, n: nat): (r: seq<string>)
    requires online != []
    ensures |r| == n
    decreases n
  {
    if n == 0 then []
    else
      var chosen := NextTurn(online, cursor);
      [chosen] + Turns(online, Some(chosen), n - 1)
  }

  predicate Distinct(online: seq<OnlineExecutor>) {
    && (forall i, j | 0 <= i < j < |online| :: online[i].id != online[j].id)
    && (forall i | 0 <= i < |online| :: online[i].id != "")
  }

  lemma AfterEach(online: seq<OnlineExecutor>, i: nat)
    requires Distinct(online) && i < |online|
    ensures StartIndex(online, Some(online[i].id)) == Wrap(i + 1, |online|)
  {
    assert Fits(online[i], WithId(online[i].id));
    assert First(online, WithId(online[i].id)) == i;
  }

  // Turn k goes to the k-th executor after the start, cyclically.
  lemma {:induction false} TurnsAreCyclic(online: seq<OnlineExecutor>, cursor: Option<string>, n: nat, k: nat)
    requires Distinct(online) && online != [] && k < n && k < |online|
    ensures |Turns(online, cursor, n)| == n
    ensures Turns(online, cursor, n)[k] == online[Wrap(StartIndex(online, cursor) + k, |online|)].id
    decreases n
  {
    hide StartIndex, Distinct;
    var start := StartIndex(online, cursor);
    var rest := Turns(online, Some(online[start].id), n - 1);
    assert Turns(online, cursor, n) == [online[start].id] + rest;
    AfterEach(online, start);
    if n > 1 { TurnsAreCyclic(online, Some(online[start].id), n - 1, if k == 0 then 0 else k - 1); }
    if k > 0 {
      assert Turns(online, cursor, n)[k] == rest[k - 1];
    }
  }

  function Ids(online: seq<OnlineExecutor>): seq<string> {
    seq(|online|, i requires 0 <= i < |online| => online[i].id)
  }

  // Any |online| consecutive turns use every executor exactly once, in sorted order from the
  // start, whatever the stored cursor.
  lemma RoundRobinIsFair(online: seq<OnlineExecutor>, cursor: Option<string>)
    requires Distinct(online) && online != []
    ensures var start := StartIndex(online, cursor);
      && Turns(online, cursor, |online|) == Ids(online)[start..] + Ids(online)[..start]
      && multiset(Turns(online, cursor, |online|)) == multiset(Ids(online))
  {
    hide StartIndex, Turns, Distinct;
    var n := |online|;
    var start := StartIndex(online, cursor);
    var turns := Turns(online, cursor, n);
    var ids := Ids(online);
    TurnsAreCyclic(online, cursor, n, 0);
    forall k | 0 <= k < n ensures turns[k] == ids[Wrap(start + k, n)] { TurnsAreCyclic(online, cursor, n, k); }
    Rotated(ids, start, turns);
  }

  lemma Rotated(ids: seq<string>, start: nat, turns: seq<string>)
    requires start < |ids| == |turns|
    requires forall k | 0 <= k < |ids| :: turns[k] == ids[Wrap(start + k, |ids|)]
    ensures turns == ids[start..] + ids[..start]
    ensures multiset(turns) == multiset(ids)
  {
    assert ids == ids[..start] + ids[start..];
  }

  // ---------------------------------------------------------------- one cycle on values

  // Turns are kept per job and group.
  type TurnKey = (Id, string)

  function TurnOf(info: Info): TurnKey {
    (info.job, info.group)
  }

  function CursorOf(cursors: map<TurnKey, string>, key: TurnKey): Option<string> {
    if key in cursors then Some(cursors[key]) else None
  }

  // Whom a run is tried with, or why with nobody.
  function Choice(info: Info, ranking: seq<OnlineExecutor>, cursor: Option<string>, world: World)
    : (r: Result<string, string>)
    ensures r.Ok? ==> r.value != "" && exists e :: e in ranking && e.id == r.value
  {
    if ranking == [] then Err(EXECUTOR_OFFLINE)
    else if info.policy == FixedLiveSlot then
      if info.service.None? then Err(NO_SERVICE)
      else if info.service.value !in world.liveSlots then Err(NO_LIVE_SLOT)
      else
        var slot, service := world.liveSlots[info.service.value], info.service.value;
        var chosen := FixedChoice(ranking, slot, service);
        if chosen.None? || chosen.value == "" then Err(EXECUTOR_OFFLINE) else Ok(chosen.value)
    else if NextTurn(ranking, cursor) == "" then Err(EXECUTOR_OFFLINE)
    else Ok(NextTurn(ranking, cursor))
  }

  lemma NobodyThere(info: Info, cursors: map<TurnKey, string>, world: World)
    ensures forall cursor :: Choice(info, [], cursor, world) == Err(EXECUTOR_OFFLINE)
    ensures CursorsAfter(cursors, info, []) == cursors
  {
  }

  // Taking a turn moves the cursor, whether or not the run can then be claimed.
  function CursorsAfter(cursors: map<TurnKey, string>, info: Info, ranking: seq<OnlineExecutor>): map<TurnKey, string> {
    if info.policy == RoundRobin && ranking != []
    then cursors[TurnOf(info) := NextTurn(ranking, CursorOf(cursors, TurnOf(info)))]
    else cursors
  }

  function PlanOf(listed: Run, info: Info, ranking: seq<OnlineExecutor>, cursor: Option<string>, world: World,
      now: Time)
    : (plan: Plan)
    ensures plan.Fail? <==> ShouldFailExpiredRun(listed, now)
    ensures plan.Try? ==> plan.who != ""
  {
    if ShouldFailExpiredRun(listed, now) then Fail
    else
      match Choice(info, ranking, cursor, world)
      case Err(reason) => Blame(reason)
      case Ok(who) => Try(who)
  }

  function ReportsFor(reports: map<Key, Reports>, id: Key): Reports {
    if id in reports then reports[id] else []
  }

  function HandlingOf(id: Key, plan: Plan, world: World, now: Time): Handling {
    Handling(id, plan, now, ReportsFor(world.early, id), ReportsFor(world.late, id),
             if id in world.refused then Some(world.refused[id]) else None)
  }

  lemma HandlingIs(id: Key, listed: Run, info: Info, ranking: seq<OnlineExecutor>, cursor: Option<string>,
                   world: World, now: Time)
    ensures var plan, choice := PlanOf(listed, info, ranking, cursor, world, now), Choice(info, ranking, cursor, world);
      && (plan.Fail? <==> ShouldFailExpiredRun(listed, now))
      && (!plan.Fail? ==> plan == if choice.Ok? then Try(choice.value) else Blame(choice.error))
      && HandlingOf(id, plan, world, now) ==
           Handling(id, plan, now, ReportsFor(world.early, id), ReportsFor(world.late, id),
                    if id in world.refused then Some(world.refused[id]) else None)
  {
    hide Choice, ShouldFailExpiredRun, ReportsFor;
  }

  // Everything a cycle depends on: the rows it starts from, the runs it lists, in order, the ranking
  // it finds for each, and what it sees of the executors.
  datatype Cycle = Cycle(
    rows: map<Key, Run>, infos: map<Key, Info>, ids: seq<Key>, rankings: map<Key, seq<OnlineExecutor>>,
    world: World, executors: map<string, Executor>, now: Time, timeout: Time)

  predicate Whole(v: Cycle) {
    forall id | id in v.ids :: id in v.rows && id in v.infos && id in v.rankings
  }

  // The cursors after the first n listed runs.
  function Cursors(v: Cycle, cursors: map<TurnKey, string>, n: nat): map<TurnKey, string>
    requires Whole(v) && n <= |v.ids|
  {
    if n == 0 then cursors
    else
      var before, id := Cursors(v, cursors, n - 1), v.ids[n - 1];
      if ShouldFailExpiredRun(v.rows[id], v.now) then before else CursorsAfter(before, v.infos[id], v.rankings[id])
  }

  // How the n-th listed run is handled.
  function HandlingAt(v: Cycle, cursors: map<TurnKey, string>, n: nat): (h: Handling)
    requires Whole(v) && n < |v.ids|
    ensures h.id == v.ids[n] && h.now == v.now
    ensures h.plan.Fail? <==> ShouldFailExpiredRun(v.rows[v.ids[n]], v.now)
    ensures h.plan.Try? ==> h.plan.who != ""
  {
    var id := v.ids[n];
    var cursor := CursorOf(Cursors(v, cursors, n), TurnOf(v.infos[id]));
    HandlingOf(id, PlanOf(v.rows[id], v.infos[id], v.rankings[id], cursor, v.world, v.now), v.world, v.now)
  }

  // The first `limit` of the runs to dispatch, those scheduled first coming first.
  predicate Listing(rows: map<Key, Run>, infos: map<Key, Info>, now: Time, limit: nat, ids: seq<Key>)
    requires rows.Keys <= infos.Keys
  {
    && (forall i | 0 <= i < |ids| :: ids[i] in rows && Dispatchable(rows[ids[i]], now))
    && (forall i, j | 0 <= i < j < |ids| :: ids[i] != ids[j] && infos[ids[i]].scheduledAt <= infos[ids[j]].scheduledAt)
    && |ids| <= limit
    && (forall id | id in rows && Dispatchable(rows[id], now) && id !in ids ::
          |ids| == limit && forall listed | listed in ids :: infos[listed].scheduledAt <= infos[id].scheduledAt)
  }

  // The executor with this id is enabled and was heard of within the timeout, 15 seconds if none is set.
  predicate Alive(id: string, executors: map<string, Executor>, now: Time, timeout: Time) {
    && id in executors && executors[id].enabled && executors[id].lastSeen.Some?
    && now - executors[id].lastSeen.value < (if timeout > 0 then timeout else 15_000_000_000)
  }

  lemma UsableIsAlive(e: OnlineExecutor, executors: map<string, Executor>, now: Time, timeout: Time)
    ensures Usable(e, executors, now, timeout) <==> Alive(e.id, executors, now, timeout)
  {
  }

  // Those a run of this group could be tried with.
  predicate Ready(e: OnlineExecutor, info: Info, world: World, executors: map<string, Executor>, now: Time,
      timeout: Time) {
    && info.group in world.online && e in world.online[info.group] && Alive(e.id, executors, now, timeout)
  }

  lemma ReadyAre(ranking: seq<OnlineExecutor>, info: Info, world: World, executors: map<string, Executor>, now: Time,
                 timeout: Time)
    requires RankingOf(ranking, info.group, world, executors, now, timeout)
    ensures forall e :: e in ranking <==> Ready(e, info, world, executors, now, timeout)
  {
    hide Usable, Alive;
    var usable := Usables(Connected(world, info.group), executors, now, timeout);
    forall e ensures e in ranking <==> Ready(e, info, world, executors, now, timeout) {
      UsableIsAlive(e, executors, now, timeout);
      if e in ranking || e in usable { SameElements(ranking, usable, e); }
    }
  }

  // The executor a run is tried with is connected to its group, enabled and was heard of recently;
  // and there is none to try it with exactly if a run that takes turns finds nobody like that, or one
  // that is bound to the live slot finds nobody who serves it there.
  lemma ChosenIsReady(info: Info, ranking: seq<OnlineExecutor>, cursor: Option<string>, world: World,
                      executors: map<string, Executor>, now: Time, timeout: Time)
    requires RankingOf(ranking, info.group, world, executors, now, timeout)
    ensures var chosen := Choice(info, ranking, cursor, world);
      var named := forall e | Ready(e, info, world, executors, now, timeout) :: e.id != "";
      && (info.policy == RoundRobin && named ==>
            (chosen.Ok? <==> exists e :: Ready(e, info, world, executors, now, timeout)))
      && (info.policy == RoundRobin && chosen.Ok? ==>
            exists e :: Ready(e, info, world, executors, now, timeout) && e.id == chosen.value)
      && (info.policy == FixedLiveSlot && named ==>
            (chosen.Ok? <==> exists e :: Ready(e, info, world, executors, now, timeout) && AtLiveSlot(e, info, world)))
      && (info.policy == FixedLiveSlot && chosen.Ok? ==>
            exists e :: Ready(e, info, world, executors, now, timeout) && AtLiveSlot(e, info, world)
              && e.id == chosen.value
              && (e.serviceInstance || forall o | Ready(o, info, world, executors, now, timeout) ::
                    !(AtLiveSlot(o, info, world) && o.serviceInstance)))
  {
    hide Ready, SortedBy, RankingOf;
    ReadyAre(ranking, info, world, executors, now, timeout);
    if info.policy == RoundRobin {
      hide FixedChoice, AtLiveSlot;
      if ranking != [] { assert ranking[0] in ranking; NextIsOne(ranking, cursor); }
    } else {
      hide NextTurn;
      FixedIs(info, ranking, cursor, world);
    }
  }

  // Where the service of the run is live: the service's own instance there, or an executor of no
  // service that carries that slot.
  predicate AtLiveSlot(e: OnlineExecutor, info: Info, world: World) {
    && info.service.Some? && info.service.value in world.liveSlots && e.slot == world.liveSlots[info.service.value]
    && (e.serviceInstance ==> e.service == info.service)
  }

  lemma NextIsOne(ranking: seq<OnlineExecutor>, cursor: Option<string>)
    requires ranking != []
    ensures exists e | e in ranking :: e.id == NextTurn(ranking, cursor)
  {
    assert ranking[StartIndex(ranking, cursor)] in ranking;
  }

  lemma FixedIs(info: Info, ranking: seq<OnlineExecutor>, cursor: Option<string>, world: World)
    requires info.policy == FixedLiveSlot
    ensures var chosen := Choice(info, ranking, cursor, world);
      && ((forall e | e in ranking :: e.id != "") ==>
            (chosen.Ok? <==> exists e | e in ranking :: AtLiveSlot(e, info, world)))
      && (chosen.Ok? ==> exists e | e in ranking ::
            && AtLiveSlot(e, info, world) && e.id == chosen.value
            && (e.serviceInstance || forall o | o in ranking :: !(AtLiveSlot(o, info, world) && o.serviceInstance)))
  {
    hide NextTurn, First;
    if info.service.Some? && info.service.value in world.liveSlots {
      var slot, service := world.liveSlots[info.service.value], info.service.value;
      FirstFits(ranking, OwnAt(slot, service));
      FirstFits(ranking, FreeAt(slot));
      forall e | e in ranking
        ensures AtLiveSlot(e, info, world) <==> Fits(e, OwnAt(slot, service)) || Fits(e, FreeAt(slot))
        ensures AtLiveSlot(e, info, world) && e.serviceInstance <==> Fits(e, OwnAt(slot, service))
      {
      }
    }
  }

  lemma FirstFits(online: seq<OnlineExecutor>, q: Quest)
    ensures First(online, q) < |online| <==> exists e | e in online :: Fits(e, q)
    ensures First(online, q) < |online| ==> online[First(online, q)] in online
  {
    if e :| e in online && Fits(e, q) {
      var i :| 0 <= i < |online| && online[i] == e;
    }
  }

  // Why there is nobody, in this order: nobody is ready, the run names no service, the service is not
  // live, or nobody serves it there.
  lemma ReasonsAre(info: Info, ranking: seq<OnlineExecutor>, cursor: Option<string>, world: World)
    requires Choice(info, ranking, cursor, world).Err?
    ensures Choice(info, ranking, cursor, world).error ==
      if ranking == [] || info.policy == RoundRobin then "executor offline"
      else if info.service.None? then "serviceId required in payload for fixed_live_slot"
      else if info.service.value !in world.liveSlots then "live slot unknown"
      else "executor offline"
  {
    hide FixedChoice, NextTurn;
  }

  // A run that takes a turn moves the cursor of its own job and group to the executor whose turn it
  // was, and no other; any other run moves none.
  lemma TurnsAreApart(cursors: map<TurnKey, string>, info: Info, ranking: seq<OnlineExecutor>, job: Id, group: string)
    requires forall e | e in ranking :: e.id != ""
    ensures var after := CursorsAfter(cursors, info, ranking);
      && (job == info.job && group == info.group && info.policy == RoundRobin && ranking != [] ==>
            (job, group) in after
            && forall world :: Choice(info, ranking, CursorOf(cursors, (job, group)), world) == Ok(after[(job, group)]))
      && (job != info.job || group != info.group || info.policy == FixedLiveSlot || ranking == [] ==>
            ((job, group) in after <==> (job, group) in cursors)
            && ((job, group) in after ==> after[(job, group)] == cursors[(job, group)]))
  {
    hide FixedChoice;
    if ranking != [] { NextIsOne(ranking, CursorOf(cursors, (info.job, info.group))); }
    hide StartIndex;
  }

  // ---------------------------------------------------------------- fairness of cycles

  // The n-th listed run takes a turn of this job and group.
  predicate Turning(v: Cycle, key: TurnKey, n: nat)
    requires Whole(v) && n < |v.ids|
  {
    var id := v.ids[n];
    && !ShouldFailExpiredRun(v.rows[id], v.now)
    && v.infos[id].policy == RoundRobin && TurnOf(v.infos[id]) == key && v.rankings[id] != []
  }

  // The executors tried for a job and group by the first n listed runs.
  function Picks(v: Cycle, cursors: map<TurnKey, string>, key: TurnKey, n: nat): seq<string>
    requires Whole(v) && n <= |v.ids|
  {
    if n == 0 then []
    else
      Picks(v, cursors, key, n - 1)
      + if Turning(v, key, n - 1)
        then [NextTurn(v.rankings[v.ids[n - 1]], CursorOf(Cursors(v, cursors, n - 1), key))] else []
  }

  // A turn is what the run is then claimed for.
  lemma TurnIsClaimed(v: Cycle, cursors: map<TurnKey, string>, key: TurnKey, n: nat)
    requires Whole(v) && n < |v.ids| && Turning(v, key, n)
    ensures var who := NextTurn(v.rankings[v.ids[n]], CursorOf(Cursors(v, cursors, n), key));
      && Picks(v, cursors, key, n + 1) == Picks(v, cursors, key, n) + [who]
      && (who != "" ==> HandlingAt(v, cursors, n).plan == Try(who))
  {
  }

  function Latest(picks: seq<string>, cursor: Option<string>): Option<string> {
    if picks == [] then cursor else Some(picks[|picks| - 1])
  }

  lemma {:induction false} TurnsJoin(online: seq<OnlineExecutor>, cursor: Option<string>, m: nat, n: nat)
    requires online != []
    ensures Turns(online, cursor, m + n) ==
            Turns(online, cursor, m) + Turns(online, Latest(Turns(online, cursor, m), cursor), n)
    decreases m
  {
    hide NextTurn;
    if m > 0 {
      var chosen := NextTurn(online, cursor);
      var rest := Turns(online, Some(chosen), m - 1);
      TurnsJoin(online, Some(chosen), m - 1, n);
      assert Latest(Turns(online, cursor, m), cursor) == Latest(rest, Some(chosen));
    }
  }

  lemma OneTurn(online: seq<OnlineExecutor>, cursor: Option<string>)
    requires online != []
    ensures Turns(online, cursor, 1) == [NextTurn(online, cursor)]
  {
    assert Turns(online, Some(NextTurn(online, cursor)), 0) == [];
  }

  // The first n listed runs that are not failed have the ranking of their group.
  ghost predicate Ranked(v: Cycle, n: nat)
    requires Whole(v) && n <= |v.ids|
  {
    forall i | 0 <= i < n && !ShouldFailExpiredRun(v.rows[v.ids[i]], v.now) ::
      RankingOf(v.rankings[v.ids[i]], v.infos[v.ids[i]].group, v.world, v.executors, v.now, v.timeout)
  }

  // Whenever this job and group take a turn, the usable executors are the ones of `ranking`.
  ghost predicate Steady(v: Cycle, key: TurnKey, ranking: seq<OnlineExecutor>)
    requires Whole(v)
  {
    && Ranked(v, |v.ids|)
    && forall n: nat | n < |v.ids| && Turning(v, key, n) ::
         multiset(Usables(Connected(v.world, key.1), v.executors, v.now, v.timeout)) == multiset(ranking)
  }

  lemma RankingIsUnique(a: seq<OnlineExecutor>, b: seq<OnlineExecutor>)
    requires Distinct(a) && SortedBy(a, ById) && SortedBy(b, ById) && multiset(a) == multiset(b)
    ensures a == b
  {
    forall x, y | x in a && y in a && ById(x, y) && ById(y, x) ensures x == y { LexTotal(x.id, y.id); }
    SortedOnce(a, b, ById);
  }

  // The n-th listed run moves the cursor of its own turn and no other.
  lemma CursorStep(v: Cycle, cursors: map<TurnKey, string>, key: TurnKey, n: nat)
    requires Whole(v) && n < |v.ids|
    ensures CursorOf(Cursors(v, cursors, n + 1), key) ==
      if Turning(v, key, n) then Some(NextTurn(v.rankings[v.ids[n]], CursorOf(Cursors(v, cursors, n), key)))
      else CursorOf(Cursors(v, cursors, n), key)
  {
    hide NextTurn, ShouldFailExpiredRun;
  }

  lemma PickStep(v: Cycle, cursors: map<TurnKey, string>, key: TurnKey, n: nat)
    requires Whole(v) && n < |v.ids|
    ensures Picks(v, cursors, key, n + 1) == Picks(v, cursors, key, n)
      + if Turning(v, key, n) then [NextTurn(v.rankings[v.ids[n]], CursorOf(Cursors(v, cursors, n), key))] else []
  {
    hide NextTurn, Turning, Cursors;
  }

  lemma SteadyRanking(v: Cycle, key: TurnKey, ranking: seq<OnlineExecutor>, n: nat)
    requires Whole(v) && n < |v.ids| && Steady(v, key, ranking) && Turning(v, key, n)
    requires Distinct(ranking) && SortedBy(ranking, ById)
    ensures v.rankings[v.ids[n]] == ranking
  {
    hide Distinct, SortedBy, Usables, ShouldFailExpiredRun;
    assert RankingOf(v.rankings[v.ids[n]], v.infos[v.ids[n]].group, v.world, v.executors, v.now, v.timeout);
    RankingIsUnique(ranking, v.rankings[v.ids[n]]);
  }

  lemma OneMoreTurn(ranking: seq<OnlineExecutor>, cursor: Option<string>, before: seq<string>)
    requires ranking != [] && before == Turns(ranking, cursor, |before|)
    ensures var after := before + [NextTurn(ranking, Latest(before, cursor))];
      after == Turns(ranking, cursor, |after|)
          && Latest(after, cursor) == Some(NextTurn(ranking, Latest(before, cursor)))
  {
    hide NextTurn, Turns;
    TurnsJoin(ranking, cursor, |before|, 1);
    OneTurn(ranking, Latest(before, cursor));
  }

  ghost predicate TakesTurns(
    v: Cycle, cursors: map<TurnKey, string>, key: TurnKey, ranking: seq<OnlineExecutor>, n: nat)
    requires Whole(v) && n <= |v.ids| && ranking != []
  {
    var picks, cursor := Picks(v, cursors, key, n), CursorOf(cursors, key);
    picks == Turns(ranking, cursor, |picks|) && CursorOf(Cursors(v, cursors, n), key) == Latest(picks, cursor)
  }

  lemma NoTurnsYet(v: Cycle, cursors: map<TurnKey, string>, key: TurnKey, ranking: seq<OnlineExecutor>)
    requires Whole(v) && ranking != []
    ensures TakesTurns(v, cursors, key, ranking, 0)
  {
    NoTurns(ranking, CursorOf(cursors, key));
  }

  lemma {:induction false} CycleTakesTurns(
    v: Cycle, cursors: map<TurnKey, string>, key: TurnKey, ranking: seq<OnlineExecutor>, n: nat)
    requires Whole(v) && n <= |v.ids| && Steady(v, key, ranking)
    requires ranking != [] && Distinct(ranking) && SortedBy(ranking, ById)
    ensures TakesTurns(v, cursors, key, ranking, n)
    decreases n
  {
    hide NextTurn, Distinct, SortedBy, Turns, Picks, Cursors, Turning, Steady, CursorOf;
    if n == 0 {
      NoTurnsYet(v, cursors, key, ranking);
    } else {
      CycleTakesTurns(v, cursors, key, ranking, n - 1);
      CursorStep(v, cursors, key, n - 1);
      PickStep(v, cursors, key, n - 1);
      if Turning(v, key, n - 1) {
        SteadyRanking(v, key, ranking, n - 1);
        OneMoreTurn(ranking, CursorOf(cursors, key), Picks(v, cursors, key, n - 1));
      } else {
        assert Picks(v, cursors, key, n - 1) + [] == Picks(v, cursors, key, n - 1);
      }
    }
  }

  // The executors tried over a history of cycles; what happens to the rows in between is open.
  function AllPicks(vs: seq<Cycle>, cursors: map<TurnKey, string>, key: TurnKey): seq<string>
    requires forall v | v in vs :: Whole(v)
  {
    if vs == [] then []
    else
      var v := vs[0];
      Picks(v, cursors, key, |v.ids|) + AllPicks(vs[1..], Cursors(v, cursors, |v.ids|), key)
  }

  lemma {:induction false} CyclesTakeTurns(
    vs: seq<Cycle>, cursors: map<TurnKey, string>, key: TurnKey, ranking: seq<OnlineExecutor>)
    requires forall v | v in vs :: Whole(v) && Steady(v, key, ranking)
    requires ranking != [] && Distinct(ranking) && SortedBy(ranking, ById)
    ensures var picks := AllPicks(vs, cursors, key); picks == Turns(ranking, CursorOf(cursors, key), |picks|)
    decreases |vs|
  {
    hide Distinct, SortedBy, Picks, Cursors, Turning, Turns;
    if vs == [] {
      NoTurns(ranking, CursorOf(cursors, key));
    } else {
      var v, cursor := vs[0], CursorOf(cursors, key);
      var here := Picks(v, cursors, key, |v.ids|);
      var later := AllPicks(vs[1..], Cursors(v, cursors, |v.ids|), key);
      CycleTakesTurns(v, cursors, key, ranking, |v.ids|);
      CyclesTakeTurns(vs[1..], Cursors(v, cursors, |v.ids|), key, ranking);
      TurnsJoin(ranking, cursor, |here|, |later|);
    }
  }

  lemma NoTurns(online: seq<OnlineExecutor>, cursor: Option<string>)
    requires online != []
    ensures Turns(online, cursor, 0) == []
  {
  }

  // While the usable executors of a group stay the same, any |ranking| consecutive picks for one
  // job and group, over however many cycles, try each of them exactly once.
  lemma CyclesAreFair(
    vs: seq<Cycle>, cursors: map<TurnKey, string>, key: TurnKey, ranking: seq<OnlineExecutor>, i: nat)
    requires forall v | v in vs :: Whole(v) && Steady(v, key, ranking)
    requires ranking != [] && Distinct(ranking) && SortedBy(ranking, ById)
    requires i + |ranking| <= |AllPicks(vs, cursors, key)|
    ensures multiset(AllPicks(vs, cursors, key)[i..i + |ranking|]) == multiset(Ids(ranking))
  {
    hide Distinct, SortedBy, Turns, AllPicks, Steady, Ids;
    var picks, cursor, n := AllPicks(vs, cursors, key), CursorOf(cursors, key), |ranking|;
    CyclesTakeTurns(vs, cursors, key, ranking);
    var later := Latest(Turns(ranking, cursor, i), cursor);
    TurnsJoin(ranking, cursor, i, |picks| - i);
    TurnsJoin(ranking, later, n, |picks| - i - n);
    assert picks[i..i + n] == Turns(ranking, later, n);
    RoundRobinIsFair(ranking, later);
  }

  // ---------------------------------------------------------------- the engine's side

  // A row to list and the time the list is ordered by.
  datatype Candidate<K> = Candidate(at: Time, key: K)

  predicate Sooner<K>(a: Candidate<K>, b: Candidate<K>) {
    a.at <= b.at
  }

  class Scheduler {
    const cfg: Config
    var rows: map<Key, Run>
    var infos: map<Key, Info>
    var cursors: map<TurnKey, string>
    var executors: map<string, Executor>

    constructor (cfg: Config)
      ensures this.cfg == cfg && rows == map[] && infos == map[] && cursors == map[] && executors == map[]
    {
      this.cfg := cfg;
      rows, infos, cursors, executors := map[], map[], map[], map[];
    }

    // ---------------------------------------------------------------- guarded updates

    method ClaimRun(id: Key, who: string, leaseExpiresAt: Time, now: Time) returns (claimed: bool)
      requires id in rows && who != "" && leaseExpiresAt == LeaseUntil(rows[id], cfg.defaultLeaseSec, now)
      modifies this`rows
      ensures claimed == Claimable(old(rows[id]), now)
      ensures rows == old(rows)[id := Act(old(rows[id]), Claim(who, now), cfg.defaultLeaseSec)]
    {
      var r := rows[id];
      claimed := r.status == Pending || RetryDue(r, now) || (LeaseExpired(r, now) && r.attempt <= r.maxRetries);
      if claimed {
        var attempt := if r.status.IsHeld() && r.leaseExpiresAt.Some? && r.leaseExpiresAt.value <= now
            then r.attempt + 1 else r.attempt;
        rows := rows[id := r.(status := Dispatched, leasedBy := who, leaseExpiresAt := Some(leaseExpiresAt),
                              dispatchedAt := Some(now), nextRetryAt := None, attempt := attempt)];
      }
    }

    method MarkExpiredRunFailed(id: Key, now: Time, message: string) returns (updated: bool)
      requires id in rows
      modifies this`rows
      ensures updated == Exhausted(old(rows[id]), now)
      ensures rows == old(rows)[id := Act(old(rows[id]), Expire(message, now), cfg.defaultLeaseSec)]
    {
      var r := rows[id];
      updated := r.status.IsHeld() && r.leaseExpiresAt.Some? && r.leaseExpiresAt.value <= now
          && r.attempt > r.maxRetries;
      if updated {
        rows := rows[id := r.(status := Failed, completedAt := Some(now), leasedBy := "", leaseExpiresAt := None,
                              errorMessage := message)];
      }
    }

    method MarkRunDispatchFailed(id: Key, who: string, message: string, now: Time) returns (updated: bool)
      requires id in rows
      modifies this`rows
      ensures updated == Fires(old(rows[id]), Bounce(who, message, now))
      ensures rows == old(rows)[id := Act(old(rows[id]), Bounce(who, message, now), cfg.defaultLeaseSec)]
    {
      var r := rows[id];
      updated := r.leasedBy == who && r.status == Dispatched;
      if updated {
        rows := rows[id := r.(status := Pending, leasedBy := "", leaseExpiresAt := None, errorMessage := message)];
      }
    }

    // ---------------------------------------------------------------- executors' reports

    method MarkRunRunning(id: Key, who: string, now: Time) returns (result: Result<(), Error>)
      modifies this`rows
      ensures id !in old(rows) ==> result == Err(NotFound) && rows == old(rows)
      ensures id in old(rows) ==>
        && rows == old(rows)[id := Act(old(rows)[id], MarkRunning(who, now), cfg.defaultLeaseSec)]
        && (result.Ok? <==> HeldBy(old(rows)[id], who))
    {
      if id !in rows { return Err(NotFound); }
      var r := rows[id];
      if r.status.IsTerminal() { return Err(AlreadyCompleted); }
      if r.leasedBy != who || !r.status.IsHeld() { return Err(LeaseStateChanged); }
      rows := rows[id := r.(status := Running, startedAt := if r.startedAt.Some? then r.startedAt else Some(now))];
      return Ok(());
    }

    method RenewRunLease(id: Key, who: string, now: Time) returns (result: Result<(), Error>)
      modifies this`rows
      ensures id !in old(rows) ==> result == Err(NotFound) && rows == old(rows)
      ensures id in old(rows) ==>
        && rows == old(rows)[id := Act(old(rows)[id], Renew(who, now), cfg.defaultLeaseSec)]
        && (result.Ok? <==> Fires(old(rows)[id], Renew(who, now)))
    {
      if id !in rows { return Err(NotFound); }
      var r := rows[id];
      if r.leasedBy != who { return Err(OwnerMismatch); }
      var lease := now + Seconds(EffectiveLeaseTimeout(r, cfg.defaultLeaseSec));
      if !r.status.IsHeld() || r.leaseExpiresAt.None? || r.leaseExpiresAt.value <= now {
        return Err(LeaseStateChanged);
      }
      rows := rows[id := r.(leaseExpiresAt := Some(lease))];
      return Ok(());
    }

    // The first half of a completion: the row is read and the columns to write are chosen.
    method ReadCompletion(id: Key, v: Verdict, now: Time) returns (result: Result<Completion, Error>)
      ensures result == if id in rows then Decide(rows[id], v, now) else Err(NotFound)
    {
      if id !in rows { return Err(NotFound); }
      var r := rows[id];
      if r.leasedBy != v.executor { return Err(OwnerMismatch); }
      if r.status.IsTerminal() { return Err(AlreadyCompleted); }
      var c := Completion(v.executor, Failed, r.attempt, None, None, v.message);
      if v.success {
        c := c.(status := Succeeded, completedAt := Some(now), errorMessage := "");
      } else if v.retryable && r.attempt <= r.maxRetries {
        var backoff := RetryBackoff(r.attempt);
        c := c.(status := RetryWaiting, nextRetryAt := Some(now + backoff), attempt := r.attempt + 1);
      } else {
        c := c.(completedAt := Some(now));
      }
      return Ok(c);
    }

    // The second half: the guarded write, on whatever the row has become.
    method WriteCompletion(id: Key, c: Completion, now: Time) returns (updated: bool)
      modifies this`rows
      ensures id !in old(rows) ==> !updated && rows == old(rows)
      ensures id in old(rows) ==>
        && updated == HeldBy(old(rows)[id], c.executor)
        && rows == old(rows)[id := Act(old(rows)[id], Write(c, now), cfg.defaultLeaseSec)]
    {
      updated := id in rows && rows[id].leasedBy == c.executor && rows[id].status.IsHeld();
      if updated {
        rows := rows[id := rows[id].(status := c.status, attempt := c.attempt, nextRetryAt := c.nextRetryAt,
                   completedAt := c.completedAt, leaseExpiresAt := None, leasedBy := "",
                   errorMessage := c.errorMessage)];
      }
    }

    method Receive(id: Key, e: Report)
      modifies this`rows
      ensures rows == ReceivedOne(old(rows), (id, e), cfg.defaultLeaseSec)
    {
      hide Act, Decide, Fires;
      match e
      case Do(action) =>
        match action {
          case MarkRunning(who, at) => var _ := MarkRunRunning(id, who, at);
          case Renew(who, at) => var _ := RenewRunLease(id, who, at);
          case Write(c, at) => var _ := WriteCompletion(id, c, at);
          case _ => assert false;
        }
      case Read(v, at) => var _ := ReadCompletion(id, v, at);
      case Complete(v, at) =>
        var read := ReadCompletion(id, v, at);
        if read.Ok? { var _ := WriteCompletion(id, read.value, at); }
      case _ => assert false;
    }

    method ReceiveAll(reports: Reports)
      modifies this`rows
      ensures rows == Received(old(rows), reports, cfg.defaultLeaseSec)
    {
      hide ReceivedOne;
      for i := 0 to |reports|
        invariant rows == Received(old(rows), reports[..i], cfg.defaultLeaseSec)
      {
        assert reports[..i + 1][..i] == reports[..i] && reports[..i + 1][i] == reports[i];
        Receive(reports[i].0, reports[i].1);
      }
      assert reports[..|reports|] == reports;
    }

    // ---------------------------------------------------------------- the cycle

    method FilterEnabled(online: seq<OnlineExecutor>, now: Time) returns (out: seq<OnlineExecutor>)
      ensures out == Usables(online, executors, now, cfg.heartbeatTimeout)
    {
      hide Dispatches;
      out := [];
      for i := 0 to |online|
        invariant out == Usables(online[..i], executors, now, cfg.heartbeatTimeout)
      {
        assert online[..i + 1][..i] == online[..i] && online[..i + 1][i] == online[i];
        var e := online[i];
        var row := if e.id in executors then Some(executors[e.id]) else None;
        if Dispatches(row, now, cfg.heartbeatTimeout) { out := out + [e]; }
      }
      assert online[..|online|] == online;
    }

    method SortById(online: seq<OnlineExecutor>) returns (sorted: seq<OnlineExecutor>)
      ensures SortedBy(sorted, ById) && multiset(sorted) == multiset(online) && |sorted| == |online|
    {
      ByIdOrders();
      sorted := Sort(online, ById);
      SameSize(sorted, online);
    }

    method PickFixed(info: Info, online: seq<OnlineExecutor>, world: World) returns (chosen: Result<string, string>)
      ensures chosen.Ok? <==> info.service.Some? && info.service.value in world.liveSlots
                              && FixedChoice(online, world.liveSlots[info.service.value], info.service.value).Some?
      ensures chosen.Ok? ==> Some(chosen.value) == FixedChoice(online, world.liveSlots[info.service.value],
          info.service.value)
      ensures chosen.Err? ==>
                (chosen.error == if info.service.None? then NO_SERVICE
                                 else if info.service.value !in world.liveSlots then NO_LIVE_SLOT
                                 else EXECUTOR_OFFLINE)
    {
      if info.service.None? { return Err(NO_SERVICE); }
      var service := info.service.value;
      if service !in world.liveSlots { return Err(NO_LIVE_SLOT); }
      var slot := world.liveSlots[service];
      for i := 0 to |online|
        invariant forall j | 0 <= j < i :: !Fits(online[j], OwnAt(slot, service))
      {
        if online[i].slot != slot || !online[i].serviceInstance || online[i].service != Some(service) { continue; }
        return Ok(online[i].id);
      }
      for i := 0 to |online|
        invariant forall j | 0 <= j < i :: !Fits(online[j], FreeAt(slot))
      {
        if online[i].slot == slot && !online[i].serviceInstance { return Ok(online[i].id); }
      }
      return Err(EXECUTOR_OFFLINE);
    }

    // May find an executor without a name, which the caller refuses.
    method PickExecutor(info: Info, online: seq<OnlineExecutor>, world: World) returns (chosen: Result<string, string>)
      requires online != []
      modifies this`cursors
      ensures cursors == CursorsAfter(old(cursors), info, online)
      ensures (if chosen == Ok("") then Err(EXECUTOR_OFFLINE) else chosen)
              == Choice(info, online, CursorOf(old(cursors), TurnOf(info)), world)
      ensures info.policy == RoundRobin ==> chosen == Ok(NextTurn(online, CursorOf(old(cursors), TurnOf(info))))
    {
      hide FixedChoice, StartIndex;
      if info.policy == FixedLiveSlot {
        chosen := PickFixed(info, online, world);
        return;
      }
      var start := FindTurn(TurnOf(info), online);
      cursors := cursors[TurnOf(info) := online[start].id];
      return Ok(online[start].id);
    }

    method FindTurn(key: TurnKey, online: seq<OnlineExecutor>) returns (start: nat)
      requires online != []
      ensures start == StartIndex(online, CursorOf(cursors, key))
    {
      start := 0;
      if key in cursors && cursors[key] != "" {
        var i := 0;
        while i < |online| && online[i].id != cursors[key]
          invariant 0 <= i <= |online|
          invariant forall j | 0 <= j < i :: !Fits(online[j], WithId(cursors[key]))
        {
          i := i + 1;
        }
        assert First(online, WithId(cursors[key])) == i;
        if i < |online| {
          WrapIsRemainder(i + 1, |online|);
          start := (i + 1) % |online|;
        }
      }
    }

    // The chosen executor, "" when the claim found the run taken, or the reason there is none. The
    // choice is made among the connected, enabled and recently seen executors, sorted by id.
    method PickExecutorAndClaim(id: Key, listed: Run, world: World, now: Time)
      returns (picked: Result<string, string>, ghost ranking: seq<OnlineExecutor>)
      requires id in rows && id in infos && SameLease(rows[id], listed)
      modifies this`rows, this`cursors
      ensures RankingOf(ranking, infos[id].group, world, executors, now, cfg.heartbeatTimeout)
      ensures cursors == CursorsAfter(old(cursors), infos[id], ranking)
      ensures var choice := Choice(infos[id], ranking, CursorOf(old(cursors), TurnOf(infos[id])), world);
        && (choice.Err? ==> picked == choice && rows == old(rows))
        && (choice.Ok? ==>
              && rows == old(rows)[id := Act(old(rows[id]), Claim(choice.value, now), cfg.defaultLeaseSec)]
              && picked == Ok(if Claimable(old(rows[id]), now) then choice.value else ""))
    {
      hide Claimable, StartIndex, SortedBy, NextTurn, Usable, FixedChoice, Act, CursorsAfter, Choice;
      var info := infos[id];
      ranking := [];
      NothingSorted(ById);
      NobodyThere(info, cursors, world);
      var connected := Connected(world, info.group);
      if connected == [] { return Err(EXECUTOR_OFFLINE), []; }
      var online := FilterEnabled(connected, now);
      if online == [] { return Err(EXECUTOR_OFFLINE), []; }
      var sorted := SortById(online);
      ranking := sorted;
      var chosen := PickExecutor(info, sorted, world);
      if chosen.Err? { return Err(chosen.error), ranking; }
      if chosen.value == "" { return Err(EXECUTOR_OFFLINE), ranking; }
      var lease := now + Seconds(EffectiveLeaseTimeout(listed, cfg.defaultLeaseSec));
      var claimed := ClaimRun(id, chosen.value, lease, now);
      if !claimed { return Ok(""), ranking; }
      return Ok(chosen.value), ranking;
    }

    // Goes by the row as it was listed; executors' reports may have changed it since, and may change
    // it between the two halves of what is done with it.
    method DispatchRun(id: Key, listed: Run, world: World, now: Time) returns (ghost ranking: seq<OnlineExecutor>)
      requires id in rows && id in infos && SameLease(rows[id], listed)
      modifies this`rows, this`cursors
      ensures !ShouldFailExpiredRun(listed, now) ==>
                RankingOf(ranking, infos[id].group, world, executors, now, cfg.heartbeatTimeout)
      ensures cursors == if ShouldFailExpiredRun(listed, now) then old(cursors)
                         else CursorsAfter(old(cursors), infos[id], ranking)
      ensures var cursor := CursorOf(old(cursors), TurnOf(infos[id]));
        var plan := PlanOf(listed, infos[id], ranking, cursor, world, now);
        rows == Handled(old(rows), HandlingOf(id, plan, world, now), cfg.defaultLeaseSec)
    {
      hide RankingOf, Choice, CursorsAfter, Claimable, Act, Received, LeaseUntil, PlanOf, HandlingOf, CursorOf, TurnOf;
      hide ShouldFailExpiredRun, ReportsFor;
      ghost var info, cursor := infos[id], CursorOf(cursors, TurnOf(infos[id]));
      ReceivedKeeps(rows, ReportsFor(world.early, id), cfg.defaultLeaseSec, id);
      ReceiveAll(ReportsFor(world.early, id));
      ghost var here := rows;
      if ShouldFailExpiredRun(listed, now) {
        ranking := [];
        var _ := MarkExpiredRunFailed(id, now, EXHAUSTED);
        ReceiveAll(ReportsFor(world.late, id));
        HandlingIs(id, listed, info, ranking, cursor, world, now);
        return;
      }
      var picked: Result<string, string>;
      picked, ranking := PickExecutorAndClaim(id, listed, world, now);
      HandlingIs(id, listed, info, ranking, cursor, world, now);
      if picked.Err? {
        var stored := rows[id];
        ReceiveAll(ReportsFor(world.late, id));
        rows := rows[id := stored.(errorMessage := picked.error)];
        return;
      }
      ReceiveAll(ReportsFor(world.late, id));
      if picked.value == "" { return; }
      if id in world.refused {
        var _ := MarkRunDispatchFailed(id, picked.value, world.refused[id], now);
      }
    }

    method ListDispatchableRuns(now: Time, limit: nat) returns (ids: seq<Key>)
      requires rows.Keys <= infos.Keys
      ensures Listing(rows, infos, now, limit, ids)
    {
      hide Dispatchable, Listing, Sooner, SortedBy;
      var due := set id | id in rows && Dispatchable(rows[id], now) :: Candidate(infos[id].scheduledAt, id);
      SoonerOrders<Key>();
      var sorted := SortSet(due, Sooner);
      var n := if |sorted| <= limit then |sorted| else limit;
      ids := seq(n, i requires 0 <= i < n => sorted[i].key);
      CutIsListing(rows, infos, now, limit, sorted, ids);
    }

    // One cycle: the listed runs, in order, each with the ranking found for it.
    method DispatchDueRuns(world: World, now: Time, limit: nat) returns (ghost v: Cycle)
      requires rows.Keys <= infos.Keys
      modifies this`rows, this`cursors
      ensures v == Cycle(old(rows), infos, v.ids, v.rankings, world, executors, now, cfg.heartbeatTimeout) && Whole(v)
      ensures Listing(old(rows), infos, now, limit, v.ids)
      ensures Ranked(v, |v.ids|)
      ensures rows == RowsAfter(v, old(cursors), |v.ids|, cfg.defaultLeaseSec)
      ensures cursors == Cursors(v, old(cursors), |v.ids|)
    {
      hide Progress, Ranked, RankingOf, CursorsAfter, Dispatchable, PlanOf, HandlingOf, Handled, Cursors, RowsAfter;
      hide ShouldFailExpiredRun, CursorOf, TurnOf;
      var listed := rows;
      var ids := ListDispatchableRuns(now, limit);
      assert (forall id | id in ids :: id in rows) && Distinctly(ids);
      hide Listing, Distinctly;
      v := Cycle(rows, infos, ids, map id | id in rows :: [], world, executors, now, cfg.heartbeatTimeout);
      NothingYet(v, cursors, cfg.defaultLeaseSec);
      var n := 0;
      while n < |ids|
        invariant 0 <= n <= |ids|
        invariant v == Cycle(old(rows), infos, ids, v.rankings, world, executors, now, cfg.heartbeatTimeout)
        invariant v.rankings.Keys == old(rows).Keys
        invariant Progress(v, old(cursors), n, rows, cursors, cfg.defaultLeaseSec)
      {
        ghost var before, rowsBefore, cursorsBefore := v, rows, cursors;
        LeaseAsBefore(v, old(cursors), n, rows, cursors, cfg.defaultLeaseSec);
        ghost var ranking := DispatchRun(ids[n], listed[ids[n]], world, now);
        v := v.(rankings := v.rankings[ids[n] := ranking]);
        Advance(before, v, old(cursors), n, rowsBefore, cursorsBefore, rows, cursors, cfg.defaultLeaseSec);
        n := n + 1;
      }
      Finished(v, old(cursors), rows, cursors, cfg.defaultLeaseSec);
    }
  }

  // What a cycle has reached after its first n listed runs.
  ghost predicate Progress(v: Cycle, start: map<TurnKey, string>, n: nat,
                           rows: map<Key, Run>, cursors: map<TurnKey, string>, fallback: int)
    requires Whole(v) && n <= |v.ids|
  {
    Ranked(v, n) && rows == RowsAfter(v, start, n, fallback) && cursors == Cursors(v, start, n)
  }

  lemma NothingYet(v: Cycle, cursors: map<TurnKey, string>, fallback: int)
    requires Whole(v)
    ensures Progress(v, cursors, 0, v.rows, cursors, fallback)
  {
  }

  lemma Finished(v: Cycle, start: map<TurnKey, string>, rows: map<Key, Run>, cursors: map<TurnKey, string>,
      fallback: int)
    requires Whole(v) && Progress(v, start, |v.ids|, rows, cursors, fallback)
    ensures Ranked(v, |v.ids|) && rows == RowsAfter(v, start, |v.ids|, fallback)
        && cursors == Cursors(v, start, |v.ids|)
  {
    hide Ranked, RowsAfter, Cursors;
  }

  lemma LeaseAsBefore(v: Cycle, start: map<TurnKey, string>, n: nat,
                      rows: map<Key, Run>, cursors: map<TurnKey, string>, fallback: int)
    requires Whole(v) && n < |v.ids| && Progress(v, start, n, rows, cursors, fallback)
    ensures v.ids[n] in rows && SameLease(rows[v.ids[n]], v.rows[v.ids[n]])
  {
    hide Ranked, RowsAfter, Cursors;
    RowsKeepLease(v, start, n, v.ids[n], fallback);
  }

  lemma Advance(a: Cycle, b: Cycle, start: map<TurnKey, string>, n: nat, rows: map<Key, Run>,
                cursors: map<TurnKey, string>, rows': map<Key, Run>, cursors': map<TurnKey, string>, fallback: int)
    requires Whole(a) && Whole(b) && n < |a.ids| && Distinctly(a.ids) && b == a.(rankings := b.rankings)
    requires b.rankings == a.rankings[a.ids[n] := b.rankings[a.ids[n]]]
    requires Progress(a, start, n, rows, cursors, fallback) && a.ids[n] in rows
    requires var r, info, ranking := a.rows[a.ids[n]], a.infos[a.ids[n]], b.rankings[a.ids[n]];
      && (!ShouldFailExpiredRun(r, a.now) ==> RankingOf(ranking, info.group, a.world, a.executors, a.now, a.timeout))
      && var plan := PlanOf(r, info, ranking, CursorOf(cursors, TurnOf(info)), a.world, a.now);
      && rows' == Handled(rows, HandlingOf(a.ids[n], plan, a.world, a.now), fallback)
      && cursors' == if ShouldFailExpiredRun(r, a.now) then cursors else CursorsAfter(cursors, info, ranking)
    ensures Progress(b, start, n + 1, rows', cursors', fallback)
  {
    hide Ranked, RowsAfter, Cursors, RankingOf, PlanOf, HandlingOf, Handled, CursorsAfter, ShouldFailExpiredRun;
    hide CursorOf, TurnOf;
    OneMoreRanked(a, b, n);
    assert forall i | 0 <= i < n :: a.ids[i] != a.ids[n];
    SamePrefix(a, b, start, n, fallback);
    OneMore(b, start, n, fallback);
  }

  lemma OneMoreRanked(a: Cycle, b: Cycle, n: nat)
    requires Whole(a) && Whole(b) && n < |a.ids| && Distinctly(a.ids) && b == a.(rankings := b.rankings)
    requires b.rankings == a.rankings[a.ids[n] := b.rankings[a.ids[n]]]
    requires Ranked(a, n)
    requires !ShouldFailExpiredRun(a.rows[a.ids[n]], a.now) ==>
      RankingOf(b.rankings[a.ids[n]], a.infos[a.ids[n]].group, a.world, a.executors, a.now, a.timeout)
    ensures Ranked(b, n + 1)
  {
    hide RankingOf, ShouldFailExpiredRun;
  }

  // The rows after the first n listed runs.
  function RowsAfter(v: Cycle, cursors: map<TurnKey, string>, n: nat, fallback: int): (rows: map<Key, Run>)
    requires Whole(v) && n <= |v.ids|
    ensures rows.Keys == v.rows.Keys
  {
    if n == 0 then v.rows else Handled(RowsAfter(v, cursors, n - 1, fallback), HandlingAt(v, cursors, n - 1), fallback)
  }

  lemma {:induction false} RowsKeepLease(v: Cycle, cursors: map<TurnKey, string>, n: nat, key: Key, fallback: int)
    requires Whole(v) && n <= |v.ids| && key in v.rows
    ensures SameLease(RowsAfter(v, cursors, n, fallback)[key], v.rows[key])
  {
    hide Handled, HandlingAt;
    if n > 0 {
      RowsKeepLease(v, cursors, n - 1, key, fallback);
      HandledKeeps(RowsAfter(v, cursors, n - 1, fallback), HandlingAt(v, cursors, n - 1), fallback, key);
    }
  }

  predicate Distinctly(ids: seq<Key>) {
    forall i, j | 0 <= i < j < |ids| :: ids[i] != ids[j]
  }

  // ---------------------------------------------------------------- a cycle from each row's side

  // What happens to a row while the first n listed runs are handled.
  function History(v: Cycle, cursors: map<TurnKey, string>, n: nat, fallback: int, key: Key): seq<Event>
    requires Whole(v) && n <= |v.ids|
  {
    if n == 0 then []
    else
      History(v, cursors, n - 1, fallback, key)
      + EventsOf(RowsAfter(v, cursors, n - 1, fallback), HandlingAt(v, cursors, n - 1), fallback, key)
  }

  lemma {:induction false} RowIsHistory(v: Cycle, cursors: map<TurnKey, string>, n: nat, s: System, key: Key)
    requires Whole(v) && n <= |v.ids| && key in v.rows && Runs(s, v.rows[key], s.fallback)
    ensures Runs(Steps(s, History(v, cursors, n, s.fallback, key)), RowsAfter(v, cursors, n, s.fallback)[key],
        s.fallback)
  {
    hide HandlingAt, EventsOf, Steps, Handled, AdmissibleSteps;
    NoSteps(s);
    if n > 0 {
      var before, rows := History(v, cursors, n - 1, s.fallback, key), RowsAfter(v, cursors, n - 1, s.fallback);
      RowIsHistory(v, cursors, n - 1, s, key);
      HandledRow(Steps(s, before), rows, HandlingAt(v, cursors, n - 1), key);
      StepsJoin(s, before, EventsOf(rows, HandlingAt(v, cursors, n - 1), s.fallback, key));
    }
  }

  // Runs that are not being handled get reports alone.
  lemma {:induction false} OnlyReports(v: Cycle, cursors: map<TurnKey, string>, n: nat, fallback: int, key: Key)
    requires Whole(v) && n <= |v.ids| && key !in v.ids[..n]
    ensures AllReports(History(v, cursors, n, fallback, key))
  {
    hide HandlingAt, Handled, Mine, Received;
    if n > 0 {
      assert v.ids[n - 1] in v.ids[..n] && v.ids[..n - 1] <= v.ids[..n];
      OnlyReports(v, cursors, n - 1, fallback, key);
    }
  }

  lemma {:induction false} ListedHistory(v: Cycle, cursors: map<TurnKey, string>, k: nat, n: nat, s: System)
    returns (early: seq<Event>, late: seq<Event>, rest: seq<Event>)
    requires Whole(v) && k < n <= |v.ids| && Distinctly(v.ids) && Runs(s, v.rows[v.ids[k]], s.fallback)
    ensures AllReports(early) && AllReports(rest) && late == Mine(HandlingAt(v, cursors, k).late, v.ids[k])
    ensures History(v, cursors, n, s.fallback, v.ids[k]) ==
            Listed(HandlingAt(v, cursors, k), early, late, Steps(s, early).run) + rest
    decreases n
  {
    hide HandlingAt, Handled, Mine, Received, Steps, Opening, Closing, AdmissibleSteps, Listed;
    var key, h := v.ids[n - 1], HandlingAt(v, cursors, n - 1);
    var before, rows := History(v, cursors, n - 1, s.fallback, v.ids[k]), RowsAfter(v, cursors, n - 1, s.fallback);
    if k < n - 1 {
      early, late, rest := ListedHistory(v, cursors, k, n - 1, s);
      MoreReports(Listed(HandlingAt(v, cursors, k), early, late, Steps(s, early).run), rest,
                  Mine(h.early, v.ids[k]), Mine(h.late, v.ids[k]));
      rest := rest + (Mine(h.early, v.ids[k]) + [] + Mine(h.late, v.ids[k]) + []);
    } else {
      assert key !in v.ids[..k];
      OnlyReports(v, cursors, k, s.fallback, key);
      RowIsHistory(v, cursors, k, s, key);
      early, late, rest := before + Mine(h.early, key), Mine(h.late, key), [];
      StepsJoin(s, before, Mine(h.early, key));
      ReceivedRow(Steps(s, before), rows, h.early, key);
      ListedParts(h, before, Mine(h.early, key), late, Steps(s, early).run);
    }
  }

  lemma MoreReports(handled: seq<Event>, rest: seq<Event>, early: seq<Event>, late: seq<Event>)
    requires AllReports(rest) && AllReports(early) && AllReports(late)
    ensures (handled + rest) + (early + [] + late + []) == handled + (rest + (early + [] + late + []))
    ensures AllReports(rest + (early + [] + late + []))
  {
  }

  lemma ListedParts(h: Handling, before: seq<Event>, early: seq<Event>, late: seq<Event>, row: Run)
    ensures before + (early + [Opening(h)] + late + Closing(h, row)) == Listed(h, before + early, late, row) + []
  {
    hide Opening, Closing;
  }

  // Reports and one handling, in this order.
  ghost predicate HandledOnce(h: Handling, s: System, es: seq<Event>) {
    exists early, late, rest ::
      && AllReports(early) && AllReports(late) && AllReports(rest)
      && es == Listed(h, early, late, Steps(s, early).run) + rest
  }

  lemma ListedIsHandledOnce(v: Cycle, cursors: map<TurnKey, string>, s: System, k: nat)
    requires Whole(v) && Distinctly(v.ids) && k < |v.ids| && Runs(s, v.rows[v.ids[k]], s.fallback)
    ensures HandledOnce(HandlingAt(v, cursors, k), s, History(v, cursors, |v.ids|, s.fallback, v.ids[k]))
  {
    hide Steps, AllReports, Listed, HandlingAt, History;
    var early, late, rest := ListedHistory(v, cursors, k, |v.ids|, s);
  }

  // The engine touches the runs it listed and no other: to the others only reports happen, and to
  // each of them reports and one handling.
  lemma CycleTouchesListed(v: Cycle, cursors: map<TurnKey, string>, s: System, key: Key)
    requires Whole(v) && Distinctly(v.ids) && key in v.rows && Runs(s, v.rows[key], s.fallback)
    ensures var es := History(v, cursors, |v.ids|, s.fallback, key);
      && Steps(s, es).run == RowsAfter(v, cursors, |v.ids|, s.fallback)[key]
      && (key !in v.ids ==> AllReports(es))
      && forall k: nat | k < |v.ids| && v.ids[k] == key :: HandledOnce(HandlingAt(v, cursors, k), s, es)
  {
    hide Steps, AllReports, HandledOnce, HandlingAt, History, RowsAfter;
    RowIsHistory(v, cursors, |v.ids|, s, key);
    assert v.ids[..|v.ids|] == v.ids;
    if key !in v.ids { OnlyReports(v, cursors, |v.ids|, s.fallback, key); }
    forall k: nat | k < |v.ids| && v.ids[k] == key
      ensures HandledOnce(HandlingAt(v, cursors, k), s, History(v, cursors, |v.ids|, s.fallback, key))
    {
      ListedIsHandledOnce(v, cursors, s, k);
    }
  }

  // A cycle as it happens to one row.
  function CycleEvents(v: Cycle, cursors: map<TurnKey, string>, fallback: int, key: Key): seq<Event>
    requires Whole(v)
  {
    [List(v.now)] + History(v, cursors, |v.ids|, fallback, key)
  }

  // What a cycle goes by is what it finds.
  predicate Sees(v: Cycle, s: System, key: Key) {
    && Whole(v) && Distinctly(v.ids) && key in v.rows && Runs(s, v.rows[key], s.fallback)
    && (key in v.ids ==> Dispatchable(v.rows[key], v.now))
  }

  lemma HistoryIsAdmissible(v: Cycle, cursors: map<TurnKey, string>, s: System, key: Key)
    requires Inv(s) && Sees(v, s, key) && v.now <= s.now
    requires Timely(s, History(v, cursors, |v.ids|, s.fallback, key))
    ensures AdmissibleSteps(s, History(v, cursors, |v.ids|, s.fallback, key))
  {
    hide Inv, Steps, AllReports, Listed, HandlingAt, History, RowsAfter, Timely, AdmissibleSteps, OnTime, Dispatchable;
    var es := History(v, cursors, |v.ids|, s.fallback, key);
    if key in v.ids {
      var k: nat :| k < |v.ids| && v.ids[k] == key;
      var h := HandlingAt(v, cursors, k);
      var early, late, rest := ListedHistory(v, cursors, k, |v.ids|, s);
      var handled := Listed(h, early, late, Steps(s, early).run);
      TimelyJoin(s, handled, rest);
      ListedRowOnTime(s, v.now);
      ListedIsAdmissible(s, h, early, late);
      TimelyReports(Steps(s, handled), rest);
      StepsJoin(s, handled, rest);
    } else {
      assert v.ids[..|v.ids|] == v.ids;
      OnlyReports(v, cursors, |v.ids|, s.fallback, key);
      TimelyReports(s, es);
    }
  }

  // If the reports come in time, then with whatever reports arrive meanwhile, what a cycle does to a
  // row is admissible, and leaves the row it is specified to leave.
  lemma CycleIsAdmissible(v: Cycle, cursors: map<TurnKey, string>, s: System, key: Key)
    requires Inv(s) && Sees(v, s, key) && Timely(s, CycleEvents(v, cursors, s.fallback, key))
    ensures var es := CycleEvents(v, cursors, s.fallback, key);
      && AdmissibleSteps(s, es) && Inv(Steps(s, es))
      && Runs(Steps(s, es), RowsAfter(v, cursors, |v.ids|, s.fallback)[key], s.fallback)
  {
    hide Inv, Steps, History, RowsAfter, Timely, AdmissibleSteps, Dispatchable, Whole, Distinctly;
    var es, list := History(v, cursors, |v.ids|, s.fallback, key), List(v.now);
    var t := Step(s, list);
    StepsCons(s, list, es);
    StepInv(s, list);
    TimelyJoin(s, [list], es);
    OneEvent(s, list);
    HistoryIsAdmissible(v, cursors, t, key);
    RowIsHistory(v, cursors, |v.ids|, t, key);
    StepsInv(t, es);
  }

  // What becomes of a listed run: what its handling leaves, moved on by later reports at most.
  lemma CycleOutcome(v: Cycle, cursors: map<TurnKey, string>, s: System, k: nat)
    requires k < |v.ids| && Inv(s) && Sees(v, s, v.ids[k]) && v.now <= s.now
    requires Timely(s, History(v, cursors, |v.ids|, s.fallback, v.ids[k]))
    ensures var h := HandlingAt(v, cursors, k);
      exists row, left ::
      && After(v.rows[v.ids[k]], row) && Leaves(h, row, left, s.fallback, h.late == [])
      && After(left, RowsAfter(v, cursors, |v.ids|, s.fallback)[v.ids[k]])
  {
    hide Inv, Steps, AllReports, Listed, HandlingAt, History, RowsAfter, Timely, AdmissibleSteps, OnTime, Dispatchable;
    hide Leaves, After;
    var key, h := v.ids[k], HandlingAt(v, cursors, k);
    var early, late, rest := ListedHistory(v, cursors, k, |v.ids|, s);
    var handled := Listed(h, early, late, Steps(s, early).run);
    HistoryIsAdmissible(v, cursors, s, key);
    RowIsHistory(v, cursors, |v.ids|, s, key);
    StepsJoin(s, handled, rest);
    assert Mine([], key) == [];
    HandlingOutcome(s, h, early, late, h.late == []);
    ListedSteps(s, h, early, late);
    ReportsMoveOn(s, early);
    StepsInv(s, handled);
    ReportsMoveOn(Steps(s, handled), rest);
  }

  // ---------------------------------------------------------------- any history of cycles

  // The reports since the cycle before, and a cycle.
  datatype Round = Round(reports: seq<Event>, cycle: Cycle, cursors: map<TurnKey, string>)

  function LifeOf(rounds: seq<Round>, fallback: int, key: Key): seq<Event>
    requires forall r | r in rounds :: Whole(r.cycle)
  {
    if rounds == [] then []
    else
      var r := rounds[0];
      r.reports + CycleEvents(r.cycle, r.cursors, fallback, key) + LifeOf(rounds[1..], fallback, key)
  }

  // Each cycle sees the row as the cycles and reports before it left it.
  predicate Unbroken(s: System, rounds: seq<Round>, key: Key)
    decreases |rounds|
  {
    rounds != [] ==>
      var r := rounds[0];
      && AllReports(r.reports) && Sees(r.cycle, Steps(s, r.reports), key)
      && Unbroken(Steps(s, r.reports + CycleEvents(r.cycle, r.cursors, s.fallback, key)), rounds[1..], key)
  }

  // Over any history of cycles, with reports arriving before, between and during them, all that
  // happens to a run is admissible: what is proved of every interleaving holds of the engine.
  lemma {:induction false} LifeIsAdmissible(s: System, rounds: seq<Round>, key: Key)
    requires Inv(s) && s.noting.None? && (forall r | r in rounds :: Whole(r.cycle)) && Unbroken(s, rounds, key)
    requires Timely(s, LifeOf(rounds, s.fallback, key))
    ensures AdmissibleSteps(s, LifeOf(rounds, s.fallback, key))
    ensures Inv(Steps(s, LifeOf(rounds, s.fallback, key)))
    decreases |rounds|
  {
    hide Inv, Steps, AllReports, CycleEvents, Sees, Timely, AdmissibleSteps, Whole;
    NoSteps(s);
    if rounds != [] {
      var r := rounds[0];
      var a := Steps(s, r.reports);
      var es := CycleEvents(r.cycle, r.cursors, s.fallback, key);
      var rest := LifeOf(rounds[1..], s.fallback, key);
      TimelyJoin(s, r.reports + es, rest);
      TimelyJoin(s, r.reports, es);
      TimelyReports(s, r.reports);
      ReportsMoveOn(s, r.reports);
      CycleIsAdmissible(r.cycle, r.cursors, a, key);
      StepsJoin(s, r.reports, es);
      StepsJoin(s, r.reports + es, rest);
      LifeIsAdmissible(Steps(a, es), rounds[1..], key);
    }
  }

  lemma OneMore(v: Cycle, cursors: map<TurnKey, string>, n: nat, fallback: int)
    requires Whole(v) && n < |v.ids|
    ensures var id, here := v.ids[n], Cursors(v, cursors, n);
      var plan := PlanOf(v.rows[id], v.infos[id], v.rankings[id], CursorOf(here, TurnOf(v.infos[id])), v.world, v.now);
      && RowsAfter(v, cursors, n + 1, fallback)
         == Handled(RowsAfter(v, cursors, n, fallback), HandlingOf(id, plan, v.world, v.now), fallback)
      && Cursors(v, cursors, n + 1) == if ShouldFailExpiredRun(v.rows[id], v.now) then here
                                       else CursorsAfter(here, v.infos[id], v.rankings[id])
  {
    hide PlanOf, HandlingOf, CursorsAfter, ShouldFailExpiredRun, Handled;
  }

  lemma SoonerOrders<K(!new)>()
    ensures TotalOrder(Sooner<K>)
  {
  }

  // The first of the sorted candidates are what is listed.
  lemma CutIsListing(rows: map<Key, Run>, infos: map<Key, Info>, now: Time, limit: nat,
                     sorted: seq<Candidate<Key>>, ids: seq<Key>)
    requires rows.Keys <= infos.Keys && SortedBy(sorted, Sooner)
    requires forall c :: c in sorted <==>
      c.key in rows && Dispatchable(rows[c.key], now) && c.at == infos[c.key].scheduledAt
    requires forall i, j | 0 <= i < j < |sorted| :: sorted[i] != sorted[j]
    requires |ids| == (if |sorted| <= limit then |sorted| else limit)
    requires forall i | 0 <= i < |ids| :: ids[i] == sorted[i].key
    ensures Listing(rows, infos, now, limit, ids)
  {
    hide Dispatchable, SortedBy;
    forall i | 0 <= i < |ids|
      ensures ids[i] in rows && Dispatchable(rows[ids[i]], now) && infos[ids[i]].scheduledAt == sorted[i].at
    {
      assert sorted[i] in sorted;
    }
    forall i, j | 0 <= i < j < |sorted| ensures sorted[i].at <= sorted[j].at { InOrder(sorted, i, j); }
    forall i, j | 0 <= i < j < |ids| ensures ids[i] != ids[j] {
      assert sorted[i] != sorted[j];
    }
    forall id | id in rows && Dispatchable(rows[id], now) && id !in ids
      ensures |ids| == limit && forall listed | listed in ids :: infos[listed].scheduledAt <= infos[id].scheduledAt
    {
      LeftOut(sorted, ids, Candidate(infos[id].scheduledAt, id));
    }
  }

  lemma InOrder<K>(sorted: seq<Candidate<K>>, i: nat, j: nat)
    requires SortedBy(sorted, Sooner) && i < j < |sorted|
    ensures sorted[i].at <= sorted[j].at
  {
    assert Sooner(sorted[i], sorted[j]);
  }

  lemma LeftOut<K>(sorted: seq<Candidate<K>>, ids: seq<K>, c: Candidate<K>)
    requires c in sorted && c.key !in ids && |ids| <= |sorted|
    requires forall i | 0 <= i < |ids| :: ids[i] == sorted[i].key
    requires forall i, j | 0 <= i < j < |sorted| :: sorted[i].at <= sorted[j].at
    ensures |ids| < |sorted| && forall i | 0 <= i < |ids| :: sorted[i].at <= c.at
  {
    var k :| 0 <= k < |sorted| && sorted[k] == c;
  }

  // Later rankings do not matter to earlier runs.
  lemma {:induction false} SamePrefix(a: Cycle, b: Cycle, cursors: map<TurnKey, string>, n: nat, fallback: int)
    requires Whole(a) && n <= |a.ids| && b == a.(rankings := b.rankings) && Whole(b)
    requires forall i | 0 <= i < n :: a.rankings[a.ids[i]] == b.rankings[a.ids[i]]
    ensures Cursors(a, cursors, n) == Cursors(b, cursors, n)
    ensures RowsAfter(a, cursors, n, fallback) == RowsAfter(b, cursors, n, fallback)
  {
    hide Handled, HandlingAt, Cursors;
    SameCursors(a, b, cursors, n);
    if n > 0 {
      SamePrefix(a, b, cursors, n - 1, fallback);
      SameHandling(a, b, cursors, n - 1);
    }
  }

  lemma {:induction false} SameCursors(a: Cycle, b: Cycle, cursors: map<TurnKey, string>, n: nat)
    requires Whole(a) && n <= |a.ids| && b == a.(rankings := b.rankings) && Whole(b)
    requires forall i | 0 <= i < n :: a.rankings[a.ids[i]] == b.rankings[a.ids[i]]
    ensures Cursors(a, cursors, n) == Cursors(b, cursors, n)
  {
    hide CursorsAfter, ShouldFailExpiredRun;
    if n > 0 { SameCursors(a, b, cursors, n - 1); }
  }

  lemma SameHandling(a: Cycle, b: Cycle, cursors: map<TurnKey, string>, n: nat)
    requires Whole(a) && n < |a.ids| && b == a.(rankings := b.rankings) && Whole(b)
    requires a.rankings[a.ids[n]] == b.rankings[a.ids[n]] && Cursors(a, cursors, n) == Cursors(b, cursors, n)
    ensures HandlingAt(a, cursors, n) == HandlingAt(b, cursors, n)
  {
    hide Cursors, PlanOf, HandlingOf, ShouldFailExpiredRun, CursorOf;
  }
}
