/** Deleting services. Only the service's own row goes; the rows of its releases, tasks and instances
    stay behind, and the operations of the release service go on finding them. */
module ReleaseDeletion {
  import opened Wrappers
  import opened ReleaseModel
  import opened ReleaseInvariant
  import opened ReleaseTheorems

  datatype Change = Op(event: Event) | Delete(service: Id)

  predicate Deletes(s: State, c: Change) {
    c.Delete? && c.service in s.services && !Open(s, c.service)
  }

  function Changed(s: State, c: Change): State {
    match c
    case Op(e) => Apply(s, e)
    case Delete(service) => if Deletes(s, c) then s.(services := s.services - {service}) else s
  }

  function Changes(s: State, cs: seq<Change>): State
    decreases |cs|
  {
    if cs == [] then s else Changes(Changed(s, cs[0]), cs[1..])
  }

  // The services deleted over a run.
  function Deleted(s: State, cs: seq<Change>): set<Id>
    decreases |cs|
  {
    if cs == [] then {}
    else (if Deletes(s, cs[0]) then {cs[0].service} else {}) + Deleted(Changed(s, cs[0]), cs[1..])
  }

  predicate AdmissibleChanges(s: State, cs: seq<Change>)
    decreases |cs|
  {
    cs == [] || ((cs[0].Op? ==> Admissible(s, cs[0].event)) && AdmissibleChanges(Changed(s, cs[0]), cs[1..]))
  }

  // ---------------------------------------------------------------- rows without some services

  function KeptReleases(releases: map<Id, Release>, gone: set<Id>): map<Id, Release> {
    map id | id in releases && releases[id].service !in gone :: releases[id]
  }

  function KeptTasks(tasks: map<Id, Task>, gone: set<Id>): map<Id, Task> {
    map t | t in tasks && tasks[t].service !in gone :: tasks[t]
  }

  function KeptInstances(instances: map<(Id, Slot), Instance>, gone: set<Id>): map<(Id, Slot), Instance> {
    map key | key in instances && key.0 !in gone :: instances[key]
  }

  function Without(s: State, gone: set<Id>): State {
    State(KeptReleases(s.releases, gone), KeptTasks(s.tasks, gone), KeptInstances(s.instances, gone), s.services - gone)
  }

  // Rows that refer to each other are of one service.
  ghost predicate Linked(s: State) {
    && (forall t | t in s.tasks ::
          s.tasks[t].release in s.releases && s.releases[s.tasks[t].release].service == s.tasks[t].service)
    && (forall id | id in s.releases && s.releases[id].task.Some? ::
          s.releases[id].task.value in s.tasks && s.tasks[s.releases[id].task.value].release == id)
    && (forall k | k in s.instances ::
          s.instances[k].release in s.releases && s.releases[s.instances[k].release].service == k.0)
  }

  // The event is about one of these services.
  predicate Concerns(s: State, e: Event, gone: set<Id>) {
    match e
    case CreatingService(service, _) => service in gone
    case EditingService(service, _) => service in gone
    case Creating(q) => q.service in gone
    case Starting(id, _) => id in s.releases && s.releases[id].service in gone
    case Retrying(id, _) => id in s.releases && s.releases[id].service in gone
    case Skipping(id, _) => id in s.releases && s.releases[id].service in gone
    case Shifting(id, _, _) => id in s.releases && s.releases[id].service in gone
    case RollingBack(id, _) => id in s.releases && s.releases[id].service in gone
    case Reporting(task, _, _, _) => task in s.tasks && s.tasks[task].service in gone
    case Recovering(_, _, _, _) => false
    case FailingStale(_) => false
  }

  // ---------------------------------------------------------------- the rows stay linked

  // The same rows, of the same services and with the same tasks.
  ghost predicate SameOwners(a: map<Id, Release>, b: map<Id, Release>) {
    a.Keys == b.Keys && forall id | id in a :: b[id].service == a[id].service && b[id].task == a[id].task
  }

  ghost predicate SameTenants(a: map<(Id, Slot), Instance>, b: map<(Id, Slot), Instance>) {
    a.Keys == b.Keys && forall key | key in a :: b[key].release == a[key].release
  }

  lemma SameLinks(s: State, s': State)
    requires Linked(s) && s'.tasks == s.tasks && SameOwners(s.releases, s'.releases)
        && SameTenants(s.instances, s'.instances)
    ensures Linked(s')
  {
  }

  lemma ClosingOwners(releases: map<Id, Release>, id: Id, service: Id, target: Slot, createdAt: Time, now: Time)
    ensures SameOwners(releases, CompleteSuperseded(releases, id, service, target, now))
    ensures SameOwners(releases, SkipQueuedBefore(releases, id, service, createdAt, now))
  {
  }

  // A release gets a new task.
  lemma LinkedTask(s: State, releases: map<Id, Release>, id: Id, task: Id, t: Task)
    requires Linked(s) && id in s.releases && id in releases && task !in s.tasks
    requires SameOwners(s.releases[id := releases[id]], releases)
    requires releases[id].task == Some(task) && releases[id].service == s.releases[id].service
    requires t.release == id && t.service == s.releases[id].service
    ensures Linked(s.(releases := releases, tasks := s.tasks[task := t]))
  {
  }

  lemma LaunchedOwners(
      before: map<Id, Release>, closed: map<Id, Release>, after: map<Id, Release>, id: Id, launched: Release)
    requires id in before && SameOwners(before, closed) && SameOwners(closed[id := launched], after)
    requires launched.service == before[id].service
    ensures id in after && SameOwners(before[id := after[id]], after)
    ensures after[id].task == launched.task && after[id].service == launched.service
  {
  }

  lemma SameAsBefore(releases: map<Id, Release>, instances: map<(Id, Slot), Instance>)
    ensures SameOwners(releases, releases) && SameTenants(instances, instances)
  {
  }

  lemma LinkedLaunch(s: State, id: Id, l: Launch, skipOlder: bool)
    requires Linked(s) && id in s.releases && s.releases[id].service in s.services && l.taskId !in s.tasks
    ensures Linked(LaunchRelease(s, id, l, skipOlder).0)
  {
    hide Linked, SameOwners, SameTenants, CompleteSuperseded, SkipQueuedBefore;
    var r, s' := s.releases[id], LaunchRelease(s, id, l, skipOlder).0;
    var retargeted := Retargeted(r, s.services[r.service]);
    var closed := CompleteSuperseded(s.releases, id, r.service, retargeted.target, l.now);
    ClosingOwners(s.releases, id, r.service, retargeted.target, 0, l.now);
    if !l.prepared {
      SameAsBefore(s.releases, s.instances);
      SameLinks(s, s');
    } else {
      var launched := retargeted.(task := Some(l.taskId), status := Dispatching);
      var stored := closed[id := if l.delivery == Rejected then Finish(launched, Failed, l.now) else launched];
      SameAsBefore(stored, s.instances);
      ClosingOwners(stored, id, r.service, retargeted.target, r.createdAt, l.now);
      LaunchedOwners(s.releases, closed, s'.releases, id, stored[id]);
      LinkedTask(s, s'.releases, id, l.taskId, s'.tasks[l.taskId]);
    }
  }

  lemma LinkedStart(s: State, id: Id, l: Launch)
    requires Linked(s) && l.taskId !in s.tasks
    ensures Linked(Start(s, id, l).0) && Linked(Retry(s, id, l).0)
  {
    hide LaunchRelease, Linked, HasActiveRelease, HasNewerSuccessfulRelease, HasTrafficSplitRelease;
    if id in s.releases && s.releases[id].service in s.services {
      LinkedLaunch(s, id, l, true);
      LinkedLaunch(s, id, l, false);
    }
  }

  lemma FlagsTenants(instances: map<(Id, Slot), Instance>, service: Id, live: Slot, previous: Slot)
    ensures SameTenants(instances, UpdateTrafficFlags(instances, service, live, previous))
  {
  }

  lemma PreviousOwners(
      releases: map<Id, Release>, instances: map<(Id, Slot), Instance>, id: Id, current: Release, now: Time)
    ensures SameOwners(releases, CompletePreviousLive(releases, instances, id, current, now))
  {
  }

  lemma OwnersKept(before: map<Id, Release>, after: map<Id, Release>, id: Id, r: Release)
    requires id in before && SameOwners(before, after) && r.service == before[id].service && r.task == before[id].task
    ensures SameOwners(before, after[id := r])
  {
  }

  lemma LinkedTraffic(s: State, id: Id, percent: int, now: Time)
    requires Linked(s)
    ensures Linked(SetTrafficPercent(s, id, percent, now).0) && Linked(Rollback(s, id, now).0)
  {
    hide UpdateTrafficFlags, CompletePreviousLive, Linked, WithLive, HealthyAt, SameOwners, SameTenants;
    SameAsBefore(s.releases, s.instances);
    if id in s.releases {
      var r := s.releases[id];
      var flags := UpdateTrafficFlags(s.instances, r.service, r.target, r.prevLive);
      var switched := Finish(r.(percent := 100, confirmed := true), Completed, now);
      var previous := CompletePreviousLive(s.releases, flags, id, switched, now);
      FlagsTenants(s.instances, r.service, r.target, r.prevLive);
      FlagsTenants(s.instances, r.service, r.prevLive, r.target);
      PreviousOwners(s.releases, flags, id, switched, now);
      OwnersKept(s.releases, previous, id, switched);
      OwnersKept(s.releases, s.releases, id, r.(percent := percent, confirmed := false, completedAt := None));
      OwnersKept(s.releases, s.releases, id, Finish(r.(percent := 0, confirmed := false), RolledBack, now));
      SameLinks(s, SetTrafficPercent(s, id, percent, now).0);
      SameLinks(s, Rollback(s, id, now).0);
    }
  }

  // A report changes one task, its release, and the instance of that release.
  lemma LinkedReport(s: State, s': State, task: Id, slot: Slot)
    requires Linked(s) && task in s.tasks && task in s'.tasks
    requires var t := s.tasks[task];
      && s'.tasks == s.tasks[task := s'.tasks[task]] && s'.tasks[task].release == t.release
      && s'.tasks[task].service == t.service && SameOwners(s.releases, s'.releases)
      && (s'.instances == s.instances
          || s'.instances == s.instances[(t.service, slot) := Instance(t.release, true, false, true)])
    ensures Linked(s')
  {
  }

  lemma LinkedUpdate(s: State, task: Id, report: Report, slot: Slot, now: Time)
    requires Linked(s)
    ensures Linked(HandleTaskUpdate(s, task, report, slot, now).0)
  {
    if task in s.tasks && s.tasks[task].release in s.releases {
      var s', r := HandleTaskUpdate(s, task, report, slot, now).0, s.tasks[task].release;
      TaskStays(s, task, report, slot, now);
      hide Linked, HandleTaskUpdate, SameOwners;
      SameAsBefore(s.releases, s.instances);
      OwnersKept(s.releases, s.releases, r, s'.releases[r]);
      LinkedReport(s, s', task, slot);
    }
    hide Linked, Late;
  }

  lemma LinkedScan(s: State, now: Time)
    requires Linked(s)
    ensures Linked(FailStaleTasks(s, now))
  {
    hide Stale;
  }

  lemma LinkedRecover(s: State, agent: Id, running: set<Id>, replayed: set<Id>, now: Time)
    requires Linked(s)
    ensures Linked(RecoverAgentTasks(s, agent, running, replayed, now))
  {
    hide Recoverable;
  }

  lemma RowsStay(s: State, t: State)
    requires Linked(s) && t == s.(services := t.services)
    ensures Linked(t)
  {
  }

  lemma LinkedCreate(s: State, q: Request)
    requires Linked(s) && q.releaseId !in s.releases
    ensures Linked(CreateFromCI(s, q).0)
  {
    hide Duplicates;
  }

  lemma LinkedSkip(s: State, id: Id, now: Time)
    requires Linked(s)
    ensures Linked(Skip(s, id, now).0)
  {
  }

  lemma LinkedStep(s: State, e: Event)
    requires Linked(s) && Admissible(s, e)
    ensures Linked(Apply(s, e))
  {
    hide Start, Retry, SetTrafficPercent, Rollback, HandleTaskUpdate, FailStaleTasks, RecoverAgentTasks;
    hide Linked, CreateFromCI, Skip;
    match e
    case CreatingService(_, _) => RowsStay(s, Apply(s, e));
    case EditingService(_, _) => RowsStay(s, Apply(s, e));
    case Creating(q) => LinkedCreate(s, q);
    case Skipping(id, now) => LinkedSkip(s, id, now);
    case Starting(id, l) => LinkedStart(s, id, l);
    case Retrying(id, l) => LinkedStart(s, id, l);
    case Shifting(id, percent, now) => LinkedTraffic(s, id, percent, now);
    case RollingBack(id, now) => LinkedTraffic(s, id, 0, now);
    case Reporting(task, report, slot, now) => LinkedUpdate(s, task, report, slot, now);
    case FailingStale(now) => LinkedScan(s, now);
    case Recovering(agent, running, replayed, now) => LinkedRecover(s, agent, running, replayed, now);
  }

  // ---------------------------------------------------------------- each operation minds one service

  lemma SameQueries(s: State, gone: set<Id>, service: Id)
    requires service !in gone
    ensures var w := Without(s, gone);
      && (HasActiveRelease(w.releases, service) <==> HasActiveRelease(s.releases, service))
      && (HasTrafficSplitRelease(w.releases, service) <==> HasTrafficSplitRelease(s.releases, service))
      && (forall at :: HasNewerSuccessfulRelease(w.releases, service, at) <==>
                         HasNewerSuccessfulRelease(s.releases, service, at))
      && forall online :: LaunchBlocked(w, service, online) == LaunchBlocked(s, service, online)
  {
    var w := Without(s, gone);
    forall id | id in s.releases && s.releases[id].service == service
      ensures id in w.releases && w.releases[id] == s.releases[id]
    {
    }
  }

  lemma KeptRelease(releases: map<Id, Release>, gone: set<Id>, id: Id, r: Release)
    requires id in releases ==> releases[id].service == r.service
    ensures KeptReleases(releases[id := r], gone) ==
            if r.service in gone then KeptReleases(releases, gone) else KeptReleases(releases, gone)[id := r]
  {
  }

  lemma KeptTask(tasks: map<Id, Task>, gone: set<Id>, t: Id, row: Task)
    requires t in tasks ==> tasks[t].service == row.service
    ensures KeptTasks(tasks[t := row], gone) ==
            if row.service in gone then KeptTasks(tasks, gone) else KeptTasks(tasks, gone)[t := row]
  {
  }

  lemma KeptInstance(instances: map<(Id, Slot), Instance>, gone: set<Id>, key: (Id, Slot), i: Instance)
    ensures KeptInstances(instances[key := i], gone) ==
            if key.0 in gone then KeptInstances(instances, gone) else KeptInstances(instances, gone)[key := i]
  {
  }

  lemma KeptSuperseded(releases: map<Id, Release>, gone: set<Id>, id: Id, service: Id, target: Slot, now: Time)
    ensures KeptReleases(CompleteSuperseded(releases, id, service, target, now), gone) ==
            if service in gone then KeptReleases(releases, gone)
            else CompleteSuperseded(KeptReleases(releases, gone), id, service, target, now)
  {
  }

  lemma KeptSkipped(releases: map<Id, Release>, gone: set<Id>, id: Id, service: Id, createdAt: Time, now: Time)
    ensures KeptReleases(SkipQueuedBefore(releases, id, service, createdAt, now), gone) ==
            if service in gone then KeptReleases(releases, gone)
            else SkipQueuedBefore(KeptReleases(releases, gone), id, service, createdAt, now)
  {
  }

  lemma ErasedLaunch(s: State, gone: set<Id>, id: Id, l: Launch, skipOlder: bool)
    requires id in s.releases && s.releases[id].service in s.services && l.taskId !in s.tasks
    ensures var s', w := LaunchRelease(s, id, l, skipOlder).0, Without(s, gone);
      Without(s', gone) == if s.releases[id].service in gone then w else LaunchRelease(w, id, l, skipOlder).0
  {
    hide CompleteSuperseded, SkipQueuedBefore, KeptReleases, KeptTasks, KeptInstances, SameOwners;
    var r := s.releases[id];
    var retargeted := Retargeted(r, s.services[r.service]);
    var closed := CompleteSuperseded(s.releases, id, r.service, retargeted.target, l.now);
    var launched := retargeted.(task := Some(l.taskId), status := Dispatching);
    var stored := closed[id := if l.delivery == Rejected then Finish(launched, Failed, l.now) else launched];
    var task := LaunchRelease(s, id, l, skipOlder).0.tasks;
    KeptIs(s, gone, id);
    ClosedService(s.releases, id, r.service, retargeted.target, l.now);
    KeptSuperseded(s.releases, gone, id, r.service, retargeted.target, l.now);
    KeptRelease(closed, gone, id, stored[id]);
    KeptSkipped(stored, gone, id, r.service, r.createdAt, l.now);
    if l.prepared { KeptTask(s.tasks, gone, l.taskId, task[l.taskId]); }
  }

  lemma KeptIs(s: State, gone: set<Id>, id: Id)
    ensures id in KeptReleases(s.releases, gone) <==> id in s.releases && s.releases[id].service !in gone
    ensures id in KeptReleases(s.releases, gone) ==> KeptReleases(s.releases, gone)[id] == s.releases[id]
    ensures id in KeptTasks(s.tasks, gone) <==> id in s.tasks && s.tasks[id].service !in gone
    ensures id in KeptTasks(s.tasks, gone) ==> KeptTasks(s.tasks, gone)[id] == s.tasks[id]
  {
  }

  lemma ClosedService(releases: map<Id, Release>, id: Id, service: Id, target: Slot, now: Time)
    requires id in releases
    ensures var closed := CompleteSuperseded(releases, id, service, target, now);
      id in closed && closed[id].service == releases[id].service
  {
  }

  lemma ErasedStart(s: State, gone: set<Id>, id: Id, l: Launch)
    requires l.taskId !in s.tasks
    ensures var w := Without(s, gone);
      && Without(Start(s, id, l).0, gone) ==
         (if id in s.releases && s.releases[id].service in gone then w else Start(w, id, l).0)
      && Without(Retry(s, id, l).0, gone) ==
         (if id in s.releases && s.releases[id].service in gone then w else Retry(w, id, l).0)
  {
    hide KeptReleases, KeptTasks, KeptInstances;
    hide LaunchRelease, LaunchBlocked, HasActiveRelease, HasNewerSuccessfulRelease, HasTrafficSplitRelease;
    KeptIs(s, gone, id);
    if id in s.releases {
      var service := s.releases[id].service;
      if service !in gone { SameQueries(s, gone, service); }
      LaunchNeedsService(s, service, l.online);
      if service in s.services {
        ErasedLaunch(s, gone, id, l, true);
        ErasedLaunch(s, gone, id, l, false);
      }
    }
  }

  lemma LaunchNeedsService(s: State, service: Id, online: bool)
    ensures service !in s.services ==> LaunchBlocked(s, service, online).Some?
  {
  }

  lemma ErasedCreate(s: State, gone: set<Id>, q: Request)
    requires q.releaseId !in s.releases
    ensures var w := Without(s, gone);
      Without(CreateFromCI(s, q).0, gone) == if q.service in gone then w else CreateFromCI(w, q).0
  {
    hide Duplicates, KeptReleases, KeptTasks, KeptInstances;
    if q.service in s.services {
      var spec := s.services[q.service];
      KeptRelease(s.releases, gone, q.releaseId, Release(q.service, spec.agent, q.imageTag, q.commit, q.now, Queued, 0,
                                                         NextSlot(spec.live), spec.live, None, false, None));
    }
    if q.service !in gone { SameDuplicates(s.releases, gone, q); }
  }

  lemma SameDuplicates(releases: map<Id, Release>, gone: set<Id>, q: Request)
    requires q.service !in gone
    ensures var kept := KeptReleases(releases, gone);
      (exists id | id in kept :: Duplicates(kept[id], q.service, q.imageTag, q.commit)) <==>
      (exists id | id in releases :: Duplicates(releases[id], q.service, q.imageTag, q.commit))
  {
    forall id | id in releases && Duplicates(releases[id], q.service, q.imageTag, q.commit)
      ensures id in KeptReleases(releases, gone)
    {
    }
  }

  lemma KeptFlags(instances: map<(Id, Slot), Instance>, gone: set<Id>, service: Id, live: Slot, previous: Slot)
    ensures KeptInstances(UpdateTrafficFlags(instances, service, live, previous), gone) ==
            if service in gone then KeptInstances(instances, gone)
            else UpdateTrafficFlags(KeptInstances(instances, gone), service, live, previous)
  {
    KeptFlag(instances, gone, service, live, true);
    KeptFlag(WithTraffic(instances, service, live, true), gone, service, previous, false);
    hide WithTraffic, KeptInstances;
  }

  lemma KeptFlag(instances: map<(Id, Slot), Instance>, gone: set<Id>, service: Id, slot: Slot, accepting: bool)
    ensures KeptInstances(WithTraffic(instances, service, slot, accepting), gone) ==
            if service in gone then KeptInstances(instances, gone)
            else WithTraffic(KeptInstances(instances, gone), service, slot, accepting)
  {
  }

  lemma KeptLive(services: map<Id, Spec>, gone: set<Id>, service: Id, slot: Slot)
    ensures WithLive(services, service, slot) - gone ==
            if service in gone then services - gone else WithLive(services - gone, service, slot)
  {
  }

  lemma KeptPrevious(
      releases: map<Id, Release>, instances: map<(Id, Slot), Instance>, gone: set<Id>,
      id: Id, current: Release, now: Time)
    requires forall key | key in instances ::
      instances[key].release in releases && releases[instances[key].release].service == key.0
    ensures KeptReleases(CompletePreviousLive(releases, instances, id, current, now), gone) ==
            if current.service in gone then KeptReleases(releases, gone)
            else CompletePreviousLive(KeptReleases(releases, gone), KeptInstances(instances, gone), id, current, now)
  {
    var key := (current.service, current.prevLive);
    if key in instances {
      var q := instances[key].release;
      var after := CompletePreviousLive(releases, instances, id, current, now);
      if after != releases { KeptRelease(releases, gone, q, after[q]); }
    }
  }

  lemma ErasedTraffic(s: State, gone: set<Id>, id: Id, percent: int, now: Time)
    requires Linked(s)
    ensures var w := Without(s, gone);
      && Without(SetTrafficPercent(s, id, percent, now).0, gone) ==
         (if id in s.releases && s.releases[id].service in gone then w else SetTrafficPercent(w, id, percent, now).0)
      && Without(Rollback(s, id, now).0, gone) ==
         (if id in s.releases && s.releases[id].service in gone then w else Rollback(w, id, now).0)
  {
    hide KeptReleases, KeptTasks, KeptInstances, UpdateTrafficFlags, CompletePreviousLive, WithLive, HealthyAt, Linked;
    KeptIs(s, gone, id);
    if id in s.releases {
      var r := s.releases[id];
      var flags := UpdateTrafficFlags(s.instances, r.service, r.target, r.prevLive);
      var switched := Finish(r.(percent := 100, confirmed := true), Completed, now);
      var previous := CompletePreviousLive(s.releases, flags, id, switched, now);
      if r.service !in gone { SameHealth(s, gone, r.service); }
      KeptFlags(s.instances, gone, r.service, r.target, r.prevLive);
      KeptFlags(s.instances, gone, r.service, r.prevLive, r.target);
      KeptLive(s.services, gone, r.service, r.target);
      KeptLive(s.services, gone, r.service, r.prevLive);
      TenantsLinked(s, r.service, r.target, r.prevLive);
      KeptPrevious(s.releases, flags, gone, id, switched, now);
      PreviousService(s.releases, flags, id, switched, now);
      KeptRelease(previous, gone, id, switched);
      KeptRelease(s.releases, gone, id, r.(percent := percent, confirmed := false, completedAt := None));
      KeptRelease(s.releases, gone, id, Finish(r.(percent := 0, confirmed := false), RolledBack, now));
    }
  }

  lemma SameHealth(s: State, gone: set<Id>, service: Id)
    requires service !in gone
    ensures forall slot :: HealthyAt(KeptInstances(s.instances, gone), service, slot) <==>
        HealthyAt(s.instances, service, slot)
  {
  }

  lemma TenantsLinked(s: State, service: Id, live: Slot, previous: Slot)
    requires Linked(s)
    ensures var flags := UpdateTrafficFlags(s.instances, service, live, previous);
      forall key | key in flags :: flags[key].release in s.releases && s.releases[flags[key].release].service == key.0
  {
    FlagsTenants(s.instances, service, live, previous);
  }

  lemma PreviousService(
      releases: map<Id, Release>, instances: map<(Id, Slot), Instance>, id: Id, current: Release, now: Time)
    requires id in releases
    ensures var previous := CompletePreviousLive(releases, instances, id, current, now);
      id in previous && previous[id].service == releases[id].service
  {
  }

  lemma SameLate(s: State, gone: set<Id>, task: Id)
    requires Linked(s) && task in s.tasks && s.tasks[task].service !in gone
    ensures var w := Without(s, gone);
      && task in w.tasks && w.tasks[task] == s.tasks[task]
      && s.tasks[task].release in w.releases
      && w.releases[s.tasks[task].release] == s.releases[s.tasks[task].release]
      && (Late(w, task) <==> Late(s, task))
  {
    KeptIs(s, gone, task);
    KeptIs(s, gone, s.tasks[task].release);
  }

  lemma ErasedUpdate(s: State, gone: set<Id>, task: Id, report: Report, slot: Slot, now: Time)
    requires Linked(s)
    ensures var w := Without(s, gone);
      Without(HandleTaskUpdate(s, task, report, slot, now).0, gone) ==
        if task in s.tasks && s.tasks[task].service in gone then w else HandleTaskUpdate(w, task, report, slot, now).0
  {
    KeptIs(s, gone, task);
    if task in s.tasks {
      var t := s.tasks[task];
      assert t.release in s.releases && s.releases[t.release].service == t.service;
      if t.service !in gone { SameLate(s, gone, task); }
      hide KeptReleases, KeptTasks, KeptInstances, Linked, Late;
      var s' := HandleTaskUpdate(s, task, report, slot, now).0;
      TaskStays(s, task, report, slot, now);
      KeptTask(s.tasks, gone, task, s'.tasks[task]);
      KeptRelease(s.releases, gone, t.release, s'.releases[t.release]);
      KeptInstance(s.instances, gone, (t.service, slot), Instance(t.release, true, false, true));
    }
  }

  lemma TaskStays(s: State, task: Id, report: Report, slot: Slot, now: Time)
    requires task in s.tasks && s.tasks[task].release in s.releases
    ensures var t, s' := s.tasks[task], HandleTaskUpdate(s, task, report, slot, now).0;
      && task in s'.tasks && s'.tasks[task].service == t.service && s'.tasks == s.tasks[task := s'.tasks[task]]
      && s'.tasks[task].release == t.release
      && t.release in s'.releases && s'.releases[t.release].service == s.releases[t.release].service
      && s'.releases == s.releases[t.release := s'.releases[t.release]]
      && s'.releases[t.release].task == s.releases[t.release].task
      && (s'.instances == s.instances
          || s'.instances == s.instances[(t.service, slot) := Instance(t.release, true, false, true)])
  {
    hide Late;
  }

  lemma SameOutstanding(s: State, gone: set<Id>, task: Id)
    requires Linked(s) && task in s.tasks && s.tasks[task].service !in gone
    ensures Outstanding(Without(s, gone), task) <==> Outstanding(s, task)
  {
    SameLate(s, gone, task);
    forall id | id in s.releases && s.releases[id].task == Some(task) ensures id in Without(s, gone).releases {
      KeptIs(s, gone, id);
    }
    hide KeptTasks;
  }

  lemma ErasedRecover(s: State, gone: set<Id>, agent: Id, running: set<Id>, replayed: set<Id>, now: Time)
    requires Linked(s)
    ensures Without(RecoverAgentTasks(s, agent, running, replayed, now), gone) ==
            RecoverAgentTasks(Without(s, gone), agent, running, replayed, now)
  {
    hide Outstanding, Linked;
    forall t | t in s.tasks && s.tasks[t].service !in gone
      ensures Recoverable(Without(s, gone), t, agent) <==> Recoverable(s, t, agent)
    {
      SameOutstanding(s, gone, t);
    }
  }

  lemma ErasedScan(s: State, gone: set<Id>, now: Time)
    requires Linked(s)
    ensures Without(FailStaleTasks(s, now), gone) == FailStaleTasks(Without(s, gone), now)
  {
    ErasedTasks(s, gone, now);
    ErasedReleases(s, gone, now);
    hide KeptReleases, KeptTasks, KeptInstances, Stale;
  }

  lemma ErasedTasks(s: State, gone: set<Id>, now: Time)
    requires Linked(s)
    ensures KeptTasks(FailStaleTasks(s, now).tasks, gone) == FailStaleTasks(Without(s, gone), now).tasks
  {
    hide Stale, Linked, KeptReleases, KeptInstances;
    forall t | t in s.tasks && s.tasks[t].service !in gone
        ensures Stale(Without(s, gone), t, now) <==> Stale(s, t, now) {
      SameStale(s, gone, t, now);
    }
  }

  predicate StaleRelease(s: State, id: Id, now: Time)
    requires id in s.releases
  {
    && s.releases[id].task.Some? && Stale(s, s.releases[id].task.value, now)
    && s.tasks[s.releases[id].task.value].release == id
  }

  lemma SameStaleRelease(s: State, gone: set<Id>, id: Id, now: Time)
    requires Linked(s) && id in s.releases && s.releases[id].service !in gone
    ensures id in Without(s, gone).releases
    ensures StaleRelease(Without(s, gone), id, now) <==> StaleRelease(s, id, now)
  {
    KeptIs(s, gone, id);
    if s.releases[id].task.Some? {
      var t := s.releases[id].task.value;
      KeptIs(s, gone, t);
      assert s.tasks[t].release == id && s.tasks[t].service == s.releases[id].service;
      SameStale(s, gone, t, now);
    }
    hide Stale, Linked, KeptReleases, KeptTasks, KeptInstances;
  }

  lemma ErasedReleases(s: State, gone: set<Id>, now: Time)
    requires Linked(s)
    ensures KeptReleases(FailStaleTasks(s, now).releases, gone) == FailStaleTasks(Without(s, gone), now).releases
  {
    hide Stale, Linked, KeptTasks, KeptInstances;
    forall id | id in s.releases && s.releases[id].service !in gone
      ensures StaleRelease(Without(s, gone), id, now) <==> StaleRelease(s, id, now)
    {
      SameStaleRelease(s, gone, id, now);
    }
  }

  lemma SameStale(s: State, gone: set<Id>, t: Id, now: Time)
    requires Linked(s) && t in s.tasks && s.tasks[t].service !in gone
    ensures Stale(Without(s, gone), t, now) <==> Stale(s, t, now)
  {
    SameOutstanding(s, gone, t);
    SameLate(s, gone, t);
    hide Outstanding, Linked, Late, Without;
  }

  lemma ErasedSkip(s: State, gone: set<Id>, id: Id, now: Time)
    ensures var w := Without(s, gone);
      Without(Skip(s, id, now).0, gone) ==
        if id in s.releases && s.releases[id].service in gone then w else Skip(w, id, now).0
  {
    KeptIs(s, gone, id);
    hide KeptReleases, KeptTasks, KeptInstances;
    if id in s.releases { KeptRelease(s.releases, gone, id, Finish(s.releases[id], Skipped, now)); }
  }

  lemma ErasedService(s: State, gone: set<Id>, service: Id, spec: Spec)
    ensures var w := Without(s, gone);
      && Without(Apply(s, CreatingService(service, spec)), gone) ==
         (if service in gone then w else Apply(w, CreatingService(service, spec)))
      && Without(Apply(s, EditingService(service, spec)), gone) ==
         (if service in gone then w else Apply(w, EditingService(service, spec)))
  {
    hide KeptReleases, KeptTasks, KeptInstances;
  }

  // An operation on a kept service does the same whether or not the others are there, and one on
  // another does nothing to the kept ones.
  lemma ErasedStep(s: State, gone: set<Id>, e: Event)
    requires Linked(s) && Admissible(s, e)
    ensures Without(Apply(s, e), gone) == if Concerns(s, e, gone) then Without(s, gone) else Apply(Without(s, gone), e)
    ensures !Concerns(s, e, gone) ==> Admissible(Without(s, gone), e)
  {
    hide Start, Retry, SetTrafficPercent, Rollback, HandleTaskUpdate, FailStaleTasks, RecoverAgentTasks, CreateFromCI;
    hide KeptReleases, KeptTasks, KeptInstances, Linked, Skip;
    match e
    case CreatingService(service, spec) => ErasedService(s, gone, service, spec);
    case EditingService(service, spec) => ErasedService(s, gone, service, spec);
    case Creating(q) => KeptIs(s, gone, q.releaseId); ErasedCreate(s, gone, q);
    case Starting(id, l) => KeptIs(s, gone, l.taskId); ErasedStart(s, gone, id, l);
    case Retrying(id, l) => KeptIs(s, gone, l.taskId); ErasedStart(s, gone, id, l);
    case Skipping(id, now) => ErasedSkip(s, gone, id, now);
    case Shifting(id, percent, now) => ErasedTraffic(s, gone, id, percent, now);
    case RollingBack(id, now) => ErasedTraffic(s, gone, id, 0, now);
    case Reporting(task, report, slot, now) => KeptIs(s, gone, task); ErasedUpdate(s, gone, task, report, slot, now);
    case Recovering(agent, running, replayed, now) => ErasedRecover(s, gone, agent, running, replayed, now);
    case FailingStale(now) => ErasedScan(s, gone, now);
  }

  // ---------------------------------------------------------------- runs with deletions

  // The operations of a run that are not about these services.
  function Others(s: State, cs: seq<Change>, gone: set<Id>): seq<Event>
    decreases |cs|
  {
    if cs == [] then []
    else
      (if cs[0].Op? && !Concerns(s, cs[0].event, gone) then [cs[0].event] else [])
      + Others(Changed(s, cs[0]), cs[1..], gone)
  }

  lemma ErasedChange(s: State, c: Change, gone: set<Id>)
    requires Linked(s) && (c.Op? ==> Admissible(s, c.event)) && (Deletes(s, c) ==> c.service in gone)
    ensures Linked(Changed(s, c))
    ensures Without(Changed(s, c), gone) ==
            if c.Op? && !Concerns(s, c.event, gone) then Apply(Without(s, gone), c.event) else Without(s, gone)
  {
    if c.Op? {
      ErasedStep(s, gone, c.event);
      LinkedStep(s, c.event);
    } else if Deletes(s, c) {
      assert s.services - {c.service} - gone == s.services - gone;
    }
    hide Apply, Linked, KeptReleases, KeptTasks, KeptInstances;
  }

  lemma RunCons(s: State, e: Event, es: seq<Event>)
    ensures Run(s, [e] + es) == Run(Apply(s, e), es)
    ensures AdmissibleRun(s, [e] + es) <==> Admissible(s, e) && AdmissibleRun(Apply(s, e), es)
  {
    assert ([e] + es)[1..] == es;
  }

  // Leaving out the services a run deletes leaves what the run would have made without them.
  lemma {:induction false} DeletionIsErasure(s: State, cs: seq<Change>, gone: set<Id>)
    requires Linked(s) && AdmissibleChanges(s, cs) && Deleted(s, cs) <= gone
    ensures Without(Changes(s, cs), gone) == Run(Without(s, gone), Others(s, cs, gone))
    ensures AdmissibleRun(Without(s, gone), Others(s, cs, gone)) && Linked(Changes(s, cs))
    decreases |cs|
  {
    hide Changed, Without, Linked, Concerns, Admissible, Apply;
    if cs != [] {
      var t := Changed(s, cs[0]);
      ErasedChange(s, cs[0], gone);
      DeletionIsErasure(t, cs[1..], gone);
      if cs[0].Op? && !Concerns(s, cs[0].event, gone) {
        ErasedStep(s, gone, cs[0].event);
        RunCons(Without(s, gone), cs[0].event, Others(t, cs[1..], gone));
      } else {
        assert [] + Others(t, cs[1..], gone) == Others(t, cs[1..], gone);
      }
    }
  }

  // So every result about reachable states holds of what a run with deletions leaves of the rest.
  lemma RestIsReachable(cs: seq<Change>, gone: set<Id>)
    requires AdmissibleChanges(EMPTY, cs) && Deleted(EMPTY, cs) <= gone
    ensures Reachable(Without(Changes(EMPTY, cs), gone))
  {
    DeletionIsErasure(EMPTY, cs, gone);
    assert Without(EMPTY, gone) == EMPTY;
    hide Changes, Without, Others, Run, AdmissibleRun;
  }

  // ---------------------------------------------------------------- the deleted service itself

  ghost predicate NothingOpen(s: State, service: Id) {
    && service !in s.services
    && forall t | t in s.tasks && s.tasks[t].service == service :: s.tasks[t].status.IsTerminal()
  }

  // A service is deleted without any open task, whatever was deleted before it.
  lemma DeletedWithoutTasks(cs: seq<Change>, service: Id)
    requires AdmissibleChanges(EMPTY, cs) && service !in Deleted(EMPTY, cs)
    requires Deletes(Changes(EMPTY, cs), Delete(service))
    ensures NothingOpen(Changed(Changes(EMPTY, cs), Delete(service)), service)
  {
    var gone, s := Deleted(EMPTY, cs), Changes(EMPTY, cs);
    var w := Without(s, gone);
    RestIsReachable(cs, gone);
    ReachableInv(w);
    SameQueries(s, gone, service);
    forall t | t in s.tasks && s.tasks[t].service == service ensures s.tasks[t].status.IsTerminal() {
      KeptIs(s, gone, t);
      assert TaskOk(w, t) && ReleaseOk(w, w.tasks[t].release);
      OpenTaskBlocks(w, t);
    }
  }

  lemma OpenTaskBlocks(s: State, t: Id)
    requires t in s.tasks && TaskOk(s, t) && ReleaseOk(s, s.tasks[t].release)
    ensures s.tasks[t].status.IsTerminal() || Open(s, s.tasks[t].service)
  {
    var r := s.tasks[t].release;
    if !s.tasks[t].status.IsTerminal() { assert BlocksStart(s.releases[r], s.tasks[t].service); }
  }

  function TasksOf(s: State, service: Id): map<Id, Task> {
    map t | t in s.tasks && s.tasks[t].service == service :: s.tasks[t]
  }

  predicate Recreates(c: Change, service: Id) {
    c.Op? && c.event.CreatingService? && c.event.service == service
  }

  // Every operation leaves closed tasks alone, and creates tasks for stored services only.
  ghost predicate OnlyOpenTasks(s: State, s': State) {
    && s.tasks.Keys <= s'.tasks.Keys
    && (forall t | t in s.tasks && s.tasks[t].status.IsTerminal() :: s'.tasks[t] == s.tasks[t])
    && (forall t | t in s.tasks :: s'.tasks[t].service == s.tasks[t].service)
    && (forall t | t in s'.tasks && t !in s.tasks :: s'.tasks[t].service in s.services)
  }

  lemma LaunchTouchesOpen(s: State, id: Id, l: Launch)
    requires l.taskId !in s.tasks
    ensures OnlyOpenTasks(s, Start(s, id, l).0) && OnlyOpenTasks(s, Retry(s, id, l).0)
    ensures Start(s, id, l).0.services == s.services == Retry(s, id, l).0.services
  {
    hide CompleteSuperseded, SkipQueuedBefore, HasActiveRelease, HasNewerSuccessfulRelease, HasTrafficSplitRelease;
  }

  lemma ScanTouchesOpen(s: State, agent: Id, running: set<Id>, replayed: set<Id>, now: Time)
    ensures OnlyOpenTasks(s, RecoverAgentTasks(s, agent, running, replayed, now))
    ensures OnlyOpenTasks(s, FailStaleTasks(s, now))
    ensures RecoverAgentTasks(s, agent, running, replayed, now).services == s.services
    ensures FailStaleTasks(s, now).services == s.services
  {
    hide Expired;
  }

  lemma UpdateTouchesOpen(s: State, task: Id, report: Report, slot: Slot, now: Time)
    ensures OnlyOpenTasks(s, HandleTaskUpdate(s, task, report, slot, now).0)
    ensures HandleTaskUpdate(s, task, report, slot, now).0.services == s.services
  {
    hide IsCurrent;
  }

  lemma OnlyOpenStep(s: State, e: Event)
    requires Admissible(s, e)
    ensures OnlyOpenTasks(s, Apply(s, e))
    ensures Apply(s, e).services.Keys <= s.services.Keys + if e.CreatingService? then {e.service} else {}
  {
    hide Start, Retry, CreateFromCI, SetTrafficPercent, Rollback, RecoverAgentTasks, FailStaleTasks, HandleTaskUpdate;
    match e
    case Recovering(agent, running, replayed, now) => ScanTouchesOpen(s, agent, running, replayed, now);
    case FailingStale(now) => ScanTouchesOpen(s, "", {}, {}, now);
    case Reporting(task, report, slot, now) => UpdateTouchesOpen(s, task, report, slot, now);
    case Starting(id, l) => LaunchTouchesOpen(s, id, l);
    case Retrying(id, l) => LaunchTouchesOpen(s, id, l);
    case Creating(q) => NoTaskTouched(s, q, "", 0, 0);
    case Shifting(id, percent, now) => NoTaskTouched(s, Request("", "", "", 0, ""), id, percent, now);
    case RollingBack(id, now) => NoTaskTouched(s, Request("", "", "", 0, ""), id, 0, now);
    case _ =>
  }

  lemma NoTaskTouched(s: State, q: Request, id: Id, percent: int, now: Time)
    ensures CreateFromCI(s, q).0.tasks == s.tasks && CreateFromCI(s, q).0.services == s.services
    ensures SetTrafficPercent(s, id, percent, now).0.tasks == s.tasks == Rollback(s, id, now).0.tasks
    ensures SetTrafficPercent(s, id, percent, now).0.services.Keys == s.services.Keys
    ensures Rollback(s, id, now).0.services.Keys == s.services.Keys
  {
    hide UpdateTrafficFlags, CompletePreviousLive, HealthyAt, Duplicates;
  }

  // From then on nothing is ever deployed for it: whatever happens, no task of it is created or
  // changed.
  lemma {:induction false} NothingDeploys(s: State, cs: seq<Change>, service: Id)
    requires NothingOpen(s, service) && Linked(s) && AdmissibleChanges(s, cs)
    requires forall c | c in cs :: !Recreates(c, service)
    ensures TasksOf(Changes(s, cs), service) == TasksOf(s, service) && service !in Changes(s, cs).services
    decreases |cs|
  {
    if cs != [] {
      var t := Changed(s, cs[0]);
      assert !Recreates(cs[0], service);
      ChangeKeepsTasks(s, cs[0], service);
      NothingDeploys(t, cs[1..], service);
    }
  }

  lemma ChangeKeepsTasks(s: State, c: Change, service: Id)
    requires NothingOpen(s, service) && Linked(s) && (c.Op? ==> Admissible(s, c.event)) && !Recreates(c, service)
    ensures var t := Changed(s, c);
      TasksOf(t, service) == TasksOf(s, service) && NothingOpen(t, service) && Linked(t)
  {
    hide Apply, Linked, Open, Admissible;
    if c.Op? {
      OnlyOpenStep(s, c.event);
      LinkedStep(s, c.event);
    } else {
      RowsStay(s, Changed(s, c));
    }
  }

  // The same outcome, on the same rows but for those of the services.
  predicate Alike(a: (State, Outcome), b: (State, Outcome)) {
    a.1 == b.1 && a.0.releases == b.0.releases && a.0.tasks == b.0.tasks && a.0.instances == b.0.instances
  }

  // But its parked releases are shifted, confirmed and rolled back as though it were still there.
  lemma ShiftsGoOn(s: State, service: Id, id: Id, percent: int, now: Time)
    ensures var gone := Changed(s, Delete(service));
      && Alike(SetTrafficPercent(gone, id, percent, now), SetTrafficPercent(s, id, percent, now))
      && Alike(Rollback(gone, id, now), Rollback(s, id, now))
  {
    RowsAreKept(s, service);
    hide Changed;
    ShiftsAlike(s, Changed(s, Delete(service)), id, percent, now);
  }

  lemma RowsAreKept(s: State, service: Id)
    ensures Changed(s, Delete(service)) == s.(services := Changed(s, Delete(service)).services)
  {
    hide Open;
  }

  lemma ShiftsAlike(s: State, gone: State, id: Id, percent: int, now: Time)
    requires gone == s.(services := gone.services)
    ensures Alike(SetTrafficPercent(gone, id, percent, now), SetTrafficPercent(s, id, percent, now))
    ensures Alike(Rollback(gone, id, now), Rollback(s, id, now))
  {
    hide UpdateTrafficFlags, CompletePreviousLive, WithLive, HealthyAt, Open;
  }
}
