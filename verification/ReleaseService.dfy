/** The release service as an object over its stored rows. Each operation reads rows, works on
    copies and stores them back, as the service does; its contract is the operation of
    `ReleaseModel` on the rows it found. */
module ReleaseService {
  import opened Wrappers
  import opened ReleaseModel

  class Service {
    var releases: map<Id, Release>
    var tasks: map<Id, Task>
    var instances: map<(Id, Slot), Instance>
    var services: map<Id, Spec>

    function Rows(): State
      reads this
    {
      State(releases, tasks, instances, services)
    }

    constructor ()
      ensures Rows() == EMPTY
    {
      releases, tasks, instances, services := map[], map[], map[], map[];
    }

    // ---------------------------------------------------------------- deploying

    method CompleteSupersededReleases(current: Id, service: Id, target: Slot, now: Time)
      modifies this`releases
      ensures releases == CompleteSuperseded(old(releases), current, service, target, now)
    {
      var rows := releases;
      ghost var after := CompleteSuperseded(rows, current, service, target, now);
      var todo := rows.Keys;
      while todo != {}
        invariant todo <= rows.Keys && releases.Keys == rows.Keys
        invariant forall id | id in rows :: releases[id] == if id in todo then rows[id] else after[id]
        decreases |todo|
      {
        var id :| id in todo;
        var item := rows[id];
        if Superseded(item, id, current, service, target) {
          releases := releases[id := item.(status := Completed, completedAt := Some(now))];
        }
        todo := todo - {id};
      }
      assert releases == after;
    }

    method SkipOlderQueued(current: Id, service: Id, createdAt: Time, now: Time)
      modifies this`releases
      ensures releases == SkipQueuedBefore(old(releases), current, service, createdAt, now)
    {
      var rows := releases;
      ghost var after := SkipQueuedBefore(rows, current, service, createdAt, now);
      var todo := rows.Keys;
      while todo != {}
        invariant todo <= rows.Keys && releases.Keys == rows.Keys
        invariant forall id | id in rows :: releases[id] == if id in todo then rows[id] else after[id]
        decreases |todo|
      {
        var id :| id in todo;
        var item := rows[id];
        if QueuedBefore(item, id, current, service, createdAt) {
          releases := releases[id := item.(status := Skipped, completedAt := Some(now))];
        }
        todo := todo - {id};
      }
    }

    method DispatchTask(task: Id, l: Launch) returns (outcome: Outcome)
      requires task in tasks && tasks[task].release in releases
      modifies this`tasks, this`releases
      ensures tasks == old(tasks)[task := old(tasks[task]).(updatedAt := l.now, status := match l.delivery
                case Sent => TaskDispatched case AgentOffline => TaskPending case Rejected => TaskFailed)]
      ensures outcome == if l.delivery == Rejected then Err(DispatchFailed) else DONE
      ensures releases == if l.delivery != Rejected then old(releases)
                else old(releases)[old(tasks[task]).release :=
                    Finish(old(releases[tasks[task].release]), Failed, l.now)]
    {
      var row := tasks[task].(status := TaskDispatched, updatedAt := l.now);
      tasks := tasks[task := row];
      match l.delivery
      case Sent =>
        outcome := DONE;
      case AgentOffline =>
        row := row.(status := TaskPending);
        tasks := tasks[task := row];
        outcome := DONE;
      case Rejected =>
        row := row.(status := TaskFailed);
        tasks := tasks[task := row];
        var release := releases[row.release];
        releases := releases[row.release := release.(status := Failed, completedAt := Some(l.now))];
        outcome := Err(DispatchFailed);
    }

    method Deploy(id: Id, l: Launch, skipOlder: bool) returns (outcome: Outcome)
      requires id in releases && releases[id].service in services && l.taskId !in tasks
      modifies this
      ensures (Rows(), outcome) == LaunchRelease(old(Rows()), id, l, skipOlder)
    {
      var release := releases[id];
      var spec := services[release.service];
      release := release.(agent := spec.agent, prevLive := spec.live, target := NextSlot(spec.live));
      release := release.(percent := 0, confirmed := false, completedAt := None);
      CompleteSupersededReleases(id, release.service, release.target, l.now);
      if !l.prepared { return Err(PrepareFailed); }
      var task := NewDeployTask(release, id, spec, TaskPending, l.now);
      release := release.(task := Some(l.taskId), status := Dispatching);
      tasks := tasks[l.taskId := task];
      releases := releases[id := release];
      ghost var closed := CompleteSuperseded(old(releases), id, release.service, release.target, l.now);
      assert releases == closed[id := release];
      outcome := DispatchTask(l.taskId, l);
      assert tasks == old(tasks)[l.taskId := NewDeployTask(release, id, spec, tasks[l.taskId].status, l.now)];
      assert outcome.Ok? ==> releases == closed[id := release];
      assert outcome.Err? ==> releases == closed[id := Finish(release, Failed, l.now)];
      if outcome.Ok? && skipOlder {
        SkipOlderQueued(id, release.service, release.createdAt, l.now);
      }
    }

    method Start(id: Id, l: Launch) returns (outcome: Outcome)
      requires l.taskId !in tasks
      modifies this
      ensures (Rows(), outcome) == ReleaseModel.Start(old(Rows()), id, l)
    {
      if id !in releases { return Err(NotFound); }
      var release := releases[id];
      var isSkipped := release.status == Skipped;
      if release.status != Queued && !isSkipped { return Err(NotQueued); }
      if isSkipped && HasNewerSuccessfulRelease(releases, release.service, release.createdAt) {
        return Err(NewerSuccess);
      }
      if HasActiveRelease(releases, release.service) {
        if HasTrafficSplitRelease(releases, release.service) { return Err(TrafficSplit); }
        return Err(ServiceActive);
      }
      var blocked := LaunchBlocked(Rows(), release.service, l.online);
      if blocked.Some? { return Err(blocked.value); }
      outcome := Deploy(id, l, true);
    }

    method Retry(id: Id, l: Launch) returns (outcome: Outcome)
      requires l.taskId !in tasks
      modifies this
      ensures (Rows(), outcome) == ReleaseModel.Retry(old(Rows()), id, l)
    {
      if id !in releases { return Err(NotFound); }
      var release := releases[id];
      if release.status != Failed { return Err(NotFailed); }
      if HasActiveRelease(releases, release.service) { return Err(ServiceActive); }
      var blocked := LaunchBlocked(Rows(), release.service, l.online);
      if blocked.Some? { return Err(blocked.value); }
      outcome := Deploy(id, l, false);
    }

    method CreateFromCI(q: Request) returns (outcome: Outcome)
      modifies this
      ensures (Rows(), outcome) == ReleaseModel.CreateFromCI(old(Rows()), q)
    {
      if q.service !in services { return Err(NotFound); }
      var spec := services[q.service];
      if !spec.enabled { return Err(ServiceDisabled); }
      if exists id | id in releases :: Duplicates(releases[id], q.service, q.imageTag, q.commit) { return DONE; }
      releases := releases[q.releaseId :=
        Release(q.service, spec.agent, q.imageTag, q.commit, q.now, Queued, 0,
                NextSlot(spec.live), spec.live, None, false, None)];
      return DONE;
    }

    method Skip(id: Id, now: Time) returns (outcome: Outcome)
      modifies this
      ensures (Rows(), outcome) == ReleaseModel.Skip(old(Rows()), id, now)
    {
      if id !in releases { return Err(NotFound); }
      var release := releases[id];
      if release.status != Queued { return Err(NotQueued); }
      release := release.(status := Skipped, completedAt := Some(now));
      releases := releases[id := release];
      return DONE;
    }

    // ---------------------------------------------------------------- traffic

    method UpdateLiveSlot(service: Id, slot: Slot)
      modifies this`services
      ensures services == WithLive(old(services), service, slot)
    {
      if service in services {
        services := services[service := services[service].(live := slot)];
      }
    }

    method SetTrafficFlags(service: Id, live: Slot, previous: Slot)
      modifies this`instances
      ensures instances == UpdateTrafficFlags(old(instances), service, live, previous)
    {
      if (service, live) in instances {
        var current := instances[(service, live)].(accepting := true, active := true);
        instances := instances[(service, live) := current];
      }
      if (service, previous) in instances {
        var former := instances[(service, previous)].(accepting := false, active := true);
        instances := instances[(service, previous) := former];
      }
    }

    method CompletePreviousLiveRelease(id: Id, current: Release, now: Time)
      modifies this`releases
      ensures releases == CompletePreviousLive(old(releases), instances, id, current, now)
    {
      if current.prevLive == NoSlot { return; }
      var key := (current.service, current.prevLive);
      if key !in instances || instances[key].release == id { return; }
      var previous := instances[key].release;
      if previous !in releases { return; }
      var row := releases[previous];
      if !row.status.Splittable() && row.status != Completed { return; }
      if row.status == Completed && row.percent == 0 && row.completedAt.Some? { return; }
      row := row.(status := Completed, percent := 0);
      if row.completedAt.None? { row := row.(completedAt := Some(now)); }
      releases := releases[previous := row];
    }

    method SetTrafficPercent(id: Id, percent: int, now: Time) returns (outcome: Outcome)
      modifies this
      ensures (Rows(), outcome) == ReleaseModel.SetTrafficPercent(old(Rows()), id, percent, now)
    {
      if percent < 0 || percent > 100 { return Err(BadPercent); }
      if id !in releases { return Err(NotFound); }
      var release := releases[id];
      if release.status != ReadyToSwitch { return Err(NotReady); }
      if release.prevLive == NoSlot && percent < 100 { return Err(NoBaseline); }
      if percent == 0 {
        if !HealthyAt(instances, release.service, release.prevLive) { return Err(Unhealthy); }
      } else {
        if !HealthyAt(instances, release.service, release.target) { return Err(Unhealthy); }
      }
      release := release.(percent := percent, confirmed := percent == 100, completedAt := None);
      if percent == 100 {
        release := release.(status := Completed, completedAt := Some(now));
        UpdateLiveSlot(release.service, release.target);
        SetTrafficFlags(release.service, release.target, release.prevLive);
        CompletePreviousLiveRelease(id, release, now);
      } else {
        release := release.(status := ReadyToSwitch);
        UpdateLiveSlot(release.service, release.prevLive);
        SetTrafficFlags(release.service, release.prevLive, release.target);
      }
      releases := releases[id := release];
      return DONE;
    }

    method Rollback(id: Id, now: Time) returns (outcome: Outcome)
      modifies this
      ensures (Rows(), outcome) == ReleaseModel.Rollback(old(Rows()), id, now)
    {
      if id !in releases { return Err(NotFound); }
      var release := releases[id];
      if release.status != ReadyToSwitch { return Err(NotReady); }
      if release.prevLive == NoSlot { return Err(NoBaseline); }
      if !HealthyAt(instances, release.service, release.prevLive) { return Err(Unhealthy); }
      release := release.(percent := 0, confirmed := false, status := RolledBack, completedAt := Some(now));
      UpdateLiveSlot(release.service, release.prevLive);
      SetTrafficFlags(release.service, release.prevLive, release.target);
      releases := releases[id := release];
      return DONE;
    }

    // ---------------------------------------------------------------- tasks

    method HandleTaskUpdate(taskId: Id, report: Report, slot: Slot, now: Time) returns (outcome: Outcome)
      modifies this
      ensures (Rows(), outcome) == ReleaseModel.HandleTaskUpdate(old(Rows()), taskId, report, slot, now)
    {
      if taskId !in tasks { return Err(NotFound); }
      var task := tasks[taskId];
      if task.release !in releases { return Err(NotFound); }
      var release := releases[task.release];
      if release.task != Some(taskId) { return DONE; }
      if task.status.IsTerminal() || release.status.IsTerminal() { return DONE; }
      outcome := DONE;
      match report
      case ReportRunning =>
        task := task.(status := TaskRunning, updatedAt := now);
        if release.status == Dispatching {
          release := release.(status := Deploying);
          releases := releases[task.release := release];
        }
        tasks := tasks[taskId := task];
      case ReportSucceeded =>
        task := task.(status := TaskSucceeded, updatedAt := now);
        tasks := tasks[taskId := task];
        instances := instances[(task.service, slot) := Instance(task.release, true, false, true)];
        release := release.(status := ReadyToSwitch, percent := 0, confirmed := false);
        releases := releases[task.release := release];
      case ReportFailed =>
        task := task.(status := TaskFailed, updatedAt := now);
        release := release.(status := Failed, completedAt := Some(now));
        tasks := tasks[taskId := task];
        releases := releases[task.release := release];
      case ReportOther =>
    }

    method RecoverAgentTasks(agent: Id, running: set<Id>, replayed: set<Id>, now: Time)
      modifies this`tasks
      ensures Rows() == ReleaseModel.RecoverAgentTasks(old(Rows()), agent, running, replayed, now)
    {
      hide Recoverable;
      var before := Rows();
      ghost var after := ReleaseModel.RecoverAgentTasks(before, agent, running, replayed, now).tasks;
      var todo := set t | t in before.tasks && Recoverable(before, t, agent);
      while todo != {}
        invariant todo <= tasks.Keys == before.tasks.Keys == after.Keys
        invariant forall t | t in todo :: Recoverable(before, t, agent) && tasks[t] == before.tasks[t]
        invariant forall t | t in before.tasks && t !in todo :: tasks[t] == after[t]
        decreases |todo|
      {
        var t :| t in todo;
        var task := before.tasks[t];
        if t in running {
          if task.status != TaskRunning {
            tasks := tasks[t := task.(status := TaskRunning, updatedAt := now)];
          }
        } else if t in replayed {
          tasks := tasks[t := task.(status := TaskDispatched, updatedAt := now)];
        }
        todo := todo - {t};
      }
    }

    // One listed task of the scan; `task` is the row as listed.
    method FailTaskIfStale(t: Id, task: Task, now: Time)
      modifies this`tasks, this`releases
      ensures (tasks, releases) == FailedIfStale(old(tasks), old(releases), t, task, now)
    {
      if !TimedOut(task, now) || task.release !in releases { return; }
      var release := releases[task.release];
      if release.task != Some(t) { return; }
      if task.status.IsTerminal() || release.status.IsTerminal() { return; }
      tasks := tasks[t := task.(status := TaskTimedOut, updatedAt := now)];
      releases := releases[task.release := release.(status := Failed, completedAt := Some(now))];
    }

    method FailStaleTasks(now: Time)
      modifies this`tasks, this`releases
      ensures Rows() == ReleaseModel.FailStaleTasks(old(Rows()), now)
    {
      var before := Rows();
      var outstanding := set t | t in before.tasks && Outstanding(before, t);
      ghost var stale := StaleSet(before, outstanding, now);
      var todo := outstanding;
      while todo != {}
        invariant todo <= outstanding
        invariant Scanned(before, stale - todo, now, tasks, releases)
        decreases |todo|
      {
        var t :| t in todo;
        ghost var tasks0, releases0 := tasks, releases;
        FailTaskIfStale(t, before.tasks[t], now);
        ScanStep(before, outstanding, todo, now, t, tasks0, releases0, tasks, releases);
        todo := todo - {t};
      }
      assert stale - todo == stale;
      ScanDone(before, stale, now, tasks, releases);
    }
  }

  function FailedIfStale(tasks: map<Id, Task>, releases: map<Id, Release>, t: Id, task: Task, now: Time)
    : (map<Id, Task>, map<Id, Release>)
  {
    if TimedOut(task, now) && task.release in releases && releases[task.release].task == Some(t)
       && !task.status.IsTerminal() && !releases[task.release].status.IsTerminal()
    then (tasks[t := task.(status := TaskTimedOut, updatedAt := now)],
          releases[task.release := Finish(releases[task.release], Failed, now)])
    else (tasks, releases)
  }

  ghost function StaleSet(before: State, outstanding: set<Id>, now: Time): set<Id>
    requires outstanding <= before.tasks.Keys
  {
    set t | t in outstanding && Expired(before, t, now)
  }

  // The scan so far: the tasks in `ended`, and the releases waiting for them, are settled.
  ghost predicate Scanned(before: State, ended: set<Id>, now: Time, tasks: map<Id, Task>, releases: map<Id, Release>) {
    && tasks.Keys == before.tasks.Keys && releases.Keys == before.releases.Keys
    && (forall t {:trigger tasks[t]} | t in before.tasks ::
          tasks[t] == if t in ended then before.tasks[t].(status := TaskTimedOut, updatedAt := now)
              else before.tasks[t])
    && (forall id {:trigger releases[id]} | id in before.releases ::
          releases[id] == if WaitsFor(before, ended, id)
                          then Finish(before.releases[id], Failed, now) else before.releases[id])
  }

  // Release `id` waits for one of the tasks in `ended`.
  ghost predicate WaitsFor(before: State, ended: set<Id>, id: Id)
    requires id in before.releases
  {
    var r := before.releases[id];
    r.task.Some? && r.task.value in ended && r.task.value in before.tasks && before.tasks[r.task.value].release == id
  }

  lemma ScanStep(before: State, outstanding: set<Id>, todo: set<Id>, now: Time, t: Id,
                 tasks: map<Id, Task>, releases: map<Id, Release>, tasks': map<Id, Task>, releases': map<Id, Release>)
    requires todo <= outstanding <= before.tasks.Keys && t in todo
    requires Scanned(before, StaleSet(before, outstanding, now) - todo, now, tasks, releases)
    requires (tasks', releases') == FailedIfStale(tasks, releases, t, before.tasks[t], now)
    ensures Scanned(before, StaleSet(before, outstanding, now) - (todo - {t}), now, tasks', releases')
  {
    var stale := StaleSet(before, outstanding, now);
    ScanRow(before, stale - todo, now, t, tasks, releases);
    assert stale - (todo - {t}) == if t in stale then stale - todo + {t} else stale - todo;
  }

  lemma ScanRow(before: State, ended: set<Id>, now: Time, t: Id, tasks: map<Id, Task>, releases: map<Id, Release>)
    requires Scanned(before, ended, now, tasks, releases) && t in before.tasks && t !in ended
    ensures before.tasks[t].release in releases ==>
      var x := before.tasks[t].release;
      && releases[x].task == before.releases[x].task
      && (releases[x].task == Some(t) ==>
            && releases[x] == before.releases[x]
            && Scanned(before, ended + {t}, now,
                 tasks[t := before.tasks[t].(status := TaskTimedOut, updatedAt := now)],
                 releases[x := Finish(releases[x], Failed, now)]))
  {
  }

  lemma ScanDone(before: State, stale: set<Id>, now: Time, tasks: map<Id, Task>, releases: map<Id, Release>)
    requires Scanned(before, stale, now, tasks, releases)
    requires forall t :: t in stale <==> t in before.tasks && Stale(before, t, now)
    ensures before.(tasks := tasks, releases := releases) == ReleaseModel.FailStaleTasks(before, now)
  {
    var after := ReleaseModel.FailStaleTasks(before, now);
    forall t | t in before.tasks ensures tasks[t] == after.tasks[t] {}
    forall id | id in before.releases ensures releases[id] == after.releases[id] {}
  }
}
