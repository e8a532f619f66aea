/** What each operation of the release service accepts, and what it makes of which rows, in words of
    its own: nothing here goes by the names the operations themselves use. */
module ReleaseOperations {
  import opened Wrappers
  import opened Widths
  import opened ReleaseModel
  import opened ReleaseInvariant
  import opened ReleaseTheorems

  // ---------------------------------------------------------------- what is refused

  // A release that is deploying, or that shares the traffic with the live one.
  predicate InTheWay(r: Release) {
    || r.status in {Dispatching, Deploying}
    || (r.status in {ReadyToSwitch, Switched} && 1 <= r.percent <= 99)
  }

  predicate FreeToDeploy(s: State, service: Id, l: Launch) {
    && (forall q | q in s.releases && s.releases[q].service == service :: !InTheWay(s.releases[q]))
    && service in s.services && s.services[service].enabled && 1 <= s.services[service].containerPort <= 65535
    && l.online && l.prepared && l.delivery != Rejected
  }

  lemma Blocking(s: State, service: Id)
    ensures HasActiveRelease(s.releases, service) <==>
              exists q | q in s.releases :: s.releases[q].service == service && InTheWay(s.releases[q])
  {
    forall q | q in s.releases
      ensures BlocksStart(s.releases[q], service) <==> s.releases[q].service == service && InTheWay(s.releases[q])
    {
    }
  }

  // A start is accepted exactly for a release that is queued, or was skipped and no newer one of its
  // service is fully live, if nothing of the service is in the way and its agent takes the task.
  lemma StartAccepted(s: State, id: Id, l: Launch)
    ensures Start(s, id, l).1.Ok? <==>
      && id in s.releases && s.releases[id].status in {Queued, Skipped}
      && (s.releases[id].status == Skipped ==> forall q | q in s.releases ::
            !(s.releases[q].service == s.releases[id].service && s.releases[q].createdAt > s.releases[id].createdAt
              && s.releases[q].status in {Completed, Switched} && s.releases[q].percent == 100))
      && FreeToDeploy(s, s.releases[id].service, l)
  {
    if id in s.releases { Blocking(s, s.releases[id].service); }
    hide HasActiveRelease, HasTrafficSplitRelease, CompleteSuperseded, SkipQueuedBefore, InTheWay;
  }

  // A retry, exactly for a failed one under the same conditions.
  lemma RetryAccepted(s: State, id: Id, l: Launch)
    ensures Retry(s, id, l).1.Ok? <==>
      id in s.releases && s.releases[id].status == Failed && FreeToDeploy(s, s.releases[id].service, l)
  {
    if id in s.releases { Blocking(s, s.releases[id].service); }
    hide HasActiveRelease, HasTrafficSplitRelease, CompleteSuperseded, SkipQueuedBefore, InTheWay;
  }

  // ---------------------------------------------------------------- what a start does

  // Parked at 0% on the slot the service deploys to next.
  predicate Parked(r: Release, service: Id, slot: Slot) {
    r.service == service && r.status in {ReadyToSwitch, Switched} && r.percent == 0 && r.target == slot
  }

  function Idle(live: Slot): Slot {
    if live == Blue then Green else Blue
  }

  // An accepted start deploys the release to the slot that is not live. It skips the older queued
  // ones of its service, closes those parked on that slot, and touches no other release.
  lemma StartTouches(s: State, id: Id, l: Launch, q: Id)
    requires Start(s, id, l).1.Ok? && q in s.releases
    ensures var s', r := Start(s, id, l).0, s.releases[id];
      var old', new' := s.releases[q], s'.releases[q];
      && s'.releases.Keys == s.releases.Keys && s'.instances == s.instances && s'.services == s.services
      && (q == id ==> Launched(s, s', id, l))
      && (q != id ==>
            if old'.service == r.service && old'.status == Queued && old'.createdAt < r.createdAt then
              new' == old'.(status := Skipped, completedAt := Some(l.now))
            else if Parked(old', r.service, Idle(s.services[r.service].live)) then
              new' == old'.(status := Completed, completedAt := Some(l.now))
            else new' == old')
  {
    StartAccepted(s, id, l);
    hide HasActiveRelease, HasTrafficSplitRelease, HasNewerSuccessfulRelease;
  }

  // The release is on its way, with a new task for the agent of its service, which is handed to the
  // agent if it is connected and waits for it otherwise.
  predicate Launched(s: State, s': State, id: Id, l: Launch) {
    && id in s.releases && id in s'.releases && s.releases[id].service in s.services
    && var r, r', spec := s.releases[id], s'.releases[id], s.services[s.releases[id].service];
      && r' == r.(status := Dispatching, percent := 0, confirmed := false, completedAt := None,
                  agent := spec.agent, prevLive := spec.live, target := Idle(spec.live), task := Some(l.taskId))
      && s'.tasks == s.tasks[l.taskId := Task(
           id, r.service, spec.agent, if l.delivery == AgentOffline then TaskPending else TaskDispatched,
           Idle(spec.live), spec.live, spec.startupGrace, spec.httpTimeout, l.now, l.now)]
  }

  // A retry skips nothing.
  lemma RetryTouches(s: State, id: Id, l: Launch, q: Id)
    requires Retry(s, id, l).1.Ok? && q in s.releases
    ensures var s', r := Retry(s, id, l).0, s.releases[id];
      var old', new' := s.releases[q], s'.releases[q];
      && s'.releases.Keys == s.releases.Keys && s'.instances == s.instances && s'.services == s.services
      && (q == id ==> Launched(s, s', id, l))
      && (q != id ==>
            if Parked(old', r.service, Idle(s.services[r.service].live)) then
              new' == old'.(status := Completed, completedAt := Some(l.now))
            else new' == old')
  {
    RetryAccepted(s, id, l);
    hide HasActiveRelease, HasTrafficSplitRelease, SkipQueuedBefore;
  }

  // ---------------------------------------------------------------- what is queued

  // Not closed yet.
  predicate Pending(r: Release) {
    r.status in {Queued, Dispatching, Deploying, ReadyToSwitch, Switched}
  }

  // A delivery from the build is queued exactly if its service is enabled and has no open release of
  // the same tag and, where the delivery names one, the same commit.
  lemma Queues(s: State, q: Request)
    requires q.releaseId !in s.releases
    ensures var s' := CreateFromCI(s, q).0;
      && (q.releaseId in s'.releases <==>
            && q.service in s.services && s.services[q.service].enabled
            && forall r | r in s.releases && s.releases[r].service == q.service && Pending(s.releases[r]) ::
                 s.releases[r].imageTag != q.imageTag || (q.commit != "" && s.releases[r].commit != q.commit))
      && (q.releaseId in s'.releases ==>
            && var r := s'.releases[q.releaseId];
               && r.service == q.service && r.imageTag == q.imageTag && r.commit == q.commit
               && r.createdAt == q.now && r.status == Queued && r.percent == 0 && r.task.None?
               && r.completedAt.None? && r.agent == s.services[q.service].agent)
      && (forall r | r in s.releases :: r in s'.releases && s'.releases[r] == s.releases[r])
      && (forall r | r in s'.releases :: r in s.releases || r == q.releaseId)
  {
    forall r | r in s.releases
      ensures Duplicates(s.releases[r], q.service, q.imageTag, q.commit) <==>
                s.releases[r].service == q.service && Pending(s.releases[r])
                && !(s.releases[r].imageTag != q.imageTag || (q.commit != "" && s.releases[r].commit != q.commit))
    {
    }
    hide Duplicates, Pending;
  }

  // A release is skipped exactly if it is queued, and nothing else changes.
  lemma Skips(s: State, id: Id, now: Time)
    ensures Skip(s, id, now).1.Ok? <==> id in s.releases && s.releases[id].status == Queued
    ensures var s' := Skip(s, id, now).0;
      s' == if id in s.releases && s.releases[id].status == Queued
            then s.(releases := s.releases[id := s.releases[id].(status := Skipped, completedAt := Some(now))]) else s
  {
  }

  // ---------------------------------------------------------------- what agents report

  // In any state, a report changes nothing unless its task is open and is the one its release, itself
  // not closed, is waiting for.
  lemma ReportNeedsTask(s: State, t: Id, report: Report, slot: Slot, now: Time)
    requires t in s.tasks && s.tasks[t].release in s.releases
    requires var r := s.releases[s.tasks[t].release];
      || s.tasks[t].status in {TaskSucceeded, TaskFailed, TaskTimedOut} || r.task != Some(t)
      || r.status in {Completed, Failed, RolledBack, Skipped}
    ensures HandleTaskUpdate(s, t, report, slot, now) == (s, DONE)
  {
  }

  // A report on an open task: the release deploys; is ready, with a healthy instance that takes no
  // traffic yet; or has failed.
  lemma ReportMoves(s: State, t: Id, report: Report, slot: Slot, now: Time)
    requires Reachable(s) && t in s.tasks && s.tasks[t].status in {TaskPending, TaskDispatched, TaskRunning}
    ensures s.tasks[t].release in s.releases
    ensures var s', task := HandleTaskUpdate(s, t, report, slot, now).0, s.tasks[t];
      var r := s.releases[task.release];
      match report
      case ReportRunning =>
        && s'.tasks == s.tasks[t := task.(status := TaskRunning, updatedAt := now)]
        && s'.releases == s.releases[task.release := r.(status := Deploying)]
        && s'.instances == s.instances
      case ReportSucceeded =>
        && s'.tasks == s.tasks[t := task.(status := TaskSucceeded, updatedAt := now)]
        && s'.releases == s.releases[task.release := r.(status := ReadyToSwitch, percent := 0, confirmed := false)]
        && s'.instances == s.instances[(task.service, slot) := Instance(task.release, true, false, true)]
      case ReportFailed =>
        && s'.tasks == s.tasks[t := task.(status := TaskFailed, updatedAt := now)]
        && s'.releases == s.releases[task.release := r.(status := Failed, completedAt := Some(now))]
        && s'.instances == s.instances
      case ReportOther => s' == s
  {
    OpenTaskHasRelease(s, t);
    ReachableInv(s);
    assert TaskOk(s, t);
    hide Inv;
  }

  // ---------------------------------------------------------------- traffic

  // There is an instance at the slot, and it is healthy.
  predicate Fit(s: State, service: Id, slot: Slot) {
    exists key | key in s.instances :: key == (service, slot) && s.instances[key].healthy
  }

  // In any state a shift is accepted exactly for a percentage of a waiting release, below 100 only if
  // there was a live slot before, and if the instance it relies on is healthy: the old one at 0, the
  // new one otherwise. A rollback relies on the old one.
  lemma ShiftNeedsHealth(s: State, id: Id, p: int, now: Time)
    ensures SetTrafficPercent(s, id, p, now).1.Ok? <==>
      && 0 <= p <= 100 && id in s.releases && s.releases[id].status == ReadyToSwitch
      && var r := s.releases[id];
         (p == 100 || r.prevLive != NoSlot) && Fit(s, r.service, if p == 0 then r.prevLive else r.target)
    ensures Rollback(s, id, now).1.Ok? <==>
      && id in s.releases && s.releases[id].status == ReadyToSwitch
      && var r := s.releases[id]; r.prevLive != NoSlot && Fit(s, r.service, r.prevLive)
  {
    hide UpdateTrafficFlags, CompletePreviousLive, WithLive;
  }

  // Whoever held the slot that was live before, if it is another release and still counts, is completed
  // and gives up its share; it keeps the time it was completed at.
  lemma PreviousGivesUp(
      releases: map<Id, Release>, instances: map<(Id, Slot), Instance>, id: Id, current: Release, now: Time)
    ensures var after, key :=
        CompletePreviousLive(releases, instances, id, current, now), (current.service, current.prevLive);
      if current.prevLive in {Blue, Green} && key in instances && instances[key].release != id
         && instances[key].release in releases
         && releases[instances[key].release].status in {ReadyToSwitch, Switched, Completed}
      then
        var q := instances[key].release;
        after == releases[q := releases[q].(status := Completed, percent := 0, completedAt :=
                   if releases[q].completedAt.None? then Some(now) else releases[q].completedAt)]
      else after == releases
  {
    var key := (current.service, current.prevLive);
    if key in instances && instances[key].release in releases {
      var q := instances[key].release;
      assert releases == releases[q := releases[q]];
    }
  }

  // An accepted shift below 100 stores the percent asked for. At 100 the release is completed, its
  // slot becomes the live one, and the release live until then gives up its share.
  lemma ShiftTouches(s: State, id: Id, p: int, now: Time)
    requires Reachable(s) && id in s.releases && SetTrafficPercent(s, id, p, now).1.Ok?
    ensures var s', r := SetTrafficPercent(s, id, p, now).0, s.releases[id];
      && s'.tasks == s.tasks && s'.releases.Keys == s.releases.Keys && r.service in s'.services
      && (p < 100 ==>
            && s'.releases == s.releases[id := r.(percent := p, confirmed := false, completedAt := None)]
            && s'.services == s.services)
      && (p == 100 ==>
            && s'.releases[id] == r.(percent := 100, confirmed := true, status := Completed, completedAt := Some(now))
            && s'.services[r.service].live == r.target != s.services[r.service].live
            && (forall q | q in s.releases && q != id :: s'.releases[q].percent == s.releases[q].percent
                  || (Occupant(s, r.service) == Some(q) && s'.releases[q].percent == 0)))
  {
    ReachableInv(s);
    assert ReleaseOk(s, id) && LiveOk(s, s.releases[id].service);
    hide Inv, ReleaseOk, LiveOk, HealthyAt, UpdateTrafficFlags;
    FlagsKeepReleases(s.instances, s.releases[id].service, s.releases[id].target, s.releases[id].prevLive);
  }

  lemma FlagsKeepReleases(instances: map<(Id, Slot), Instance>, service: Id, live: Slot, previous: Slot)
    ensures var flags := UpdateTrafficFlags(instances, service, live, previous);
      flags.Keys == instances.Keys && forall key | key in instances :: flags[key].release == instances[key].release
  {
  }

  // A rollback closes the waiting release and leaves the live slot as it is.
  lemma RollbackTouches(s: State, id: Id, now: Time)
    requires Reachable(s) && id in s.releases && Rollback(s, id, now).1.Ok?
    ensures var s', r := Rollback(s, id, now).0, s.releases[id];
      && s'.tasks == s.tasks && s'.services == s.services
      && s'.releases == s.releases[id := r.(status := RolledBack, percent := 0, confirmed := false,
                                            completedAt := Some(now))]
  {
    ReachableInv(s);
    assert ReleaseOk(s, id);
    hide Inv, HealthyAt, UpdateTrafficFlags;
  }

  // ---------------------------------------------------------------- recovery and the timeout scan

  // In any state, recovery and the scan change a task only if it is open and some release has it.
  lemma ScansNeedRelease(s: State, agent: Id, running: set<Id>, replayed: set<Id>, now: Time, t: Id)
    requires t in s.tasks
    requires s.tasks[t].status in {TaskSucceeded, TaskFailed, TaskTimedOut}
             || forall id | id in s.releases :: s.releases[id].task != Some(t)
    ensures RecoverAgentTasks(s, agent, running, replayed, now).tasks[t] == s.tasks[t]
    ensures FailStaleTasks(s, now).tasks[t] == s.tasks[t]
  {
  }

  // Nor does the scan change one whose own release waits for another task or is closed.
  lemma ScanNeedsTask(s: State, now: Time, t: Id)
    requires t in s.tasks && s.tasks[t].release in s.releases
    requires var r := s.releases[s.tasks[t].release];
      r.task != Some(t) || r.status in {Completed, Failed, RolledBack, Skipped}
    ensures FailStaleTasks(s, now).tasks[t] == s.tasks[t]
  {
  }

  // When its agent reconnects, an open task it still runs is marked so, one it accepts again is
  // marked as handed over, and every other task is left alone.
  lemma Recovers(s: State, agent: Id, running: set<Id>, replayed: set<Id>, now: Time, t: Id)
    requires Reachable(s) && t in s.tasks
    ensures var s', task := RecoverAgentTasks(s, agent, running, replayed, now), s.tasks[t];
      var open := task.status in {TaskPending, TaskDispatched, TaskRunning} && task.agent == agent;
      && s' == s.(tasks := s'.tasks) && s'.tasks.Keys == s.tasks.Keys
      && s'.tasks[t] ==
           if open && t in running && task.status != TaskRunning then task.(status := TaskRunning, updatedAt := now)
           else if open && t !in running && t in replayed then task.(status := TaskDispatched, updatedAt := now)
           else task
  {
    ReachableInv(s);
    if !s.tasks[t].status.IsTerminal() { OpenTaskHasRelease(s, t); }
    hide Inv;
  }

  function Or(v: int, fallback: int): int {
    if v == 0 then fallback else v
  }

  // How long a deployment may go without a word: 330 seconds and the two graces of its service, 15
  // and 90 where none is set.
  function Allowance(t: Task): Time {
    (330 + Or(t.startupGrace, 15) + Or(t.httpTimeout, 90)) * 1_000_000_000
  }

  // The scan fails a release exactly if it is deploying and its allowance has passed since the last
  // word of or to its task; nothing else of it changes. Allowances are taken to fit into 64 bits.
  lemma ScanFails(s: State, now: Time, id: Id)
    requires Reachable(s) && id in s.releases
    requires forall t | t in s.tasks :: -9223372036854775808 <= Allowance(s.tasks[t]) <= 9223372036854775807
    ensures var s', r := FailStaleTasks(s, now), s.releases[id];
      && s'.releases.Keys == s.releases.Keys && s'.instances == s.instances && s'.services == s.services
      && (r.status in {Dispatching, Deploying} ==> r.task.Some? && r.task.value in s.tasks)
      && s'.releases[id] ==
           if r.status in {Dispatching, Deploying}
              && s.tasks[r.task.value].updatedAt + Allowance(s.tasks[r.task.value]) < now
           then r.(status := Failed, completedAt := Some(now)) else r
  {
    ReachableInv(s);
    NoStaleTaskSurvives(s, now, id);
    StaleOwner(s, now, id);
    if s.releases[id].status.InFlight() {
      InFlightIsVisible(s, id);
      TimeoutIsExact(s.tasks[s.releases[id].task.value]);
    }
    hide Inv, TimeoutFor;
  }

  // And it ends exactly the tasks that are open and past their allowance.
  lemma ScanEnds(s: State, now: Time, t: Id)
    requires Reachable(s) && t in s.tasks
    requires -9223372036854775808 <= Allowance(s.tasks[t]) <= 9223372036854775807
    ensures var s', task := FailStaleTasks(s, now), s.tasks[t];
      && s'.tasks.Keys == s.tasks.Keys
      && s'.tasks[t] ==
           if task.status in {TaskPending, TaskDispatched, TaskRunning} && task.updatedAt + Allowance(task) < now
           then task.(status := TaskTimedOut, updatedAt := now) else task
  {
    TimeoutIsExact(s.tasks[t]);
    if !s.tasks[t].status.IsTerminal() { OpenTaskHasRelease(s, t); }
    hide TimeoutFor, Reachable;
  }
}
