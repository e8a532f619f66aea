/** What operators and agents can rely on, over every run of the release service. */
module ReleaseTheorems {
  import opened Wrappers
  import opened ReleaseModel
  import opened ReleaseInvariant

  ghost predicate Reachable(s: State) {
    exists es :: AdmissibleRun(EMPTY, es) && s == Run(EMPTY, es)
  }

  lemma ReachableInv(s: State)
    requires Reachable(s)
    ensures Inv(s)
  {
    var es :| AdmissibleRun(EMPTY, es) && s == Run(EMPTY, es);
    EmptyInv();
    RunInv(EMPTY, es);
  }

  lemma {:induction false} RunOn(s: State, es: seq<Event>, e: Event)
    requires AdmissibleRun(s, es) && Admissible(Run(s, es), e)
    ensures AdmissibleRun(s, es + [e]) && Run(s, es + [e]) == Apply(Run(s, es), e)
    decreases |es|
  {
    hide Apply, Admissible;
    if es == [] {
      assert [] + [e] == [e] && [e][1..] == [];
      assert Run(Apply(s, e), []) == Apply(s, e);
    } else {
      assert (es + [e])[0] == es[0] && (es + [e])[1..] == es[1..] + [e];
      RunOn(Apply(s, es[0]), es[1..], e);
    }
  }

  lemma ReachableOn(s: State, e: Event)
    requires Reachable(s) && Admissible(s, e)
    ensures Reachable(Apply(s, e))
  {
    hide Apply, Admissible, Run, AdmissibleRun;
    var es :| AdmissibleRun(EMPTY, es) && s == Run(EMPTY, es);
    RunOn(EMPTY, es, e);
  }

  // ------------------------------------------------------------ one release at a time

  // A service never has two releases deploying or waiting to be switched, and the one it has
  // was prepared against the current live slot and sits on the other one.
  lemma OneReleaseAtATime(s: State, a: Id, b: Id)
    requires Reachable(s) && a in s.releases && b in s.releases
    requires s.releases[a].status.Busy() && s.releases[b].status.Busy()
    requires s.releases[a].service == s.releases[b].service
    ensures a == b
    ensures s.releases[a].prevLive == LiveSlot(s, s.releases[a].service)
    ensures s.releases[a].target == NextSlot(LiveSlot(s, s.releases[a].service))
    ensures s.releases[a].target != LiveSlot(s, s.releases[a].service)
  {
    ReachableInv(s);
    assert ReleaseOk(s, a);
    assert BusyIn(s, a, s.releases[a].service) && BusyIn(s, b, s.releases[a].service);
  }

  // Starting a release closes the one parked at 0% rather than running beside it.
  lemma StartClosesParked(s: State, id: Id, l: Launch, parked: Id)
    requires Reachable(s) && Start(s, id, l).1.Ok?
    requires parked in s.releases && parked != id && s.releases[parked].service == s.releases[id].service
    requires s.releases[parked].status.Busy()
    ensures var s' := Start(s, id, l).0;
      && s'.releases[parked] == Finish(s.releases[parked], Completed, l.now)
      && s'.releases[id].status == Dispatching && s'.releases[id].target == s.releases[parked].target
  {
    ReachableInv(s);
    OnlyParkedRemains(s, s.releases[id].service, parked);
    assert ReleaseOk(s, parked);
  }

  // ------------------------------------------------------------ the live slot

  // With a live slot, exactly its instance takes traffic, it is healthy, and it belongs to the
  // only release at 100%.
  lemma LiveSlotServes(s: State, service: Id)
    requires Reachable(s) && LiveSlot(s, service) != NoSlot
    ensures var key := (service, LiveSlot(s, service));
      && key in s.instances && s.instances[key].healthy && s.instances[key].active
      && (forall slot :: (service, slot) in s.instances && s.instances[(service, slot)].accepting <==> slot == key.1)
      && (forall id :: (id in s.releases && s.releases[id].service == service && s.releases[id].percent == 100)
                       <==> id == s.instances[key].release)
      && s.releases[s.instances[key].release].status == Completed
  {
    ReachableInv(s);
    assert LiveOk(s, service);
    var key := (service, LiveSlot(s, service));
    assert InstanceOk(s, key);
    assert ReleaseOk(s, s.instances[key].release);
    forall slot | (service, slot) in s.instances && s.instances[(service, slot)].accepting ensures slot == key.1 {
      assert InstanceOk(s, (service, slot));
    }
    forall id | id in s.releases && s.releases[id].service == service && s.releases[id].percent == 100
      ensures id == s.instances[key].release
    {
      assert ReleaseOk(s, id);
    }
  }

  ghost function Occupant(s: State, service: Id): Option<Id> {
    var key := (service, LiveSlot(s, service));
    if key in s.instances then Some(s.instances[key].release) else None
  }

  // An accepted confirmation: some release of the service goes to 100%.
  ghost predicate Confirms(s: State, e: Event, service: Id) {
    && e.Shifting? && e.percent == 100 && SetTrafficPercent(s, e.id, 100, e.now).1.Ok?
    && s.releases[e.id].service == service
  }

  lemma SlotsUntouched(s: State, e: Event)
    requires e.Creating? || e.Starting? || e.Retrying? || e.Skipping? || e.Recovering? || e.FailingStale?
    ensures Apply(s, e).services == s.services && Apply(s, e).instances == s.instances
  {
    hide CompleteSuperseded, SkipQueuedBefore, HasActiveRelease, Duplicates, HasNewerSuccessfulRelease;
  }

  ghost predicate StaysPut(s: State, s': State, service: Id) {
    LiveSlot(s', service) == LiveSlot(s, service) && Occupant(s', service) == Occupant(s, service)
  }

  lemma ShiftMoves(s: State, id: Id, percent: int, now: Time, service: Id)
    requires Inv(s) && LiveSlot(s, service) != NoSlot && SetTrafficPercent(s, id, percent, now).1.Ok?
    ensures var s' := SetTrafficPercent(s, id, percent, now).0;
      if percent == 100 && s.releases[id].service == service
      then LiveSlot(s', service) == NextSlot(LiveSlot(s, service)) && Occupant(s', service) == Some(id)
          && Occupant(s, service) != Some(id)
      else StaysPut(s, s', service)
  {
    assert ReleaseOk(s, id);
    assert LiveOk(s, service);
    hide Inv, CompletePreviousLive;
  }

  lemma RollbackStays(s: State, id: Id, now: Time, service: Id)
    requires Inv(s)
    ensures StaysPut(s, Rollback(s, id, now).0, service)
  {
    if Rollback(s, id, now).1.Ok? { assert ReleaseOk(s, id); }
    hide Inv;
  }

  lemma ReportStays(s: State, task: Id, report: Report, slot: Slot, now: Time, service: Id)
    requires Inv(s) && Admissible(s, Reporting(task, report, slot, now)) && LiveSlot(s, service) != NoSlot
    ensures StaysPut(s, HandleTaskUpdate(s, task, report, slot, now).0, service)
  {
    if task in s.tasks && s.tasks[task].release in s.releases && !Late(s, task) {
      UpdatedOwner(s, task, report, slot, now, HandleTaskUpdate(s, task, report, slot, now).0);
    }
    hide Inv;
  }

  // Nothing but a confirmation moves a live slot that is set, or changes who occupies it.
  lemma OnlyConfirmationMovesTraffic(s: State, e: Event, service: Id)
    requires Inv(s) && Admissible(s, e) && LiveSlot(s, service) != NoSlot
    ensures !Confirms(s, e, service) ==>
      LiveSlot(Apply(s, e), service) == LiveSlot(s, service) && Occupant(Apply(s, e), service) == Occupant(s, service)
    ensures Confirms(s, e, service) ==>
      && LiveSlot(Apply(s, e), service) == NextSlot(LiveSlot(s, service))
      && Occupant(Apply(s, e), service) == Some(e.id) && Occupant(s, service) != Some(e.id)
  {
    hide SetTrafficPercent, Rollback, HandleTaskUpdate, Start, Retry, CreateFromCI, Skip, RecoverAgentTasks,
        FailStaleTasks, Inv;
    match e
    case Shifting(id, percent, now) =>
      if SetTrafficPercent(s, id, percent, now).1.Ok? {
        ShiftMoves(s, id, percent, now, service);
      } else {
        RefusedShift(s, id, percent, now);
      }
    case RollingBack(id, now) => RollbackStays(s, id, now, service);
    case Reporting(task, report, slot, now) => ReportStays(s, task, report, slot, now, service);
    case CreatingService(_, _) =>
    case EditingService(_, _) =>
    case _ => SlotsUntouched(s, e);
  }

  lemma RefusedShift(s: State, id: Id, percent: int, now: Time)
    requires SetTrafficPercent(s, id, percent, now).1.Err?
    ensures SetTrafficPercent(s, id, percent, now).0 == s
  {
  }

  // A service with no live slot keeps none until a release is confirmed.
  lemma NoSlotUntilConfirmed(s: State, e: Event, service: Id)
    requires Inv(s) && Admissible(s, e) && LiveSlot(s, service) == NoSlot
    ensures LiveSlot(Apply(s, e), service) != NoSlot <==> Confirms(s, e, service)
  {
    hide Start, Retry, CreateFromCI, Skip, RecoverAgentTasks, FailStaleTasks, CompletePreviousLive, Late;
    match e
    case Shifting(id, percent, now) =>
      if SetTrafficPercent(s, id, percent, now).1.Ok? { assert ReleaseOk(s, id); }
    case RollingBack(id, now) => RollbackStays(s, id, now, service);
    case Reporting(_, _, _, _) =>
    case CreatingService(_, _) =>
    case EditingService(_, _) =>
    case _ => SlotsUntouched(s, e);
  }

  ghost predicate ConfirmsSome(s: State, es: seq<Event>, service: Id)
    decreases |es|
  {
    es != [] && (Confirms(s, es[0], service) || ConfirmsSome(Apply(s, es[0]), es[1..], service))
  }

  // Deploys, failures, timeouts, skips, rollbacks and partial shifts, in any number and order,
  // leave the live slot and its release alone.
  lemma {:induction false} TrafficStaysPut(s: State, es: seq<Event>, service: Id)
    requires Inv(s) && AdmissibleRun(s, es) && LiveSlot(s, service) != NoSlot
    requires !ConfirmsSome(s, es, service)
    ensures LiveSlot(Run(s, es), service) == LiveSlot(s, service)
    ensures Occupant(Run(s, es), service) == Occupant(s, service)
    decreases |es|
  {
    if es != [] {
      OnlyConfirmationMovesTraffic(s, es[0], service);
      ApplyInv(s, es[0]);
      TrafficStaysPut(Apply(s, es[0]), es[1..], service);
    }
  }

  // In a reachable state the health checks never refuse: only the status, the percent and the
  // missing baseline do.
  lemma ShiftAccepted(s: State, id: Id, percent: int, now: Time)
    requires Reachable(s) && id in s.releases
    ensures SetTrafficPercent(s, id, percent, now).1.Ok? <==>
      && 0 <= percent <= 100 && s.releases[id].status == ReadyToSwitch
      && (percent == 100 || LiveSlot(s, s.releases[id].service) != NoSlot)
    ensures Rollback(s, id, now).1.Ok? <==>
      s.releases[id].status == ReadyToSwitch && LiveSlot(s, s.releases[id].service) != NoSlot
  {
    ReachableInv(s);
    var r := s.releases[id];
    assert ReleaseOk(s, id);
    assert LiveOk(s, r.service);
    if r.status == ReadyToSwitch {
      assert InstanceOk(s, (r.service, r.target));
      if r.prevLive != NoSlot { assert InstanceOk(s, (r.service, r.prevLive)); }
    }
  }

  // ------------------------------------------------------------ nothing is wedged

  // A release is in flight exactly when its current task is open, and every open task is one
  // that recovery (for its agent) and the timeout scan both see.
  lemma InFlightIsVisible(s: State, id: Id)
    requires Reachable(s) && id in s.releases
    ensures s.releases[id].status.InFlight() <==> TaskIsOpen(s, s.releases[id].task)
    ensures s.releases[id].status.InFlight() ==>
      && Outstanding(s, s.releases[id].task.value) && !Late(s, s.releases[id].task.value)
      && Recoverable(s, s.releases[id].task.value, s.tasks[s.releases[id].task.value].agent)
  {
    ReachableInv(s);
    assert ReleaseOk(s, id);
  }

  lemma OpenTaskHasRelease(s: State, t: Id)
    requires Reachable(s) && t in s.tasks && !s.tasks[t].status.IsTerminal()
    ensures s.tasks[t].release in s.releases && s.releases[s.tasks[t].release].task == Some(t)
    ensures s.releases[s.tasks[t].release].status.InFlight() && Outstanding(s, t) && !Late(s, t)
  {
    ReachableInv(s);
    assert TaskOk(s, t);
    assert ReleaseOk(s, s.tasks[t].release);
  }

  // After the scan no open task is past its timeout; the releases it failed are exactly those
  // that were waiting for one.
  lemma NoStaleTaskSurvives(s: State, now: Time, id: Id)
    requires Reachable(s) && id in s.releases
    ensures var s' := FailStaleTasks(s, now);
      && (s'.releases[id].status.InFlight() ==>
            s'.releases[id].task.Some? && s'.releases[id].task.value in s'.tasks
            && !TimedOut(s'.tasks[s'.releases[id].task.value], now))
      && (s'.releases[id] != s.releases[id] <==>
            s.releases[id].status.InFlight() && TimedOut(s.tasks[s.releases[id].task.value], now))
      && (s'.releases[id] != s.releases[id] ==>
            s'.releases[id].status == Failed && s'.tasks[s.releases[id].task.value].status == TaskTimedOut)
  {
    ReachableInv(s);
    assert ReleaseOk(s, id);
    StaleOwner(s, now, id);
    if s.releases[id].status.InFlight() {
      InFlightIsVisible(s, id);
    }
  }

  // ------------------------------------------------------------ late updates

  lemma LateMeansOver(s: State, t: Id)
    requires Inv(s) && t in s.tasks
    ensures Late(s, t) <==> s.tasks[t].status.IsTerminal()
  {
    assert TaskOk(s, t);
    assert ReleaseOk(s, s.tasks[t].release);
  }

  lemma OverStaysOver(s: State, e: Event, t: Id)
    requires Inv(s) && Admissible(s, e) && t in s.tasks && s.tasks[t].status.IsTerminal()
    ensures t in Apply(s, e).tasks && Apply(s, e).tasks[t] == s.tasks[t]
  {
    LateMeansOver(s, t);
  }

  lemma {:induction false} OverForever(s: State, es: seq<Event>, t: Id)
    requires Inv(s) && AdmissibleRun(s, es) && t in s.tasks && s.tasks[t].status.IsTerminal()
    ensures t in Run(s, es).tasks && Run(s, es).tasks[t] == s.tasks[t]
    decreases |es|
  {
    if es != [] {
      OverStaysOver(s, es[0], t);
      ApplyInv(s, es[0]);
      OverForever(Apply(s, es[0]), es[1..], t);
    }
  }

  // Once a task has ended, or its release has moved on to another one, no later update of it,
  // however often and in whatever order it arrives, changes a release, a task or an instance.
  lemma LateUpdatesChangeNothing(s: State, es: seq<Event>, t: Id, report: Report, slot: Slot, now: Time)
    requires Reachable(s) && AdmissibleRun(s, es) && t in s.tasks && Late(s, t)
    ensures HandleTaskUpdate(Run(s, es), t, report, slot, now) == (Run(s, es), DONE)
  {
    ReachableInv(s);
    LateMeansOver(s, t);
    OverForever(s, es, t);
    RunInv(s, es);
    LateMeansOver(Run(s, es), t);
    assert TaskOk(Run(s, es), t);
  }

  // The final report of a task is idempotent: whatever is reported after it is late.
  lemma FinalReportsEndTheTask(s: State, t: Id, report: Report, slot: Slot, now: Time)
    requires Reachable(s) && t in s.tasks && report in {ReportSucceeded, ReportFailed}
    requires Admissible(s, Reporting(t, report, slot, now))
    ensures Late(HandleTaskUpdate(s, t, report, slot, now).0, t)
  {
    ReachableInv(s);
    assert TaskOk(s, t);
  }
}
