/** What every operation of the release service keeps: slots, tasks, instances and percents
    only stay consistent together, so they are one invariant. */
module ReleaseInvariant {
  import opened Wrappers
  import opened ReleaseModel

  ghost function LiveSlot(s: State, service: Id): Slot {
    if service in s.services then s.services[service].live else NoSlot
  }

  // The release whose container sits in the live slot.
  ghost predicate Occupies(s: State, id: Id, service: Id) {
    var key := (service, LiveSlot(s, service));
    key in s.instances && s.instances[key].release == id
  }

  ghost predicate PercentOk(r: Release) {
    if r.status == ReadyToSwitch then 0 <= r.percent <= 99
    else if r.status == Completed then r.percent in {0, 100}
    else r.percent == 0
  }

  ghost predicate TaskIsOpen(s: State, task: Option<Id>) {
    task.Some? && task.value in s.tasks && !s.tasks[task.value].status.IsTerminal()
  }

  ghost predicate ReleaseOk(s: State, id: Id)
    requires id in s.releases
  {
    var r := s.releases[id];
    var live := LiveSlot(s, r.service);
    && r.service in s.services
    && r.status != Switched
    && PercentOk(r)
    && (r.status.Busy() ==> r.prevLive == live && r.target == NextSlot(live))
    && (r.percent > 0 ==> live != NoSlot)
    && (r.percent == 100 ==> Occupies(s, id, r.service))
    && (r.task.Some? ==> r.task.value in s.tasks && s.tasks[r.task.value].release == id)
    && (r.status.InFlight() <==> TaskIsOpen(s, r.task))
    && (r.status == ReadyToSwitch ==>
          (r.service, r.target) in s.instances && s.instances[(r.service, r.target)].release == id)
  }

  ghost predicate TaskOk(s: State, id: Id)
    requires id in s.tasks
  {
    var t := s.tasks[id];
    && t.release in s.releases
    && t.service == s.releases[t.release].service
    && (!t.status.IsTerminal() ==>
          s.releases[t.release].task == Some(id) && t.target == s.releases[t.release].target)
  }

  ghost predicate InstanceOk(s: State, key: (Id, Slot))
    requires key in s.instances
  {
    var i := s.instances[key];
    && key.1 != NoSlot
    && i.healthy
    && (i.accepting ==> key.1 == LiveSlot(s, key.0))
    && i.release in s.releases
    && s.releases[i.release].service == key.0
    && s.releases[i.release].target == key.1
    && s.releases[i.release].status in {ReadyToSwitch, Completed, RolledBack}
  }

  ghost predicate LiveOk(s: State, service: Id) {
    var live := LiveSlot(s, service);
    live != NoSlot ==>
      && (service, live) in s.instances
      && s.instances[(service, live)].accepting
      && s.instances[(service, live)].active
      && s.instances[(service, live)].release in s.releases
      && s.releases[s.instances[(service, live)].release].percent == 100
  }

  ghost predicate BusyIn(s: State, id: Id, service: Id) {
    id in s.releases && s.releases[id].service == service && s.releases[id].status.Busy()
  }

  ghost predicate OneBusy(s: State) {
    forall service, a, b {:trigger BusyIn(s, a, service), BusyIn(s, b, service)} ::
      BusyIn(s, a, service) && BusyIn(s, b, service) ==> a == b
  }

  ghost predicate Inv(s: State) {
    && (forall id {:trigger ReleaseOk(s, id)} | id in s.releases :: ReleaseOk(s, id))
    && (forall id {:trigger TaskOk(s, id)} | id in s.tasks :: TaskOk(s, id))
    && (forall key {:trigger InstanceOk(s, key)} | key in s.instances :: InstanceOk(s, key))
    && (forall service {:trigger LiveOk(s, service)} | service in s.services :: LiveOk(s, service))
    && OneBusy(s)
  }

  // No operation but a launch makes a release busy.
  lemma KeepsOneBusy(s: State, s': State)
    requires OneBusy(s)
    requires forall id, service {:trigger BusyIn(s', id, service)} ::
               BusyIn(s', id, service) ==> BusyIn(s, id, service)
    ensures OneBusy(s')
  {
  }

  lemma EmptyInv()
    ensures Inv(EMPTY)
  {
  }

  lemma CatalogueEffect(s: State, e: Event)
    requires e.CreatingService? || e.EditingService?
    ensures var s' := Apply(s, e);
      && s'.releases == s.releases && s'.tasks == s.tasks && s'.instances == s.instances
      && s.services.Keys <= s'.services.Keys
      && forall service :: LiveSlot(s', service) == LiveSlot(s, service)
  {
  }

  lemma CatalogueInv(s: State, e: Event)
    requires Inv(s) && (e.CreatingService? || e.EditingService?)
    ensures Inv(Apply(s, e))
  {
    hide Apply;
    var s' := Apply(s, e);
    CatalogueEffect(s, e);
    SameRowsInv(s, s');
  }

  // The invariant only depends on the rows, the live slots and which services there are.
  lemma SameRowsInv(s: State, s': State)
    requires Inv(s) && s'.releases == s.releases && s'.tasks == s.tasks && s'.instances == s.instances
    requires s.services.Keys <= s'.services.Keys && forall service :: LiveSlot(s', service) == LiveSlot(s, service)
    ensures Inv(s')
  {
    forall id | id in s'.releases ensures ReleaseOk(s', id) { assert ReleaseOk(s, id); }
    forall id | id in s'.tasks ensures TaskOk(s', id) { assert TaskOk(s, id); }
    forall key | key in s'.instances ensures InstanceOk(s', key) { assert InstanceOk(s, key); }
    forall service | service in s'.services ensures LiveOk(s', service) {
      assert LiveSlot(s', service) == LiveSlot(s, service);
      if service in s.services { assert LiveOk(s, service); }
    }
    hide ReleaseOk, TaskOk, InstanceOk, LiveOk;
    KeepsOneBusy(s, s');
  }

  lemma CreateInv(s: State, q: Request)
    requires Inv(s) && q.releaseId !in s.releases
    ensures Inv(CreateFromCI(s, q).0)
  {
    hide Duplicates;
    var s' := CreateFromCI(s, q).0;
    CreatedReleases(s, q);
    forall id | id in s'.tasks ensures TaskOk(s', id) { assert TaskOk(s, id); }
    forall key | key in s'.instances ensures InstanceOk(s', key) { assert InstanceOk(s, key); }
    forall service | service in s'.services ensures LiveOk(s', service) { assert LiveOk(s, service); }
    hide ReleaseOk, TaskOk, InstanceOk, LiveOk;
    KeepsOneBusy(s, s');
  }

  lemma CreatedReleases(s: State, q: Request)
    requires Inv(s) && q.releaseId !in s.releases
    ensures var s' := CreateFromCI(s, q).0; forall id | id in s'.releases :: ReleaseOk(s', id)
  {
    hide Duplicates;
    var s' := CreateFromCI(s, q).0;
    forall id | id in s'.releases ensures ReleaseOk(s', id) {
      if id in s.releases { assert ReleaseOk(s, id); }
    }
  }

  lemma SkipInv(s: State, id: Id, now: Time)
    requires Inv(s)
    ensures Inv(Skip(s, id, now).0)
  {
    var s' := Skip(s, id, now).0;
    forall x | x in s'.releases ensures ReleaseOk(s', x) { assert ReleaseOk(s, x); }
    forall t | t in s'.tasks ensures TaskOk(s', t) { assert TaskOk(s, t); }
    forall key | key in s'.instances ensures InstanceOk(s', key) { assert InstanceOk(s, key); }
    forall service | service in s'.services ensures LiveOk(s', service) { assert LiveOk(s, service); }
    KeepsOneBusy(s, s');
  }

  // Once a start or retry is let through, the only busy release its service can have is the
  // one parked at 0%, and that one sits on the slot about to be reused.
  lemma OnlyParkedRemains(s: State, service: Id, other: Id)
    requires Inv(s) && !HasActiveRelease(s.releases, service)
    requires other in s.releases && s.releases[other].service == service && s.releases[other].status.Busy()
    ensures s.releases[other].status == ReadyToSwitch && s.releases[other].percent == 0
    ensures s.releases[other].target == NextSlot(LiveSlot(s, service))
  {
    assert ReleaseOk(s, other);
    assert !BlocksStart(s.releases[other], service);
  }

  ghost predicate Launched(s: State, id: Id, l: Launch, skipOlder: bool, s': State) {
    && Inv(s) && id in s.releases && s.releases[id].service in s.services
    && s.releases[id].status in {Queued, Skipped, Failed}
    && !HasActiveRelease(s.releases, s.releases[id].service)
    && l.taskId !in s.tasks
    && s' == LaunchRelease(s, id, l, skipOlder).0
  }

  lemma LaunchedRow(s: State, id: Id, l: Launch, skipOlder: bool, s': State, x: Id)
    requires Launched(s, id, l, skipOlder, s') && x in s.releases && x != id
    ensures x in s'.releases
    ensures
      || s'.releases[x] == s.releases[x]
      || (s.releases[x].status == Queued && s'.releases[x] == Finish(s.releases[x], Skipped, l.now))
      || (s.releases[x].status == ReadyToSwitch && s.releases[x].percent == 0
          && s'.releases[x] == Finish(s.releases[x], Completed, l.now))
  {
    assert ReleaseOk(s, x);
  }

  lemma LaunchedRows(s: State, id: Id, l: Launch, skipOlder: bool, s': State)
    requires Launched(s, id, l, skipOlder, s')
    ensures s'.services == s.services && s'.instances == s.instances
    ensures forall t | t in s.tasks :: t in s'.tasks && s'.tasks[t] == s.tasks[t]
  {
  }

  lemma LaunchedSelfRow(s: State, id: Id, l: Launch, skipOlder: bool, s': State)
    requires Launched(s, id, l, skipOlder, s')
    ensures id in s'.releases
    ensures var r, r' := s.releases[id], s'.releases[id];
      var live := s.services[r.service].live;
      if !l.prepared then r' == r
      else
        && r'.service == r.service && r'.prevLive == live && r'.target == NextSlot(live) && r'.percent == 0
        && r'.task == Some(l.taskId) && l.taskId in s'.tasks && s'.tasks[l.taskId].release == id
        && (if l.delivery == Rejected then r'.status == Failed && s'.tasks[l.taskId].status.IsTerminal()
            else r'.status == Dispatching && !s'.tasks[l.taskId].status.IsTerminal())
  {
    hide HasActiveRelease, Inv;
  }

  lemma LaunchedSelf(s: State, id: Id, l: Launch, skipOlder: bool, s': State)
    requires Launched(s, id, l, skipOlder, s')
    ensures id in s'.releases && ReleaseOk(s', id)
  {
    hide LaunchRelease, HasActiveRelease;
    assert ReleaseOk(s, id);
    LaunchedRows(s, id, l, skipOlder, s');
    LaunchedSelfRow(s, id, l, skipOlder, s');
  }

  lemma LaunchedReleases(s: State, id: Id, l: Launch, skipOlder: bool, s': State, x: Id)
    requires Launched(s, id, l, skipOlder, s') && x in s.releases
    ensures x in s'.releases && ReleaseOk(s', x)
  {
    hide LaunchRelease, HasActiveRelease;
    if x == id {
      LaunchedSelf(s, id, l, skipOlder, s');
    } else {
      LaunchedRows(s, id, l, skipOlder, s');
      LaunchedRow(s, id, l, skipOlder, s', x);
      assert ReleaseOk(s, x);
    }
  }

  lemma LaunchedNewTask(s: State, id: Id, l: Launch, skipOlder: bool, s': State, t: Id)
    requires Launched(s, id, l, skipOlder, s') && t in s'.tasks && t !in s.tasks
    ensures TaskOk(s', t)
  {
    hide CompleteSuperseded, HasActiveRelease;
  }

  lemma LaunchedTasks(s: State, id: Id, l: Launch, skipOlder: bool, s': State, t: Id)
    requires Launched(s, id, l, skipOlder, s') && t in s'.tasks
    ensures TaskOk(s', t)
  {
    hide LaunchRelease, HasActiveRelease;
    if t in s.tasks {
      assert TaskOk(s, t);
      assert ReleaseOk(s, s.tasks[t].release);
      LaunchedRows(s, id, l, skipOlder, s');
      if s.tasks[t].release == id {
        LaunchedService(s, id, l, skipOlder, s');
      } else {
        LaunchedRow(s, id, l, skipOlder, s', s.tasks[t].release);
      }
    } else {
      LaunchedNewTask(s, id, l, skipOlder, s', t);
    }
  }

  lemma LaunchedService(s: State, id: Id, l: Launch, skipOlder: bool, s': State)
    requires Launched(s, id, l, skipOlder, s')
    ensures id in s'.releases && s'.releases[id].service == s.releases[id].service
  {
    hide HasActiveRelease, Inv;
  }

  lemma LaunchedInstances(s: State, id: Id, l: Launch, skipOlder: bool, s': State, key: (Id, Slot))
    requires Launched(s, id, l, skipOlder, s') && key in s'.instances
    ensures InstanceOk(s', key)
  {
    hide LaunchRelease, HasActiveRelease;
    LaunchedRows(s, id, l, skipOlder, s');
    assert InstanceOk(s, key);
    LaunchedRow(s, id, l, skipOlder, s', s.instances[key].release);
  }

  lemma LaunchedLive(s: State, id: Id, l: Launch, skipOlder: bool, s': State, service: Id)
    requires Launched(s, id, l, skipOlder, s') && service in s'.services
    ensures LiveOk(s', service)
  {
    assert LiveOk(s, service);
    if LiveSlot(s, service) != NoSlot {
      assert ReleaseOk(s, s.instances[(service, LiveSlot(s, service))].release);
    }
  }

  lemma LaunchedBusy(s: State, id: Id, l: Launch, skipOlder: bool, s': State, x: Id, service: Id)
    requires Launched(s, id, l, skipOlder, s') && BusyIn(s', x, service)
    ensures BusyIn(s, x, service) || x == id
    ensures service == s.releases[id].service && l.prepared ==> x == id
    ensures x == id ==> service == s.releases[id].service && l.prepared
  {
    if x in s.releases && x != id { LaunchedRow(s, id, l, skipOlder, s', x); }
    if x != id && service == s.releases[id].service && l.prepared {
      OnlyParkedRemains(s, service, x);
    }
  }

  lemma LaunchInv(s: State, id: Id, l: Launch, skipOlder: bool, s': State)
    requires Launched(s, id, l, skipOlder, s')
    ensures Inv(s')
  {
    forall x | x in s'.releases ensures ReleaseOk(s', x) { LaunchedReleases(s, id, l, skipOlder, s', x); }
    forall t | t in s'.tasks ensures TaskOk(s', t) { LaunchedTasks(s, id, l, skipOlder, s', t); }
    forall key | key in s'.instances ensures InstanceOk(s', key) { LaunchedInstances(s, id, l, skipOlder, s', key); }
    forall service | service in s'.services ensures LiveOk(s', service) {
      LaunchedLive(s, id, l, skipOlder, s', service);
    }
    forall service, a, b {:trigger BusyIn(s', a, service), BusyIn(s', b, service)}
      | BusyIn(s', a, service) && BusyIn(s', b, service) ensures a == b
    {
      LaunchedBusy(s, id, l, skipOlder, s', a, service);
      LaunchedBusy(s, id, l, skipOlder, s', b, service);
    }
  }

  lemma StartInv(s: State, id: Id, l: Launch)
    requires Inv(s) && l.taskId !in s.tasks
    ensures Inv(Start(s, id, l).0)
  {
    if Start(s, id, l).0 != s { LaunchInv(s, id, l, true, Start(s, id, l).0); }
  }

  lemma RetryInv(s: State, id: Id, l: Launch)
    requires Inv(s) && l.taskId !in s.tasks
    ensures Inv(Retry(s, id, l).0)
  {
    if Retry(s, id, l).0 != s { LaunchInv(s, id, l, false, Retry(s, id, l).0); }
  }

  // Below 100% and on rollback the live slot is written back as it was.
  ghost predicate Held(s: State, id: Id, r': Release, s': State) {
    && Inv(s) && id in s.releases
    && s.releases[id].status == ReadyToSwitch && s.releases[id].prevLive != NoSlot
    && r' == s.releases[id].(status := r'.status, percent := r'.percent,
                             confirmed := r'.confirmed, completedAt := r'.completedAt)
    && ((r'.status == ReadyToSwitch && 0 <= r'.percent <= 99) || (r'.status == RolledBack && r'.percent == 0))
    && s' == s.(services := WithLive(s.services, r'.service, r'.prevLive),
                instances := UpdateTrafficFlags(s.instances, r'.service, r'.prevLive, r'.target),
                releases := s.releases[id := r'])
  }

  lemma HeldKeepsSlots(s: State, id: Id, r': Release, s': State)
    requires Held(s, id, r', s')
    ensures s'.services == s.services && s'.instances.Keys == s.instances.Keys
    ensures forall key | key in s.instances :: s'.instances[key].release == s.instances[key].release
    ensures LiveSlot(s, r'.service) == r'.prevLive && r'.target == NextSlot(r'.prevLive)
  {
    assert ReleaseOk(s, id);
  }

  lemma HeldReleases(s: State, id: Id, r': Release, s': State, x: Id)
    requires Held(s, id, r', s') && x in s'.releases
    ensures ReleaseOk(s', x)
  {
    HeldKeepsSlots(s, id, r', s');
    assert ReleaseOk(s, x);
  }

  lemma HeldInstances(s: State, id: Id, r': Release, s': State, key: (Id, Slot))
    requires Held(s, id, r', s') && key in s'.instances
    ensures InstanceOk(s', key)
  {
    HeldKeepsSlots(s, id, r', s');
    assert InstanceOk(s, key);
  }

  lemma HeldLive(s: State, id: Id, r': Release, s': State, service: Id)
    requires Held(s, id, r', s') && service in s'.services
    ensures LiveOk(s', service)
  {
    HeldKeepsSlots(s, id, r', s');
    assert LiveOk(s, service);
    if LiveSlot(s, service) != NoSlot {
      assert ReleaseOk(s, s.instances[(service, LiveSlot(s, service))].release);
    }
  }

  lemma HoldInv(s: State, id: Id, r': Release, s': State)
    requires Held(s, id, r', s')
    ensures Inv(s')
  {
    forall x | x in s'.releases ensures ReleaseOk(s', x) { HeldReleases(s, id, r', s', x); }
    forall t | t in s'.tasks ensures TaskOk(s', t) { assert TaskOk(s, t); }
    forall key | key in s'.instances ensures InstanceOk(s', key) { HeldInstances(s, id, r', s', key); }
    forall service | service in s'.services ensures LiveOk(s', service) { HeldLive(s, id, r', s', service); }
    KeepsOneBusy(s, s');
  }

  lemma RollbackInv(s: State, id: Id, now: Time)
    requires Inv(s)
    ensures Inv(Rollback(s, id, now).0)
  {
    var s' := Rollback(s, id, now).0;
    if s' != s { HoldInv(s, id, s'.releases[id], s'); }
  }

  // Confirming: the target slot becomes live and the release that was live drops to 0%.
  ghost predicate Confirmed(s: State, id: Id, now: Time, s': State) {
    && Inv(s)
    && SetTrafficPercent(s, id, 100, now) == (s', DONE)
  }

  lemma ConfirmedSlots(s: State, id: Id, now: Time, s': State)
    requires Confirmed(s, id, now, s')
    ensures var r := s.releases[id];
      && r.service in s.services
      && s'.services == s.services[r.service := s.services[r.service].(live := r.target)]
      && s'.instances.Keys == s.instances.Keys
      && (forall key | key in s.instances :: s'.instances[key].release == s.instances[key].release)
      && r.prevLive == LiveSlot(s, r.service) && r.target == NextSlot(r.prevLive)
      && (r.service, r.target) in s.instances && s.instances[(r.service, r.target)].release == id
  {
    assert ReleaseOk(s, id);
  }

  lemma ConfirmedPercents(s: State, id: Id, now: Time, s': State, x: Id)
    requires Confirmed(s, id, now, s') && x in s.releases
    ensures x in s'.releases
    ensures s'.releases[x] == s.releases[x].(status := s'.releases[x].status, percent := s'.releases[x].percent,
              confirmed := s'.releases[x].confirmed, completedAt := s'.releases[x].completedAt)
    ensures s.releases[x].service == s.releases[id].service ==> (s'.releases[x].percent == 100 <==> x == id)
    ensures x != id && s'.releases[x] != s.releases[x] ==> s'.releases[x].status == s.releases[x].status == Completed
    ensures x != id && s'.releases[x] != s.releases[x] ==> s'.releases[x].percent == 0
    ensures s.releases[x].service != s.releases[id].service ==> s'.releases[x] == s.releases[x]
    ensures s'.releases[id].status == Completed
  {
    var r := s.releases[id];
    ConfirmedSlots(s, id, now, s');
    assert ReleaseOk(s, id);
    assert ReleaseOk(s, x);
    assert LiveOk(s, r.service);
    var before := (r.service, r.prevLive);
    if before in s.instances {
      assert InstanceOk(s, before);
      assert ReleaseOk(s, s.instances[before].release);
    }
  }

  lemma ConfirmedReleases(s: State, id: Id, now: Time, s': State, x: Id)
    requires Confirmed(s, id, now, s') && x in s'.releases
    ensures ReleaseOk(s', x)
  {
    ConfirmedSlots(s, id, now, s');
    ConfirmedPercents(s, id, now, s', x);
    assert ReleaseOk(s, x);
    assert BusyIn(s, id, s.releases[id].service);
    if BusyIn(s, x, s.releases[id].service) { assert x == id; }
  }

  lemma ConfirmedInstances(s: State, id: Id, now: Time, s': State, key: (Id, Slot))
    requires Confirmed(s, id, now, s') && key in s'.instances
    ensures InstanceOk(s', key)
  {
    ConfirmedSlots(s, id, now, s');
    assert InstanceOk(s, key);
    ConfirmedPercents(s, id, now, s', s.instances[key].release);
  }

  lemma ConfirmedLive(s: State, id: Id, now: Time, s': State, service: Id)
    requires Confirmed(s, id, now, s') && service in s'.services
    ensures LiveOk(s', service)
  {
    ConfirmedSlots(s, id, now, s');
    assert LiveOk(s, service);
    var live := (service, LiveSlot(s', service));
    if live in s.instances {
      assert InstanceOk(s, live);
      ConfirmedPercents(s, id, now, s', s.instances[live].release);
    }
  }

  lemma SwitchInv(s: State, id: Id, now: Time, s': State)
    requires Confirmed(s, id, now, s')
    ensures Inv(s')
  {
    forall x | x in s'.releases ensures ReleaseOk(s', x) { ConfirmedReleases(s, id, now, s', x); }
    forall t | t in s'.tasks ensures TaskOk(s', t) {
      assert TaskOk(s, t);
      ConfirmedPercents(s, id, now, s', s.tasks[t].release);
    }
    forall key | key in s'.instances ensures InstanceOk(s', key) { ConfirmedInstances(s, id, now, s', key); }
    forall service | service in s'.services ensures LiveOk(s', service) { ConfirmedLive(s, id, now, s', service); }
    forall x, service {:trigger BusyIn(s', x, service)} | BusyIn(s', x, service) ensures BusyIn(s, x, service) {
      ConfirmedPercents(s, id, now, s', x);
    }
    KeepsOneBusy(s, s');
  }

  lemma ShiftInv(s: State, id: Id, percent: int, now: Time)
    requires Inv(s)
    ensures Inv(SetTrafficPercent(s, id, percent, now).0)
  {
    var s' := SetTrafficPercent(s, id, percent, now).0;
    if SetTrafficPercent(s, id, percent, now).1.Ok? {
      if percent == 100 { SwitchInv(s, id, now, s'); } else { HoldInv(s, id, s'.releases[id], s'); }
    }
  }

  // A task update that is not late moves its release, its task and at most the target instance.
  ghost predicate Updated(s: State, taskId: Id, report: Report, slot: Slot, now: Time, s': State) {
    && Inv(s) && taskId in s.tasks && s.tasks[taskId].release in s.releases && !Late(s, taskId)
    && (report == ReportSucceeded ==> slot == s.tasks[taskId].target)
    && s' == HandleTaskUpdate(s, taskId, report, slot, now).0
  }

  lemma UpdatedOwner(s: State, taskId: Id, report: Report, slot: Slot, now: Time, s': State)
    requires Updated(s, taskId, report, slot, now, s')
    ensures var t := s.tasks[taskId]; var r := s.releases[t.release];
      && r.status.InFlight() && r.task == Some(taskId) && t.service == r.service && t.target == r.target
      && r.service in s.services && r.prevLive == LiveSlot(s, r.service) && r.target == NextSlot(r.prevLive)
      && r.percent == 0
  {
    assert TaskOk(s, taskId);
    assert ReleaseOk(s, s.tasks[taskId].release);
  }

  lemma UpdatedReleases(s: State, taskId: Id, report: Report, slot: Slot, now: Time, s': State, x: Id)
    requires Updated(s, taskId, report, slot, now, s') && x in s.releases
    ensures x in s'.releases && ReleaseOk(s', x)
  {
    var id := s.tasks[taskId].release;
    UpdatedOwner(s, taskId, report, slot, now, s');
    assert ReleaseOk(s, x);
    assert BusyIn(s, id, s.releases[id].service);
    if x != id { assert !BusyIn(s, x, s.releases[id].service); }
    hide Inv;
  }

  lemma UpdatedTasks(s: State, taskId: Id, report: Report, slot: Slot, now: Time, s': State, t: Id)
    requires Updated(s, taskId, report, slot, now, s') && t in s.tasks
    ensures t in s'.tasks && TaskOk(s', t)
  {
    UpdatedOwner(s, taskId, report, slot, now, s');
    assert TaskOk(s, t);
  }

  lemma UpdatedInstances(s: State, taskId: Id, report: Report, slot: Slot, now: Time, s': State, key: (Id, Slot))
    requires Updated(s, taskId, report, slot, now, s') && key in s'.instances
    ensures InstanceOk(s', key)
  {
    UpdatedOwner(s, taskId, report, slot, now, s');
    if key in s.instances { assert InstanceOk(s, key); }
  }

  lemma UpdatedLive(s: State, taskId: Id, report: Report, slot: Slot, now: Time, s': State, service: Id)
    requires Updated(s, taskId, report, slot, now, s') && service in s'.services
    ensures LiveOk(s', service)
  {
    UpdatedOwner(s, taskId, report, slot, now, s');
    assert LiveOk(s, service);
  }

  lemma UpdateInv(s: State, taskId: Id, report: Report, slot: Slot, now: Time)
    requires Inv(s)
    requires report == ReportSucceeded && taskId in s.tasks ==> slot == s.tasks[taskId].target
    ensures Inv(HandleTaskUpdate(s, taskId, report, slot, now).0)
  {
    hide ReleaseOk, TaskOk, InstanceOk, LiveOk, Late, OneBusy;
    var s' := HandleTaskUpdate(s, taskId, report, slot, now).0;
    if taskId in s.tasks && s.tasks[taskId].release in s.releases && !Late(s, taskId) {
      forall x | x in s'.releases ensures ReleaseOk(s', x) { UpdatedReleases(s, taskId, report, slot, now, s', x); }
      forall t | t in s'.tasks ensures TaskOk(s', t) { UpdatedTasks(s, taskId, report, slot, now, s', t); }
      forall key | key in s'.instances ensures InstanceOk(s', key) {
        UpdatedInstances(s, taskId, report, slot, now, s', key);
      }
      forall service | service in s'.services ensures LiveOk(s', service) {
        UpdatedLive(s, taskId, report, slot, now, s', service);
      }
      UpdatedBusy(s, taskId, report, slot, now, s');
    }
  }

  lemma UpdatedBusy(s: State, taskId: Id, report: Report, slot: Slot, now: Time, s': State)
    requires Updated(s, taskId, report, slot, now, s')
    ensures OneBusy(s')
  {
    UpdatedOwner(s, taskId, report, slot, now, s');
    hide ReleaseOk, TaskOk, InstanceOk, LiveOk, OneBusy;
    KeepsOneBusy(s, s');
  }

  lemma RecoverInv(s: State, agent: Id, running: set<Id>, replayed: set<Id>, now: Time)
    requires Inv(s)
    ensures Inv(RecoverAgentTasks(s, agent, running, replayed, now))
  {
    var s' := RecoverAgentTasks(s, agent, running, replayed, now);
    forall x | x in s'.releases ensures ReleaseOk(s', x) { assert ReleaseOk(s, x); }
    forall t | t in s'.tasks ensures TaskOk(s', t) { assert TaskOk(s, t); }
    forall key | key in s'.instances ensures InstanceOk(s', key) { assert InstanceOk(s, key); }
    forall service | service in s'.services ensures LiveOk(s', service) { assert LiveOk(s, service); }
    KeepsOneBusy(s, s');
  }

  // A release the timeout scan fails is the one its stale task belongs to.
  lemma StaleOwner(s: State, now: Time, x: Id)
    requires Inv(s) && x in s.releases
    ensures var s' := FailStaleTasks(s, now);
      s'.releases[x] != s.releases[x] ==>
        && s.releases[x].status.InFlight() && s.releases[x].task.Some?
        && Stale(s, s.releases[x].task.value, now)
        && s'.releases[x] == Finish(s.releases[x], Failed, now)
  {
    assert ReleaseOk(s, x);
  }

  lemma FailStaleReleases(s: State, now: Time, x: Id)
    requires Inv(s) && x in s.releases
    ensures ReleaseOk(FailStaleTasks(s, now), x)
  {
    StaleOwner(s, now, x);
    assert ReleaseOk(s, x);
    if s.releases[x].task.Some? && Stale(s, s.releases[x].task.value, now) {
      assert TaskOk(s, s.releases[x].task.value);
    }
  }

  lemma FailStaleTaskRows(s: State, now: Time, t: Id)
    requires Inv(s) && t in s.tasks
    ensures TaskOk(FailStaleTasks(s, now), t)
  {
    assert TaskOk(s, t);
    StaleOwner(s, now, s.tasks[t].release);
  }

  lemma FailStaleInv(s: State, now: Time)
    requires Inv(s)
    ensures Inv(FailStaleTasks(s, now))
  {
    var s' := FailStaleTasks(s, now);
    forall x | x in s'.releases ensures ReleaseOk(s', x) { FailStaleReleases(s, now, x); }
    forall t | t in s'.tasks ensures TaskOk(s', t) { FailStaleTaskRows(s, now, t); }
    forall key | key in s'.instances ensures InstanceOk(s', key) {
      assert InstanceOk(s, key);
      StaleOwner(s, now, s.instances[key].release);
    }
    forall service | service in s'.services ensures LiveOk(s', service) {
      assert LiveOk(s, service);
      if LiveSlot(s, service) != NoSlot {
        var q := s.instances[(service, LiveSlot(s, service))].release;
        assert ReleaseOk(s, q);
        StaleOwner(s, now, q);
      }
    }
    forall x, service {:trigger BusyIn(s', x, service)} | BusyIn(s', x, service) ensures BusyIn(s, x, service) {
      StaleOwner(s, now, x);
    }
    KeepsOneBusy(s, s');
  }

  // Every operation keeps the invariant.
  lemma ApplyInv(s: State, e: Event)
    requires Inv(s) && Admissible(s, e)
    ensures Inv(Apply(s, e))
  {
    match e
    case CreatingService(_, _) => CatalogueInv(s, e);
    case EditingService(_, _) => CatalogueInv(s, e);
    case Creating(q) => CreateInv(s, q);
    case Starting(id, l) => StartInv(s, id, l);
    case Retrying(id, l) => RetryInv(s, id, l);
    case Skipping(id, now) => SkipInv(s, id, now);
    case Shifting(id, percent, now) => ShiftInv(s, id, percent, now);
    case RollingBack(id, now) => RollbackInv(s, id, now);
    case Reporting(task, report, slot, now) => UpdateInv(s, task, report, slot, now);
    case Recovering(agent, running, replayed, now) => RecoverInv(s, agent, running, replayed, now);
    case FailingStale(now) => FailStaleInv(s, now);
  }

  // So does every run.
  lemma {:induction false} RunInv(s: State, es: seq<Event>)
    requires Inv(s) && AdmissibleRun(s, es)
    ensures Inv(Run(s, es))
    decreases |es|
  {
    if es != [] {
      ApplyInv(s, es[0]);
      RunInv(Apply(s, es[0]), es[1..]);
    }
  }
}
