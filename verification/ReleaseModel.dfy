/** Blue-green releases on values: the rows the release service stores, and every
    operation of the service as a function from the stored rows to the new rows.
    `ReleaseService` proves the imperative operations equal to these functions;
    `ReleaseInvariant` and `ReleaseTheorems` reason about runs of them. */
module ReleaseModel {
  import opened Wrappers
  import opened Widths

  type Id = string
  type Time = int

  datatype Slot = NoSlot | Blue | Green

  // The slot a new release is deployed to.
  function NextSlot(current: Slot): Slot {
    if current == Blue then Green else Blue
  }

  datatype ReleaseStatus =
    | Queued | Dispatching | Deploying | ReadyToSwitch | Switched
    | Completed | Failed | RolledBack | Skipped
  {
    predicate IsTerminal() {
      this == Completed || this == Failed || this == RolledBack || this == Skipped
    }

    // Waiting for its deploy task to end.
    predicate InFlight() {
      this == Dispatching || this == Deploying
    }

    // Takes a share of the traffic.
    predicate Splittable() {
      this == ReadyToSwitch || this == Switched
    }

    // In flight or waiting for an operator's decision.
    predicate Busy() {
      InFlight() || this == ReadyToSwitch
    }
  }

  datatype TaskStatus =
    | TaskPending | TaskDispatched | TaskRunning
    | TaskSucceeded | TaskFailed | TaskTimedOut
  {
    predicate IsTerminal() {
      this == TaskSucceeded || this == TaskFailed || this == TaskTimedOut
    }
  }

  datatype Release = Release(
    service: Id, agent: Id, imageTag: string, commit: string, createdAt: Time,
    status: ReleaseStatus, percent: int, target: Slot, prevLive: Slot,
    task: Option<Id>, confirmed: bool, completedAt: Option<Time>)

  // A deploy task; the graces are the two payload fields its timeout depends on.
  datatype Task = Task(
    release: Id, service: Id, agent: Id, status: TaskStatus, target: Slot, currentLive: Slot,
    startupGrace: int, httpTimeout: int, createdAt: Time, updatedAt: Time)

  datatype Instance = Instance(release: Id, healthy: bool, accepting: bool, active: bool)

  // The columns of a catalogue row the release service reads, and the live slot it writes.
  datatype Spec = Spec(
    agent: Id, enabled: bool, containerPort: int, startupGrace: int, httpTimeout: int, live: Slot)

  datatype State = State(
    releases: map<Id, Release>, tasks: map<Id, Task>,
    instances: map<(Id, Slot), Instance>, services: map<Id, Spec>)

  datatype Error =
    | NotFound | NotQueued | NotFailed | NewerSuccess | ServiceActive | TrafficSplit
    | ServiceDisabled | BadPort | AgentNotOnline | PrepareFailed | DispatchFailed
    | BadPercent | NotReady | NoBaseline | Unhealthy

  type Outcome = Result<(), Error>

  const DONE: Outcome := Ok(())

  // ---------------------------------------------------------------- queries

  predicate PartialPercent(percent: int) {
    1 <= percent <= 99
  }

  predicate BlocksStart(r: Release, service: Id) {
    && r.service == service
    && (r.status.InFlight() || (r.status.Splittable() && PartialPercent(r.percent)))
  }

  predicate HasActiveRelease(releases: map<Id, Release>, service: Id) {
    exists id | id in releases :: BlocksStart(releases[id], service)
  }

  predicate Splits(r: Release, service: Id) {
    r.service == service && r.status.Splittable() && PartialPercent(r.percent)
  }

  predicate HasTrafficSplitRelease(releases: map<Id, Release>, service: Id) {
    exists id | id in releases :: Splits(releases[id], service)
  }

  predicate NewerSuccessful(r: Release, service: Id, createdAt: Time) {
    r.service == service && (r.status == Completed || r.status == Switched) && r.percent == 100
        && r.createdAt > createdAt
  }

  predicate HasNewerSuccessfulRelease(releases: map<Id, Release>, service: Id, createdAt: Time) {
    exists id | id in releases :: NewerSuccessful(releases[id], service, createdAt)
  }

  predicate Duplicates(r: Release, service: Id, imageTag: string, commit: string) {
    && r.service == service && r.imageTag == imageTag
    && (r.status == Queued || r.status.InFlight() || r.status.Splittable())
    && (commit == "" || r.commit == commit)
  }

  // What keeps a service from being deleted.
  predicate Open(s: State, service: Id) {
    HasActiveRelease(s.releases, service) || HasTrafficSplitRelease(s.releases, service)
  }

  predicate HealthyAt(instances: map<(Id, Slot), Instance>, service: Id, slot: Slot) {
    (service, slot) in instances && instances[(service, slot)].healthy
  }

  // ---------------------------------------------------------------- deploying

  predicate Superseded(r: Release, id: Id, current: Id, service: Id, target: Slot) {
    && id != current && r.service == service && r.target == target
    && r.status.Splittable() && r.percent == 0
  }

  function Finish(r: Release, status: ReleaseStatus, now: Time): Release {
    r.(status := status, completedAt := Some(now))
  }

  // Releases parked at 0% on the slot about to be reused are closed.
  function CompleteSuperseded(releases: map<Id, Release>, current: Id, service: Id, target: Slot, now: Time)
    : map<Id, Release>
  {
    map id | id in releases ::
      if Superseded(releases[id], id, current, service, target) then Finish(releases[id], Completed, now)
      else releases[id]
  }

  predicate QueuedBefore(r: Release, id: Id, current: Id, service: Id, createdAt: Time) {
    r.service == service && r.status == Queued && r.createdAt < createdAt && id != current
  }

  // Starting a release skips the older queued ones.
  function SkipQueuedBefore(releases: map<Id, Release>, current: Id, service: Id, createdAt: Time, now: Time)
    : map<Id, Release>
  {
    map id | id in releases ::
      if QueuedBefore(releases[id], id, current, service, createdAt) then Finish(releases[id], Skipped, now)
      else releases[id]
  }

  // How handing the task to the agent's session ends.
  datatype Delivery = Sent | AgentOffline | Rejected

  // What Start and Retry learn from their surroundings: the clock, the new task's id,
  // whether the agent is online, whether credentials and secrets could be resolved.
  datatype Launch = Launch(now: Time, taskId: Id, online: bool, prepared: bool, delivery: Delivery)

  function Retargeted(r: Release, spec: Spec): Release {
    r.(agent := spec.agent, prevLive := spec.live, target := NextSlot(spec.live),
       percent := 0, confirmed := false, completedAt := None)
  }

  function NewDeployTask(r: Release, id: Id, spec: Spec, status: TaskStatus, now: Time): Task {
    Task(id, r.service, spec.agent, status, r.target, spec.live, spec.startupGrace, spec.httpTimeout, now, now)
  }

  // Why the service of a release cannot be deployed to right now, if it cannot.
  function LaunchBlocked(s: State, service: Id, online: bool): Option<Error> {
    if service !in s.services then Some(NotFound)
    else if !s.services[service].enabled then Some(ServiceDisabled)
    else if s.services[service].containerPort <= 0 || s.services[service].containerPort > 65535 then Some(BadPort)
    else if !online then Some(AgentNotOnline)
    else None
  }

  // The common second half of Start and Retry, once every check has passed.
  function LaunchRelease(s: State, id: Id, l: Launch, skipOlder: bool): (State, Outcome)
    requires id in s.releases && s.releases[id].service in s.services
  {
    var r := s.releases[id];
    var spec := s.services[r.service];
    var retargeted := Retargeted(r, spec);
    var closed := CompleteSuperseded(s.releases, id, r.service, retargeted.target, l.now);
    if !l.prepared then
      (s.(releases := closed), Err(PrepareFailed))
    else
      var launched := retargeted.(task := Some(l.taskId), status := Dispatching);
      match l.delivery
      case Rejected =>
        (s.(releases := closed[id := Finish(launched, Failed, l.now)],
            tasks := s.tasks[l.taskId := NewDeployTask(launched, id, spec, TaskFailed, l.now)]),
         Err(DispatchFailed))
      case _ =>
        var stored := closed[id := launched];
        var status := if l.delivery == Sent then TaskDispatched else TaskPending;
        (s.(releases := if skipOlder then SkipQueuedBefore(stored, id, r.service, r.createdAt, l.now) else stored,
            tasks := s.tasks[l.taskId := NewDeployTask(launched, id, spec, status, l.now)]),
         DONE)
  }

  function Start(s: State, id: Id, l: Launch): (State, Outcome) {
    if id !in s.releases then (s, Err(NotFound))
    else
      var r := s.releases[id];
      if r.status != Queued && r.status != Skipped then (s, Err(NotQueued))
      else if r.status == Skipped && HasNewerSuccessfulRelease(s.releases, r.service, r.createdAt)
          then (s, Err(NewerSuccess))
      else if HasActiveRelease(s.releases, r.service) then
        (s, Err(if HasTrafficSplitRelease(s.releases, r.service) then TrafficSplit else ServiceActive))
      else
        match LaunchBlocked(s, r.service, l.online)
        case Some(e) => (s, Err(e))
        case None => LaunchRelease(s, id, l, true)
  }

  function Retry(s: State, id: Id, l: Launch): (State, Outcome) {
    if id !in s.releases then (s, Err(NotFound))
    else
      var r := s.releases[id];
      if r.status != Failed then (s, Err(NotFailed))
      else if HasActiveRelease(s.releases, r.service) then (s, Err(ServiceActive))
      else
        match LaunchBlocked(s, r.service, l.online)
        case Some(e) => (s, Err(e))
        case None => LaunchRelease(s, id, l, false)
  }

  datatype Request = Request(service: Id, imageTag: string, commit: string, now: Time, releaseId: Id)

  function CreateFromCI(s: State, q: Request): (State, Outcome) {
    if q.service !in s.services then (s, Err(NotFound))
    else if !s.services[q.service].enabled then (s, Err(ServiceDisabled))
    else if exists id | id in s.releases :: Duplicates(s.releases[id], q.service, q.imageTag, q.commit) then (s, DONE)
    else
      var spec := s.services[q.service];
      var r := Release(q.service, spec.agent, q.imageTag, q.commit, q.now, Queued, 0,
                       NextSlot(spec.live), spec.live, None, false, None);
      (s.(releases := s.releases[q.releaseId := r]), DONE)
  }

  function Skip(s: State, id: Id, now: Time): (State, Outcome) {
    if id !in s.releases then (s, Err(NotFound))
    else if s.releases[id].status != Queued then (s, Err(NotQueued))
    else (s.(releases := s.releases[id := Finish(s.releases[id], Skipped, now)]), DONE)
  }

  // ---------------------------------------------------------------- traffic

  function WithTraffic(instances: map<(Id, Slot), Instance>, service: Id, slot: Slot, accepting: bool)
    : map<(Id, Slot), Instance>
  {
    var key := (service, slot);
    if key in instances then instances[key := instances[key].(accepting := accepting, active := true)]
    else instances
  }

  function UpdateTrafficFlags(instances: map<(Id, Slot), Instance>, service: Id, live: Slot, previous: Slot)
    : map<(Id, Slot), Instance>
  {
    WithTraffic(WithTraffic(instances, service, live, true), service, previous, false)
  }

  // UpdateLiveSlot touches no row when the service is gone.
  function WithLive(services: map<Id, Spec>, service: Id, slot: Slot): map<Id, Spec> {
    if service in services then services[service := services[service].(live := slot)] else services
  }

  // The release that was live until now gives up its 100%.
  function CompletePreviousLive(
      releases: map<Id, Release>, instances: map<(Id, Slot), Instance>, id: Id, current: Release, now: Time)
    : map<Id, Release>
  {
    var key := (current.service, current.prevLive);
    if current.prevLive == NoSlot || key !in instances || instances[key].release == id then releases
    else
      var q := instances[key].release;
      if q !in releases || (!releases[q].status.Splittable() && releases[q].status != Completed) then releases
      else if releases[q].status == Completed && releases[q].percent == 0 && releases[q].completedAt.Some? then releases
      else
        releases[q := releases[q].(status := Completed, percent := 0,
                 completedAt := if releases[q].completedAt.None? then Some(now) else releases[q].completedAt)]
  }

  function SetTrafficPercent(s: State, id: Id, percent: int, now: Time): (State, Outcome) {
    if percent < 0 || percent > 100 then (s, Err(BadPercent))
    else if id !in s.releases then (s, Err(NotFound))
    else
      var r := s.releases[id];
      if r.status != ReadyToSwitch then (s, Err(NotReady))
      else if r.prevLive == NoSlot && percent < 100 then (s, Err(NoBaseline))
      else if !HealthyAt(s.instances, r.service, if percent == 0 then r.prevLive else r.target) then (s, Err(Unhealthy))
      else if percent == 100 then
        var switched := Finish(r.(percent := 100, confirmed := true), Completed, now);
        var flags := UpdateTrafficFlags(s.instances, r.service, r.target, r.prevLive);
        (s.(services := WithLive(s.services, r.service, r.target),
            instances := flags,
            releases := CompletePreviousLive(s.releases, flags, id, switched, now)[id := switched]),
         DONE)
      else
        (s.(services := WithLive(s.services, r.service, r.prevLive),
            instances := UpdateTrafficFlags(s.instances, r.service, r.prevLive, r.target),
            releases := s.releases[id := r.(percent := percent, confirmed := false, completedAt := None)]),
         DONE)
  }

  function Rollback(s: State, id: Id, now: Time): (State, Outcome) {
    if id !in s.releases then (s, Err(NotFound))
    else
      var r := s.releases[id];
      if r.status != ReadyToSwitch then (s, Err(NotReady))
      else if r.prevLive == NoSlot then (s, Err(NoBaseline))
      else if !HealthyAt(s.instances, r.service, r.prevLive) then (s, Err(Unhealthy))
      else
        (s.(services := WithLive(s.services, r.service, r.prevLive),
            instances := UpdateTrafficFlags(s.instances, r.service, r.prevLive, r.target),
            releases := s.releases[id := Finish(r.(percent := 0, confirmed := false), RolledBack, now)]),
         DONE)
  }

  // ---------------------------------------------------------------- tasks

  datatype Report = ReportRunning | ReportSucceeded | ReportFailed | ReportOther

  predicate IsCurrent(s: State, taskId: Id) {
    && taskId in s.tasks && s.tasks[taskId].release in s.releases
    && s.releases[s.tasks[taskId].release].task == Some(taskId)
  }

  // An update that only leaves an audit entry.
  predicate Late(s: State, taskId: Id) {
    || !IsCurrent(s, taskId)
    || s.tasks[taskId].status.IsTerminal()
    || s.releases[s.tasks[taskId].release].status.IsTerminal()
  }

  function HandleTaskUpdate(s: State, taskId: Id, report: Report, slot: Slot, now: Time): (State, Outcome) {
    if taskId !in s.tasks || s.tasks[taskId].release !in s.releases then (s, Err(NotFound))
    else if Late(s, taskId) then (s, DONE)
    else
      var t := s.tasks[taskId].(updatedAt := now);
      var r := s.releases[t.release];
      match report
      case ReportRunning =>
        (s.(tasks := s.tasks[taskId := t.(status := TaskRunning)],
            releases :=
              if r.status == Dispatching then s.releases[t.release := r.(status := Deploying)] else s.releases),
         DONE)
      case ReportSucceeded =>
        (s.(tasks := s.tasks[taskId := t.(status := TaskSucceeded)],
            instances := s.instances[(t.service, slot) := Instance(t.release, true, false, true)],
            releases := s.releases[t.release := r.(status := ReadyToSwitch, percent := 0, confirmed := false)]),
         DONE)
      case ReportFailed =>
        (s.(tasks := s.tasks[taskId := t.(status := TaskFailed)],
            releases := s.releases[t.release := Finish(r, Failed, now)]),
         DONE)
      case ReportOther => (s, DONE)
  }

  // The task rows a reconnecting agent, or the timeout scan, joins with their releases.
  predicate Outstanding(s: State, taskId: Id) {
    && taskId in s.tasks && !s.tasks[taskId].status.IsTerminal()
    && exists id | id in s.releases :: s.releases[id].task == Some(taskId)
  }

  predicate Recoverable(s: State, taskId: Id, agent: Id) {
    Outstanding(s, taskId) && s.tasks[taskId].agent == agent
  }

  function Recovered(t: Task, isRunning: bool, isReplayed: bool, now: Time): Task {
    if isRunning then (if t.status == TaskRunning then t else t.(status := TaskRunning, updatedAt := now))
    else if isReplayed then t.(status := TaskDispatched, updatedAt := now)
    else t
  }

  // An agent reconnects reporting the tasks it still runs; the others it accepts are sent again.
  function RecoverAgentTasks(s: State, agent: Id, running: set<Id>, replayed: set<Id>, now: Time): State {
    s.(tasks := map t | t in s.tasks ::
         if Recoverable(s, t, agent) then Recovered(s.tasks[t], t in running, t in replayed, now) else s.tasks[t])
  }

  const DEPLOY_IMAGE_PULL_BUDGET: Time := 300 * SECOND
  const DEPLOY_TIMEOUT_BUFFER: Time := 30 * SECOND
  const DEFAULT_STARTUP_GRACE := 15
  const DEFAULT_HTTP_TIMEOUT := 90

  function DefaultInt(v: int, fallback: int): int {
    if v != 0 then v else fallback
  }

  function TimeoutFor(t: Task): Time {
    Int64(DEPLOY_IMAGE_PULL_BUDGET
          + Seconds(DefaultInt(t.startupGrace, DEFAULT_STARTUP_GRACE))
          + Seconds(DefaultInt(t.httpTimeout, DEFAULT_HTTP_TIMEOUT))
          + DEPLOY_TIMEOUT_BUFFER)
  }

  // The timeout is the sum it is configured as if and only if that sum fits into 64 bits.
  lemma TimeoutIsExact(t: Task)
    ensures var meant := 330 * SECOND + (DefaultInt(t.startupGrace, DEFAULT_STARTUP_GRACE)
                                         + DefaultInt(t.httpTimeout, DEFAULT_HTTP_TIMEOUT)) * SECOND;
      TimeoutFor(t) == meant <==> -TWO_63 <= meant < TWO_63
  {
  }

  predicate TimedOut(t: Task, now: Time) {
    t.updatedAt + TimeoutFor(t) < now
  }

  predicate Expired(s: State, taskId: Id, now: Time)
    requires taskId in s.tasks
  {
    TimedOut(s.tasks[taskId], now) && !Late(s, taskId)
  }

  // The scan joins every outstanding task; it fails the release whose current task is stale.
  predicate Stale(s: State, taskId: Id, now: Time) {
    Outstanding(s, taskId) && Expired(s, taskId, now)
  }

  function FailStaleTasks(s: State, now: Time): State {
    s.(tasks := map t | t in s.tasks ::
         if Stale(s, t, now) then s.tasks[t].(status := TaskTimedOut, updatedAt := now) else s.tasks[t],
       releases := map id | id in s.releases ::
         if s.releases[id].task.Some? && Stale(s, s.releases[id].task.value, now)
            && s.tasks[s.releases[id].task.value].release == id
         then Finish(s.releases[id], Failed, now) else s.releases[id])
  }

  // ---------------------------------------------------------------- runs

  // One operation, with what it learns from its surroundings. The first two are the catalogue's.
  datatype Event =
    | CreatingService(service: Id, spec: Spec)
    | EditingService(service: Id, spec: Spec)
    | Creating(request: Request)
    | Starting(id: Id, launch: Launch)
    | Retrying(id: Id, launch: Launch)
    | Skipping(id: Id, now: Time)
    | Shifting(id: Id, percent: int, now: Time)
    | RollingBack(id: Id, now: Time)
    | Reporting(task: Id, report: Report, slot: Slot, now: Time)
    | Recovering(agent: Id, running: set<Id>, replayed: set<Id>, now: Time)
    | FailingStale(now: Time)

  function Apply(s: State, e: Event): State {
    match e
    case CreatingService(service, spec) =>
      if service in s.services then s else s.(services := s.services[service := spec.(live := NoSlot)])
    case EditingService(service, spec) =>
      if service !in s.services then s
          else s.(services := s.services[service := spec.(live := s.services[service].live)])
    case Creating(q) => CreateFromCI(s, q).0
    case Starting(id, l) => Start(s, id, l).0
    case Retrying(id, l) => Retry(s, id, l).0
    case Skipping(id, now) => Skip(s, id, now).0
    case Shifting(id, percent, now) => SetTrafficPercent(s, id, percent, now).0
    case RollingBack(id, now) => Rollback(s, id, now).0
    case Reporting(task, report, slot, now) => HandleTaskUpdate(s, task, report, slot, now).0
    case Recovering(agent, running, replayed, now) => RecoverAgentTasks(s, agent, running, replayed, now)
    case FailingStale(now) => FailStaleTasks(s, now)
  }

  // New row ids never repeat, and an agent reports the slot its task was given.
  predicate Admissible(s: State, e: Event) {
    match e
    case Creating(q) => q.releaseId !in s.releases
    case Starting(_, l) => l.taskId !in s.tasks
    case Retrying(_, l) => l.taskId !in s.tasks
    case Reporting(task, ReportSucceeded, slot, _) => task in s.tasks ==> slot == s.tasks[task].target
    case _ => true
  }

  const EMPTY := State(map[], map[], map[], map[])

  function Run(s: State, es: seq<Event>): State
    decreases |es|
  {
    if es == [] then s else Run(Apply(s, es[0]), es[1..])
  }

  predicate AdmissibleRun(s: State, es: seq<Event>)
    decreases |es|
  {
    es == [] || (Admissible(s, es[0]) && AdmissibleRun(Apply(s, es[0]), es[1..]))
  }
}
