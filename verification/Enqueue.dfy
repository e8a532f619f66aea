/** The engine's cycle over due jobs: one run per fire time, created once, and the job moved on
    to its next fire time. */
module Enqueue {
  import opened Wrappers
  import opened Sorting
  import opened RunLease
  import opened CronSearch
  import CronSyntax
  import D = RunDispatch
  import opened RunHandling

  datatype Kind = OneTime | Cron | Unknown

  datatype Job = Job(
    enabled: Option<bool>, nextRunAt: Option<Time>, kind: Kind, cronExpr: string,
    maxRetries: int, leaseTimeoutSec: int, payloadLeaseSec: int,
    group: string, policy: D.Policy, service: Option<D.Id>)

  type Config = D.Config

  // The jobs, the runs, and of each run the columns that never change.
  datatype State = State(jobs: map<string, Job>, runs: map<Key, Run>, infos: map<Key, D.Info>)

  datatype Failure = NoNext(error: CronSyntax.Error) | UnknownKind

  predicate Due(j: Job, now: Time) {
    j.enabled == Some(true) && j.nextRunAt.Some? && j.nextRunAt.value <= now
  }

  // The due jobs in order of their fire times, cut off at the batch size.
  predicate DueList(s: State, now: Time, batch: nat, due: seq<string>) {
    && (forall id | id in due :: id in s.jobs && Due(s.jobs[id], now))
    && (forall i, j | 0 <= i < j < |due| ::
          due[i] != due[j] && s.jobs[due[i]].nextRunAt.value <= s.jobs[due[j]].nextRunAt.value)
    && (batch > 0 ==> |due| <= batch)
    && (batch == 0 || |due| < batch ==> forall id | id in s.jobs && Due(s.jobs[id], now) :: id in due)
    && (forall id, listed | id in s.jobs && Due(s.jobs[id], now) && id !in due && listed in due ::
          s.jobs[listed].nextRunAt.value <= s.jobs[id].nextRunAt.value)
  }

  function ComputeNext(j: Job, from: Time): Result<Option<Time>, Failure> {
    match j.kind
    case OneTime => Ok(None)
    case Cron => (match Next(j.cronExpr, from) case Ok(t) => Ok(Some(t)) case Err(e) => Err(NoNext(e)))
    case Unknown => Err(UnknownKind)
  }

  function NewRun(j: Job, cfg: Config): Run {
    Run(Pending, 1, EffectiveMaxRetries(j.maxRetries, cfg.defaultMaxRetries),
        if j.leaseTimeoutSec <= 0 then cfg.defaultLeaseSec else j.leaseTimeoutSec, j.payloadLeaseSec,
        None, None, None, None, "", None, "")
  }

  function NewInfo(id: string, j: Job, at: Time): D.Info {
    D.Info(id, j.group, j.policy, j.service, at)
  }

  // A created run starts the life RunLease describes.
  lemma NewRunIsFresh(j: Job, cfg: Config, now: Time, fallback: int)
    ensures Fresh(System(NewRun(j, cfg), {}, None, now, fallback, 0, 0, 0, 0))
  {
  }

  function CreateIfAbsent(s: State, key: Key, run: Run, info: D.Info): State {
    if key in s.runs then s else s.(runs := s.runs[key := run], infos := s.infos[key := info])
  }

  function EnqueueOne(s: State, id: string, now: Time, cfg: Config): Result<State, Failure> {
    if id !in s.jobs || !Due(s.jobs[id], now) then Ok(s)
    else
      var job := s.jobs[id];
      var at := job.nextRunAt.value;
      match ComputeNext(job, at)
      case Err(f) => Err(f)
      case Ok(next) => Ok(CreateIfAbsent(
        s.(jobs := s.jobs[id := job.(nextRunAt := next, enabled := Some(next.Some?))]),
        Scheduled(id, at), NewRun(job, cfg), NewInfo(id, job, at)))
  }

  datatype Outcome = Outcome(state: State, failure: Option<Failure>)

  // Job by job; the first failure ends the loop.
  function EnqueueAll(s: State, due: seq<string>, now: Time, cfg: Config): Outcome
    decreases |due|
  {
    if due == [] then Outcome(s, None)
    else
      match EnqueueOne(s, due[0], now, cfg)
      case Err(f) => Outcome(s, Some(f))
      case Ok(s') => EnqueueAll(s', due[1..], now, cfg)
  }

  // A cycle is one transaction: if enqueueing fails, nothing of it remains.
  function CycleOf(s: State, due: seq<string>, now: Time, cfg: Config): Outcome {
    var o := EnqueueAll(s, due, now, cfg);
    if o.failure.Some? then Outcome(s, o.failure) else o
  }

  // What a cycle may make of the runs: what happens to a row it does not list are executors' reports.
  ghost predicate DispatchedTo(before: map<Key, Run>, after: map<Key, Run>, now: Time, fallback: int) {
    && after.Keys == before.Keys
    && forall k | k in before :: DispatchedRow(before[k], after[k], now, fallback)
  }

  ghost predicate DispatchedRow(before: Run, after: Run, now: Time, fallback: int) {
    exists es :: after == Steps(SystemOf(before, now, fallback), es).run
        && (Dispatchable(before, now) || AllReports(es))
  }

  // ---------------------------------------------------------------- the engine

  class Engine {
    var jobs: map<string, Job>
    const scheduler: D.Scheduler

    constructor (jobs: map<string, Job>, scheduler: D.Scheduler)
      ensures this.jobs == jobs && this.scheduler == scheduler
    {
      this.jobs, this.scheduler := jobs, scheduler;
    }

    ghost function Rows(): State
      reads this, scheduler
    {
      State(jobs, scheduler.rows, scheduler.infos)
    }

    method CreateRunIfNotExists(key: Key, run: Run, info: D.Info) returns (created: bool)
      modifies scheduler`rows, scheduler`infos
      ensures created <==> key !in old(scheduler.rows)
      ensures Rows() == CreateIfAbsent(old(Rows()), key, run, info)
    {
      created := key !in scheduler.rows;
      if created {
        scheduler.rows := scheduler.rows[key := run];
        scheduler.infos := scheduler.infos[key := info];
      }
    }

    // A failing job's own transaction is rolled back.
    method EnqueueJob(id: string, now: Time) returns (failure: Option<Failure>)
      modifies this, scheduler`rows, scheduler`infos
      ensures match EnqueueOne(old(Rows()), id, now, scheduler.cfg)
              case Ok(s') => failure == None && Rows() == s'
              case Err(f) => failure == Some(f) && Rows() == old(Rows())
    {
      hide Next;
      if id !in jobs { return None; }
      var job := jobs[id];
      if job.enabled != Some(true) || job.nextRunAt.None? || job.nextRunAt.value > now { return None; }
      var scheduled := job.nextRunAt.value;
      var savedRows, savedInfos := scheduler.rows, scheduler.infos;
      var created := CreateRunIfNotExists(Scheduled(id, scheduled), NewRun(job, scheduler.cfg),
          NewInfo(id, job, scheduled));
      var next: Option<Time>, enabled := None, false;
      match job.kind {
        case OneTime =>
        case Cron =>
          var found := NextCronTime(job.cronExpr, scheduled);
          if found.Err? {
            scheduler.rows, scheduler.infos := savedRows, savedInfos;
            return Some(NoNext(found.error));
          }
          next, enabled := Some(found.value), true;
        case Unknown =>
          scheduler.rows, scheduler.infos := savedRows, savedInfos;
          return Some(UnknownKind);
      }
      jobs := jobs[id := job.(nextRunAt := next, enabled := Some(enabled))];
      failure := None;
    }

    method ListJobsDue(now: Time) returns (due: seq<string>)
      ensures DueList(Rows(), now, scheduler.cfg.batch, due)
    {
      hide DueList, D.Sooner, SortedBy;
      var found := set id | id in jobs && Due(jobs[id], now) :: D.Candidate(jobs[id].nextRunAt.value, id);
      D.SoonerOrders<string>();
      var sorted := SortSet(found, D.Sooner);
      var n := if scheduler.cfg.batch == 0 || |sorted| <= scheduler.cfg.batch then |sorted| else scheduler.cfg.batch;
      due := seq(n, i requires 0 <= i < n => sorted[i].key);
      CutIsDueList(Rows(), now, scheduler.cfg.batch, sorted, due);
    }

    method EnqueueDueJobs(now: Time) returns (failure: Option<Failure>, ghost due: seq<string>)
      modifies this, scheduler`rows, scheduler`infos
      ensures DueList(old(Rows()), now, scheduler.cfg.batch, due)
      ensures Outcome(Rows(), failure) == EnqueueAll(old(Rows()), due, now, scheduler.cfg)
    {
      hide DueList;
      var listed := ListJobsDue(now);
      due := listed;
      assert listed[0..] == listed;
      for i := 0 to |listed|
        invariant EnqueueAll(old(Rows()), listed, now, scheduler.cfg) == EnqueueAll(Rows(), listed[i..], now,
            scheduler.cfg)
      {
        assert listed[i..][0] == listed[i] && listed[i..][1..] == listed[i + 1..];
        failure := EnqueueJob(listed[i], now);
        if failure.Some? { return; }
      }
      failure := None;
    }

    // Enqueueing and dispatching share one transaction, so a job without a next time undoes the
    // one and prevents the other.
    method RunDueCycle(world: D.World, now: Time)
      returns (failure: Option<Failure>, ghost due: seq<string>, ghost v: D.Cycle)
      requires Known(Rows())
      modifies this, scheduler`rows, scheduler`infos, scheduler`cursors
      ensures DueList(old(Rows()), now, scheduler.cfg.batch, due)
      ensures failure == CycleOf(old(Rows()), due, now, scheduler.cfg).failure
      ensures failure.Some? ==> scheduler.cursors == old(scheduler.cursors)
      ensures failure.None? ==>
        var before := CycleOf(old(Rows()), due, now, scheduler.cfg).state;
        && v == D.Cycle(before.runs, before.infos, v.ids, v.rankings, world, scheduler.executors, now,
                        scheduler.cfg.heartbeatTimeout)
        && D.Whole(v) && D.Ranked(v, |v.ids|) && Known(before)
        && D.Listing(before.runs, before.infos, now, scheduler.cfg.batch, v.ids)
        && scheduler.cursors == D.Cursors(v, old(scheduler.cursors), |v.ids|)
        && scheduler.rows == D.RowsAfter(v, old(scheduler.cursors), |v.ids|, scheduler.cfg.defaultLeaseSec)
        && DispatchedTo(before.runs, scheduler.rows, now, scheduler.cfg.defaultLeaseSec)
      ensures Known(Rows())
      ensures Rows() == Happen(old(Rows()), Cycle(now, due, scheduler.rows), scheduler.cfg)
    {
      hide DueList, EnqueueAll, DispatchedTo, D.Listing, D.Ranked, D.RowsAfter, D.Cursors;
      var savedJobs, savedRows, savedInfos := jobs, scheduler.rows, scheduler.infos;
      v := D.Cycle(map[], map[], [], map[], world, map[], now, 0);
      failure, due := EnqueueDueJobs(now);
      if failure.Some? {
        jobs, scheduler.rows, scheduler.infos := savedJobs, savedRows, savedInfos;
        return;
      }
      AllKnown(old(Rows()), due, now, scheduler.cfg);
      ghost var cursors := scheduler.cursors;
      v := scheduler.DispatchDueRuns(world, now, scheduler.cfg.batch);
      ListedOnce(v, scheduler.cfg.batch);
      CycleDispatches(v, cursors, scheduler.cfg.defaultLeaseSec);
    }
  }

  // Every run has its columns.
  predicate Known(s: State) {
    s.runs.Keys <= s.infos.Keys
  }

  lemma {:induction false} AllKnown(s: State, due: seq<string>, now: Time, cfg: Config)
    requires Known(s)
    ensures Known(EnqueueAll(s, due, now, cfg).state)
    decreases |due|
  {
    hide ComputeNext;
    if due != [] && EnqueueOne(s, due[0], now, cfg).Ok? {
      AllKnown(EnqueueOne(s, due[0], now, cfg).value, due[1..], now, cfg);
    }
  }

  lemma ListedOnce(v: D.Cycle, limit: nat)
    requires v.rows.Keys <= v.infos.Keys && D.Listing(v.rows, v.infos, v.now, limit, v.ids)
    ensures D.Distinctly(v.ids) && forall id | id in v.ids :: id in v.rows && Dispatchable(v.rows[id], v.now)
  {
  }

  lemma CycleDispatches(v: D.Cycle, cursors: map<D.TurnKey, string>, fallback: int)
    requires D.Whole(v) && D.Distinctly(v.ids)
    requires forall id | id in v.ids :: id in v.rows && Dispatchable(v.rows[id], v.now)
    ensures DispatchedTo(v.rows, D.RowsAfter(v, cursors, |v.ids|, fallback), v.now, fallback)
    ensures D.RowsAfter(v, cursors, |v.ids|, fallback).Keys == v.rows.Keys
  {
    hide D.RowsAfter, Steps, Dispatchable, AllReports;
    forall k | k in v.rows
      ensures DispatchedRow(v.rows[k], D.RowsAfter(v, cursors, |v.ids|, fallback)[k], v.now, fallback)
    {
      D.CycleTouchesListed(v, cursors, SystemOf(v.rows[k], v.now, fallback), k);
      assert k in v.ids ==> Dispatchable(v.rows[k], v.now);
    }
  }

  // The first of the sorted due jobs are the due list.
  lemma CutIsDueList(s: State, now: Time, batch: nat, sorted: seq<D.Candidate<string>>, due: seq<string>)
    requires SortedBy(sorted, D.Sooner)
    requires forall c :: c in sorted <==>
        c.key in s.jobs && Due(s.jobs[c.key], now) && s.jobs[c.key].nextRunAt == Some(c.at)
    requires forall i, j | 0 <= i < j < |sorted| :: sorted[i] != sorted[j]
    requires |due| == (if batch == 0 || |sorted| <= batch then |sorted| else batch)
    requires forall i | 0 <= i < |due| :: due[i] == sorted[i].key
    ensures DueList(s, now, batch, due)
  {
    hide SortedBy;
    forall i | 0 <= i < |due|
      ensures due[i] in s.jobs && Due(s.jobs[due[i]], now) && s.jobs[due[i]].nextRunAt == Some(sorted[i].at)
    {
      assert sorted[i] in sorted;
    }
    forall i, j | 0 <= i < j < |sorted| ensures sorted[i].at <= sorted[j].at { D.InOrder(sorted, i, j); }
    forall i, j | 0 <= i < j < |due| ensures due[i] != due[j] {
      assert sorted[i] != sorted[j];
    }
    forall id | id in s.jobs && Due(s.jobs[id], now) && id !in due
      ensures batch > 0 && |due| == batch
      ensures forall listed | listed in due :: s.jobs[listed].nextRunAt.value <= s.jobs[id].nextRunAt.value
    {
      D.LeftOut(sorted, due, D.Candidate(s.jobs[id].nextRunAt.value, id));
    }
  }

  // ---------------------------------------------------------------- runs over time

  // What happens around one job: cycles, with what dispatching leaves the runs as, runs triggered by
  // hand, runs progressing, and other jobs being changed or deleted.
  datatype Event =
    | Cycle(now: Time, due: seq<string>, dispatched: map<Key, Run>)
    | Trigger(job: string, run: string, at: Time)
    | Progress(key: Key, row: Run)
    | Edit(id: string, change: Option<Job>)

  predicate BelongsTo(s: State, k: Key, id: string) {
    if k.Scheduled? then k.job == id else k in s.infos && s.infos[k].job == id
  }

  // A job goes with all its runs.
  function Delete(s: State, id: string): State {
    var gone := set k | k in s.runs.Keys + s.infos.Keys && BelongsTo(s, k, id);
    State(s.jobs - {id}, s.runs - gone, s.infos - gone)
  }

  function Happen(s: State, e: Event, cfg: Config): State {
    match e
    case Cycle(now, due, dispatched) =>
      var o := CycleOf(s, due, now, cfg);
      if o.failure.Some? then o.state else o.state.(runs := dispatched)
    case Trigger(job, run, at) =>
      if job !in s.jobs then s
      else CreateIfAbsent(s, Manual(run), NewRun(s.jobs[job], cfg), NewInfo(job, s.jobs[job], at))
    case Progress(key, row) => if key in s.runs then s.(runs := s.runs[key := row]) else s
    case Edit(id, change) => if change.Some? then s.(jobs := s.jobs[id := change.value]) else Delete(s, id)
  }

  // Cycles see the due jobs of their moment, the clock does not go back, and job `id` is left alone.
  ghost predicate Possible(s: State, e: Event, now: Time, cfg: Config, id: string) {
    match e
    case Cycle(at, due, dispatched) =>
      && now <= at && DueList(s, at, cfg.batch, due)
      && var o := CycleOf(s, due, at, cfg);
         o.failure.None? ==> DispatchedTo(o.state.runs, dispatched, at, cfg.defaultLeaseSec)
    case Edit(other, _) => other != id
    case _ => true
  }

  function Clock(e: Event, now: Time): Time {
    if e.Cycle? then e.now else now
  }

  function History(s: State, es: seq<Event>, cfg: Config): State
    decreases |es|
  {
    if es == [] then s else History(Happen(s, es[0], cfg), es[1..], cfg)
  }

  function ClockAfter(es: seq<Event>, now: Time): Time {
    if es == [] then now else ClockAfter(es[1..], Clock(es[0], now))
  }

  ghost predicate PossibleHistory(s: State, es: seq<Event>, now: Time, cfg: Config, id: string)
    decreases |es|
  {
    es != [] ==>
      && Possible(s, es[0], now, cfg, id)
      && PossibleHistory(Happen(s, es[0], cfg), es[1..], Clock(es[0], now), cfg, id)
  }

  // How many cycles took the job up.
  function Taken(s: State, es: seq<Event>, cfg: Config, id: string): nat
    decreases |es|
  {
    if es == [] then 0
    else
      Taken(Happen(s, es[0], cfg), es[1..], cfg, id)
      + if es[0].Cycle? && id in es[0].due && CycleOf(s, es[0].due, es[0].now, cfg).failure.None? then 1 else 0
  }

  // The fire times of an expression from a first one on.
  function FireTime(expr: string, first: Time, n: nat): Option<Time> {
    if n == 0 then Some(first)
    else
      match FireTime(expr, first, n - 1)
      case None => None
      case Some(t) => (match Next(expr, t) case Ok(u) => Some(u) case Err(_) => None)
  }

  predicate HasRun(s: State, id: string, at: Time) {
    Scheduled(id, at) in s.runs
  }

  ghost predicate SameRuns(s: State, t: State, id: string) {
    forall at {:trigger HasRun(t, id, at)} :: HasRun(t, id, at) <==> HasRun(s, id, at)
  }

  // `t` has the runs of `s` and the one at `fired`.
  ghost predicate OneMoreRun(s: State, t: State, id: string, fired: Time) {
    forall at {:trigger HasRun(t, id, at)} :: HasRun(t, id, at) <==> HasRun(s, id, at) || at == fired
  }

  ghost predicate Untouched(s: State, t: State, id: string) {
    (id in t.jobs <==> id in s.jobs) && (id in s.jobs ==> t.jobs[id] == s.jobs[id]) && SameRuns(s, t, id)
  }

  ghost predicate TakenUp(s: State, t: State, id: string) {
    && id in s.jobs && id in t.jobs && s.jobs[id].nextRunAt.Some?
    && var at := s.jobs[id].nextRunAt.value;
       var next := ComputeNext(s.jobs[id], at);
       && next.Ok?
       && t.jobs[id] == s.jobs[id].(nextRunAt := next.value, enabled := Some(next.value.Some?))
       && OneMoreRun(s, t, id, at)
  }

  lemma OneStep(s: State, other: string, now: Time, cfg: Config, id: string)
    requires EnqueueOne(s, other, now, cfg).Ok?
    ensures var t := EnqueueOne(s, other, now, cfg).value;
      if other == id && id in s.jobs && Due(s.jobs[id], now) then TakenUp(s, t, id) else Untouched(s, t, id)
  {
    hide Next;
  }

  predicate Distinct(due: seq<string>) {
    forall i, j | 0 <= i < j < |due| :: due[i] != due[j]
  }

  lemma {:induction false} NotListed(s: State, due: seq<string>, now: Time, cfg: Config, id: string)
    requires id !in due && EnqueueAll(s, due, now, cfg).failure.None?
    ensures Untouched(s, EnqueueAll(s, due, now, cfg).state, id)
    decreases |due|
  {
    if due != [] {
      var s' := EnqueueOne(s, due[0], now, cfg).value;
      OneStep(s, due[0], now, cfg, id);
      NotListed(s', due[1..], now, cfg, id);
    }
  }

  lemma {:induction false} Listed(s: State, due: seq<string>, now: Time, cfg: Config, id: string)
    requires id in due && Distinct(due) && EnqueueAll(s, due, now, cfg).failure.None?
    requires id in s.jobs && Due(s.jobs[id], now)
    ensures TakenUp(s, EnqueueAll(s, due, now, cfg).state, id)
    decreases |due|
  {
    var s' := EnqueueOne(s, due[0], now, cfg).value;
    OneStep(s, due[0], now, cfg, id);
    if due[0] == id {
      NotListed(s', due[1..], now, cfg, id);
    } else {
      assert id in due[1..];
      Listed(s', due[1..], now, cfg, id);
    }
  }

  // ---------------------------------------------------------------- runs are what their jobs ask for

  // The run of a job for a time, in the job's own terms: pending in its first attempt, with the
  // retries and the lease of the job, or the configured ones where it sets none, to be dispatched to
  // its group by its policy.
  predicate AsAsked(s: State, cfg: Config, id: string, at: Time, run: Run, info: D.Info)
    requires id in s.jobs
  {
    var job := s.jobs[id];
    && run.status == Pending && run.attempt == 1 && run.leasedBy == ""
    && run.maxRetries == (if job.maxRetries > 0 then job.maxRetries
                          else if job.maxRetries == 0 && cfg.defaultMaxRetries > 0 then cfg.defaultMaxRetries else 0)
    && LastsFor(run, cfg.defaultLeaseSec,
                if job.leaseTimeoutSec > 0 then job.leaseTimeoutSec
                else if cfg.defaultLeaseSec > 0 then cfg.defaultLeaseSec
                else if job.payloadLeaseSec > 0 then job.payloadLeaseSec else 60)
    && info.job == id && info.group == job.group && info.policy == job.policy
    && info.service == job.service && info.scheduledAt == at
  }

  // The same job, as far as its runs depend on it, and the run of one time.
  ghost predicate RunIs(s: State, t: State, cfg: Config, id: string, at: Time) {
    && id in s.jobs && Scheduled(id, at) in t.runs && Scheduled(id, at) in t.infos
    && AsAsked(s, cfg, id, at, t.runs[Scheduled(id, at)], t.infos[Scheduled(id, at)])
  }

  lemma OneStepRuns(s: State, other: string, now: Time, cfg: Config, id: string)
    requires EnqueueOne(s, other, now, cfg).Ok? && id in s.jobs
    ensures var t := EnqueueOne(s, other, now, cfg).value;
      && (forall k | k in s.runs :: k in t.runs && t.runs[k] == s.runs[k])
      && (other == id && s.jobs[id].enabled == Some(true) && s.jobs[id].nextRunAt.Some?
          && s.jobs[id].nextRunAt.value <= now && Scheduled(id, s.jobs[id].nextRunAt.value) !in s.runs ==>
            RunIs(s, t, cfg, id, s.jobs[id].nextRunAt.value))
      && (forall k | k in s.runs && k in s.infos :: k in t.infos && t.infos[k] == s.infos[k])
  {
    hide Next;
  }

  lemma {:induction false} RunsStay(s: State, due: seq<string>, now: Time, cfg: Config, k: Key)
    requires k in s.runs && k in s.infos
    ensures var t := EnqueueAll(s, due, now, cfg).state;
      k in t.runs && k in t.infos && t.runs[k] == s.runs[k] && t.infos[k] == s.infos[k]
    decreases |due|
  {
    hide Next;
    if due != [] && EnqueueOne(s, due[0], now, cfg).Ok? {
      RunsStay(EnqueueOne(s, due[0], now, cfg).value, due[1..], now, cfg, k);
    }
  }

  lemma {:induction false} ListedRun(s: State, due: seq<string>, now: Time, cfg: Config, id: string, at: Time)
    requires id in due && Distinct(due) && EnqueueAll(s, due, now, cfg).failure.None?
    requires id in s.jobs && s.jobs[id].enabled == Some(true) && s.jobs[id].nextRunAt == Some(at) && at <= now
    requires Scheduled(id, at) !in s.runs
    ensures RunIs(s, EnqueueAll(s, due, now, cfg).state, cfg, id, at)
    decreases |due|
  {
    hide EnqueueOne, AsAsked;
    var s' := EnqueueOne(s, due[0], now, cfg).value;
    OneStepRuns(s, due[0], now, cfg, id);
    OneStep(s, due[0], now, cfg, id);
    if due[0] == id {
      RunsStay(s', due[1..], now, cfg, Scheduled(id, at));
    } else {
      assert id in due[1..];
      OtherRunsOnly(s, due[0], now, cfg, Scheduled(id, at));
      ListedRun(s', due[1..], now, cfg, id, at);
      SameJobAsked(s, s', EnqueueAll(s', due[1..], now, cfg).state, cfg, id, at);
    }
  }

  lemma SameJobAsked(s: State, s': State, t: State, cfg: Config, id: string, at: Time)
    requires id in s.jobs && id in s'.jobs && s'.jobs[id] == s.jobs[id] && RunIs(s', t, cfg, id, at)
    ensures RunIs(s, t, cfg, id, at)
  {
  }

  lemma OtherRunsOnly(s: State, other: string, now: Time, cfg: Config, k: Key)
    requires EnqueueOne(s, other, now, cfg).Ok? && k.Scheduled? && k.job != other && k !in s.runs
    ensures k !in EnqueueOne(s, other, now, cfg).value.runs
  {
    hide Next;
  }

  // An enabled job whose fire time has come, and for which the batch has room, gets its run in this
  // very cycle if the cycle succeeds, and the run is what the job asks for. No run that was there is
  // changed by enqueueing.
  lemma RunsAreOnTime(s: State, due: seq<string>, now: Time, cfg: Config, id: string, at: Time)
    requires Known(s) && DueList(s, now, cfg.batch, due) && CycleOf(s, due, now, cfg).failure.None?
    requires id in s.jobs && s.jobs[id].enabled == Some(true) && s.jobs[id].nextRunAt == Some(at) && at <= now
    requires Room(s, cfg, id) && Scheduled(id, at) !in s.runs
    ensures RunIs(s, CycleOf(s, due, now, cfg).state, cfg, id, at)
    ensures forall k | k in s.runs :: var t := CycleOf(s, due, now, cfg).state;
              k in t.runs && t.runs[k] == s.runs[k]
  {
    hide EnqueueAll, DueList, Room;
    ListedIfRoom(s, now, cfg, due, id);
    OnceEach(s, due, now, cfg);
    ListedRun(s, due, now, cfg, id, at);
    forall k | k in s.runs ensures var t := CycleOf(s, due, now, cfg).state; k in t.runs && t.runs[k] == s.runs[k] {
      RunsStay(s, due, now, cfg, k);
    }
  }

  lemma OnceEach(s: State, due: seq<string>, now: Time, cfg: Config)
    requires DueList(s, now, cfg.batch, due)
    ensures Distinct(due)
  {
  }

  lemma EventEffect(s: State, e: Event, now: Time, cfg: Config, id: string)
    requires Possible(s, e, now, cfg, id) && id in s.jobs
    ensures var t := Happen(s, e, cfg);
      if e.Cycle? && id in e.due && CycleOf(s, e.due, e.now, cfg).failure.None?
      then TakenUp(s, t, id) && Due(s.jobs[id], e.now)
      else Untouched(s, t, id)
  {
    if e.Cycle? && CycleOf(s, e.due, e.now, cfg).failure.None? {
      var enqueued, t := CycleOf(s, e.due, e.now, cfg).state, Happen(s, e, cfg);
      assert forall at :: HasRun(t, id, at) <==> HasRun(enqueued, id, at);
      if id in e.due { Listed(s, e.due, e.now, cfg, id); } else { NotListed(s, e.due, e.now, cfg, id); }
    }
  }

  lemma {:induction false} LaterFires(expr: string, first: Time, n: nat)
    requires Next(expr, first).Ok?
    ensures FireTime(expr, Next(expr, first).value, n) == FireTime(expr, first, n + 1)
  {
    hide Next;
    assert FireTime(expr, first, 0) == Some(first);
    if n > 0 { LaterFires(expr, first, n - 1); }
  }

  ghost predicate IsFire(expr: string, first: Time, n: nat, at: Time) {
    exists k: nat | k < n :: FireTime(expr, first, k) == Some(at)
  }

  lemma FiresFrom(expr: string, first: Time, n: nat, at: Time)
    requires Next(expr, first).Ok?
    ensures IsFire(expr, first, n + 1, at) <==> at == first || IsFire(expr, Next(expr, first).value, n, at)
  {
    hide Next;
    var second := Next(expr, first).value;
    assert FireTime(expr, first, 0) == Some(first);
    forall k: nat ensures FireTime(expr, second, k) == FireTime(expr, first, k + 1) { LaterFires(expr, first, k); }
    if IsFire(expr, first, n + 1, at) && at != first {
      var k: nat :| k < n + 1 && FireTime(expr, first, k) == Some(at);
      assert k > 0;
      assert FireTime(expr, second, k - 1) == Some(at);
    }
  }

  predicate ActiveCron(j: Job) {
    j.kind == Cron && j.enabled == Some(true) && j.nextRunAt.Some?
  }

  lemma AfterFirst(expr: string, first: Time, n: nat)
    requires Next(expr, first).Ok?
    ensures FireTime(expr, Next(expr, first).value, n) == FireTime(expr, first, n + 1)
    ensures n > 0 ==> FireTime(expr, Next(expr, first).value, n - 1) == FireTime(expr, first, n)
    ensures forall at :: IsFire(expr, first, n + 1, at) <==> at == first || IsFire(expr, Next(expr, first).value, n, at)
  {
    hide Next;
    LaterFires(expr, first, n);
    if n > 0 { LaterFires(expr, first, n - 1); }
    forall at
      ensures IsFire(expr, first, n + 1, at) <==> at == first || IsFire(expr, Next(expr, first).value, n, at)
    {
      FiresFrom(expr, first, n, at);
    }
  }

  lemma TakenUpFirst(s: State, t: State, id: string)
    requires id in s.jobs && ActiveCron(s.jobs[id]) && TakenUp(s, t, id)
    ensures var expr, first := s.jobs[id].cronExpr, s.jobs[id].nextRunAt.value;
      && Next(expr, first).Ok? && t.jobs[id] == s.jobs[id].(nextRunAt := Some(Next(expr, first).value))
  {
    hide Next;
  }

  // Between `s` and `t` the job fired its first n times, one run each, and waits for the next.
  ghost predicate Fired(s: State, t: State, id: string, n: nat) {
    && id in s.jobs && id in t.jobs && s.jobs[id].nextRunAt.Some?
    && var expr, first := s.jobs[id].cronExpr, s.jobs[id].nextRunAt.value;
       && FireTime(expr, first, n).Some?
       && t.jobs[id] == s.jobs[id].(nextRunAt := FireTime(expr, first, n))
       && forall at {:trigger HasRun(t, id, at)} :: HasRun(t, id, at) <==>
           HasRun(s, id, at) || IsFire(expr, first, n, at)
  }

  lemma FiredLater(s: State, s': State, t: State, id: string, n: nat)
    requires Untouched(s, s', id) && Fired(s', t, id, n)
    ensures Fired(s, t, id, n)
  {
    hide FireTime;
    assert forall at :: HasRun(s', id, at) <==> HasRun(s, id, at);
  }

  lemma FiredOnceMore(s: State, s': State, t: State, id: string, n: nat)
    requires id in s.jobs && ActiveCron(s.jobs[id]) && TakenUp(s, s', id) && Fired(s', t, id, n)
    ensures Fired(s, t, id, n + 1)
  {
    hide Next;
    TakenUpFirst(s, s', id);
    var expr, first := s.jobs[id].cronExpr, s.jobs[id].nextRunAt.value;
    AfterFirst(expr, first, n);
    hide FireTime;
    hide IsFire;
    hide HasRun;
    var second := Next(expr, first).value;
    assert s'.jobs[id] == s.jobs[id].(nextRunAt := Some(second));
    forall at ensures HasRun(t, id, at) <==> HasRun(s, id, at) || IsFire(expr, first, n + 1, at) {
      assert HasRun(s', id, at) <==> HasRun(s, id, at) || at == first;
      assert HasRun(t, id, at) <==> HasRun(s', id, at) || IsFire(expr, second, n, at);
    }
  }

  lemma {:induction false} FiredHistory(s: State, es: seq<Event>, now: Time, cfg: Config, id: string)
    requires id in s.jobs && ActiveCron(s.jobs[id]) && PossibleHistory(s, es, now, cfg, id)
    ensures Fired(s, History(s, es, cfg), id, Taken(s, es, cfg, id))
    decreases |es|
  {
    hide Next, DueList, DispatchedTo, EnqueueAll;
    if es != [] {
      var s' := Happen(s, es[0], cfg);
      EventEffect(s, es[0], now, cfg, id);
      var t, n := History(s, es, cfg), Taken(s', es[1..], cfg, id);
      if es[0].Cycle? && id in es[0].due && CycleOf(s, es[0].due, es[0].now, cfg).failure.None? {
        TakenUpFirst(s, s', id);
        FiredHistory(s', es[1..], Clock(es[0], now), cfg, id);
        hide *;
        FiredOnceMore(s, s', t, id, n);
      } else {
        FiredHistory(s', es[1..], Clock(es[0], now), cfg, id);
        FiredLater(s, s', t, id, n);
      }
    }
  }

  lemma {:induction false} ClockForward(s: State, es: seq<Event>, now: Time, cfg: Config, id: string)
    requires PossibleHistory(s, es, now, cfg, id)
    ensures now <= ClockAfter(es, now)
    decreases |es|
  {
    hide Happen;
    if es != [] { ClockForward(Happen(s, es[0], cfg), es[1..], Clock(es[0], now), cfg, id); }
  }

  lemma {:induction false} FiredByNow(s: State, es: seq<Event>, now: Time, cfg: Config, id: string)
    requires id in s.jobs && ActiveCron(s.jobs[id]) && PossibleHistory(s, es, now, cfg, id)
    ensures var expr, first, n := s.jobs[id].cronExpr, s.jobs[id].nextRunAt.value, Taken(s, es, cfg, id);
      n > 0 ==> FireTime(expr, first, n - 1).Some? && FireTime(expr, first, n - 1).value <= ClockAfter(es, now)
    decreases |es|
  {
    hide Next, DueList, DispatchedTo, EnqueueAll, SameRuns, OneMoreRun;
    if es != [] {
      var s' := Happen(s, es[0], cfg);
      EventEffect(s, es[0], now, cfg, id);
      if es[0].Cycle? && id in es[0].due && CycleOf(s, es[0].due, es[0].now, cfg).failure.None? {
        TakenUpFirst(s, s', id);
        FiredByNow(s', es[1..], Clock(es[0], now), cfg, id);
        AfterFirst(s.jobs[id].cronExpr, s.jobs[id].nextRunAt.value, Taken(s', es[1..], cfg, id));
        ClockForward(s', es[1..], Clock(es[0], now), cfg, id);
      } else {
        FiredByNow(s', es[1..], Clock(es[0], now), cfg, id);
      }
    }
  }

  lemma {:induction false} FiresIncrease(expr: string, first: Time, m: nat, n: nat)
    requires m < n && FireTime(expr, first, n).Some?
    ensures FireTime(expr, first, m).Some? && FireTime(expr, first, m).value < FireTime(expr, first, n).value
    decreases n
  {
    hide Next;
    NextIsLater(expr, FireTime(expr, first, n - 1).value);
    if m < n - 1 { FiresIncrease(expr, first, m, n - 1); }
  }

  ghost predicate Increasing(expr: string, first: Time, n: nat) {
    forall i: nat, j: nat | i < j <= n && FireTime(expr, first, j).Some? ::
      FireTime(expr, first, i).Some? && FireTime(expr, first, i).value < FireTime(expr, first, j).value
  }

  lemma FiresAreIncreasing(expr: string, first: Time, n: nat)
    ensures Increasing(expr, first, n)
  {
    hide FireTime;
    forall i: nat, j: nat | i < j <= n && FireTime(expr, first, j).Some?
      ensures FireTime(expr, first, i).Some? && FireTime(expr, first, i).value < FireTime(expr, first, j).value
    {
      FiresIncrease(expr, first, i, j);
    }
  }

  lemma NextIsLater(expr: string, from: Time)
    requires Next(expr, from).Ok?
    ensures from < Next(expr, from).value
  {
    NextIsLeast(expr, from);
  }

  // Over any history in which an enabled cron job is left alone, its runs are exactly those it
  // had and one for each of its first n fire times, where n counts the cycles that took it up.
  // The fire times increase, none of the runs is ahead of the clock, and the job waits for the
  // next one.
  lemma ExactlyOnce(s: State, es: seq<Event>, now: Time, cfg: Config, id: string)
    requires id in s.jobs && ActiveCron(s.jobs[id]) && PossibleHistory(s, es, now, cfg, id)
    ensures var t, n := History(s, es, cfg), Taken(s, es, cfg, id);
      var expr, first := s.jobs[id].cronExpr, s.jobs[id].nextRunAt.value;
      && FireTime(expr, first, n).Some?
      && id in t.jobs && t.jobs[id] == s.jobs[id].(nextRunAt := FireTime(expr, first, n))
      && (forall at {:trigger HasRun(t, id, at)} :: HasRun(t, id, at) <==>
          HasRun(s, id, at) || IsFire(expr, first, n, at))
      && Increasing(expr, first, n)
      && (n > 0 ==> FireTime(expr, first, n - 1).Some? && FireTime(expr, first, n - 1).value <= ClockAfter(es, now))
  {
    hide Next;
    hide FireTime;
    hide History;
    hide Taken;
    FiredHistory(s, es, now, cfg, id);
    FiredByNow(s, es, now, cfg, id);
    FiresAreIncreasing(s.jobs[id].cronExpr, s.jobs[id].nextRunAt.value, Taken(s, es, cfg, id));
  }

  // ---------------------------------------------------------------- one-time jobs

  // A one-time job left alone is taken up at most once, gets its one run then, and is switched off.
  lemma {:induction false} OneTimeAtMostOnce(s: State, es: seq<Event>, now: Time, cfg: Config, id: string)
    requires id in s.jobs && s.jobs[id].kind == OneTime && PossibleHistory(s, es, now, cfg, id)
    ensures var t, n := History(s, es, cfg), Taken(s, es, cfg, id);
      && n <= 1 && id in t.jobs && (n == 1 ==> s.jobs[id].nextRunAt.Some?)
      && t.jobs[id] == (if n == 0 then s.jobs[id] else s.jobs[id].(nextRunAt := None, enabled := Some(false)))
      && forall at :: HasRun(t, id, at) <==> HasRun(s, id, at) || (n == 1 && s.jobs[id].nextRunAt == Some(at))
    decreases |es|
  {
    if es != [] {
      var s' := Happen(s, es[0], cfg);
      EventEffect(s, es[0], now, cfg, id);
      OneTimeAtMostOnce(s', es[1..], Clock(es[0], now), cfg, id);
      if es[0].Cycle? && id in es[0].due && CycleOf(s, es[0].due, es[0].now, cfg).failure.None? {
        assert s'.jobs[id].nextRunAt.None?;
      }
    }
  }

  // ---------------------------------------------------------------- failing cycles

  predicate NextFails(j: Job) {
    j.nextRunAt.Some? && ComputeNext(j, j.nextRunAt.value).Err?
  }

  lemma {:induction false} LoopFails(s: State, due: seq<string>, now: Time, cfg: Config)
    requires Distinct(due) && forall id | id in due :: id in s.jobs && Due(s.jobs[id], now)
    ensures EnqueueAll(s, due, now, cfg).failure.Some? <==> exists id | id in due :: NextFails(s.jobs[id])
    decreases |due|
  {
    hide ComputeNext;
    if due != [] && EnqueueOne(s, due[0], now, cfg).Ok? {
      var s' := EnqueueOne(s, due[0], now, cfg).value;
      var rest := due[1..];
      forall id | id in rest ensures id in s'.jobs && s'.jobs[id] == s.jobs[id] {
        OneStep(s, due[0], now, cfg, id);
      }
      LoopFails(s', rest, now, cfg);
      assert forall id | id in due :: id == due[0] || id in rest;
    } else if due != [] {
      assert NextFails(s.jobs[due[0]]);
    }
  }

  // A cycle fails exactly when some listed job has no next time; then nothing of it remains, not
  // even the runs of the jobs before that one.
  lemma CycleFails(s: State, due: seq<string>, now: Time, cfg: Config)
    requires DueList(s, now, cfg.batch, due)
    ensures CycleOf(s, due, now, cfg).failure.Some? <==> exists id | id in due :: NextFails(s.jobs[id])
    ensures CycleOf(s, due, now, cfg).failure.Some? ==> CycleOf(s, due, now, cfg).state == s
  {
    LoopFails(s, due, now, cfg);
  }

  // ---------------------------------------------------------------- one failing job

  // The jobs that may be listed before this one.
  function Ahead(s: State, id: string): set<string>
    requires id in s.jobs && s.jobs[id].nextRunAt.Some?
  {
    set other | other in s.jobs && other != id && Due(s.jobs[other], s.jobs[id].nextRunAt.value)
  }

  // The batch holds all of them and one more.
  predicate Room(s: State, cfg: Config, id: string)
    requires id in s.jobs && s.jobs[id].nextRunAt.Some?
  {
    cfg.batch == 0 || |Ahead(s, id)| < cfg.batch
  }

  lemma {:induction false} ElementsOf(due: seq<string>)
    requires Distinct(due)
    ensures |set id | id in due| == |due|
  {
    if due != [] {
      ElementsOf(due[1..]);
      assert (set id | id in due) == {due[0]} + set id | id in due[1..];
      assert due[0] !in due[1..];
    } else {
      assert (set id | id in due) == {};
    }
  }

  lemma ListedIfRoom(s: State, now: Time, cfg: Config, due: seq<string>, id: string)
    requires DueList(s, now, cfg.batch, due)
    requires id in s.jobs && Due(s.jobs[id], now) && Room(s, cfg, id)
    ensures id in due
  {
    if id !in due {
      var listed := set other | other in due;
      ElementsOf(due);
      assert listed <= Ahead(s, id);
      SubsetSize(listed, Ahead(s, id));
    }
  }

  // At every cycle of the history there is room for the job.
  predicate RoomThroughout(s: State, es: seq<Event>, cfg: Config, id: string)
    decreases |es|
  {
    es != [] ==>
      && (es[0].Cycle? ==> id in s.jobs && s.jobs[id].nextRunAt.Some? && Room(s, cfg, id))
      && RoomThroughout(Happen(s, es[0], cfg), es[1..], cfg, id)
  }

  function WithoutCycles(es: seq<Event>): seq<Event> {
    if es == [] then [] else (if es[0].Cycle? then [] else [es[0]]) + WithoutCycles(es[1..])
  }

  // A due job without a next time stops the engine: as long as the batch has room for it and it is
  // not edited, no cycle has any effect. No job gets a scheduled run, and no run is dispatched,
  // retried or failed; the history is the one without its cycles.
  lemma {:induction false} OneFailureStopsAll(s: State, es: seq<Event>, now: Time, cfg: Config, id: string)
    requires id in s.jobs && NextFails(s.jobs[id]) && Due(s.jobs[id], now)
    requires PossibleHistory(s, es, now, cfg, id) && RoomThroughout(s, es, cfg, id)
    ensures var t := History(s, es, cfg);
      && t == History(s, WithoutCycles(es), cfg)
      && id in t.jobs && t.jobs[id] == s.jobs[id]
    decreases |es|
  {
    hide DueList, NextFails, CycleOf, DispatchedTo;
    if es != [] {
      var s' := Happen(s, es[0], cfg);
      FailingCycle(s, es[0], now, cfg, id);
      OneFailureStopsAll(s', es[1..], Clock(es[0], now), cfg, id);
      var rest := WithoutCycles(es[1..]);
      if !es[0].Cycle? { assert ([es[0]] + rest)[1..] == rest; }
      assert [] + rest == rest;
    }
  }

  lemma FailingCycle(s: State, e: Event, now: Time, cfg: Config, id: string)
    requires id in s.jobs && NextFails(s.jobs[id]) && Due(s.jobs[id], now) && Possible(s, e, now, cfg, id)
    requires e.Cycle? ==> Room(s, cfg, id)
    ensures e.Cycle? ==> Happen(s, e, cfg) == s
    ensures id in Happen(s, e, cfg).jobs && Happen(s, e, cfg).jobs[id] == s.jobs[id]
    ensures Due(s.jobs[id], Clock(e, now))
  {
    hide Next, Room, NextFails, EnqueueAll;
    if e.Cycle? {
      ListedIfRoom(s, e.now, cfg, e.due, id);
      CycleFails(s, e.due, e.now, cfg);
    }
  }

  // If nobody edits any job, room now is room throughout.
  lemma {:induction false} RoomStays(s: State, es: seq<Event>, now: Time, cfg: Config, id: string)
    requires id in s.jobs && NextFails(s.jobs[id]) && Due(s.jobs[id], now) && Room(s, cfg, id)
    requires PossibleHistory(s, es, now, cfg, id) && forall e | e in es :: !e.Edit?
    ensures RoomThroughout(s, es, cfg, id)
    decreases |es|
  {
    hide DueList, NextFails, CycleOf, DispatchedTo;
    if es != [] {
      var s' := Happen(s, es[0], cfg);
      FailingCycle(s, es[0], now, cfg, id);
      assert !es[0].Edit?;
      assert s'.jobs == s.jobs;
      assert Ahead(s', id) == Ahead(s, id);
      RoomStays(s', es[1..], Clock(es[0], now), cfg, id);
    }
  }

  // ---------------------------------------------------------------- jobs that come to fail

  predicate FiresAt(expr: string, t: Time) {
    CronSyntax.ParseSchedule(expr).Ok? && t % MINUTE == 0 && Matches(CronSyntax.ParseSchedule(expr).value, t / MINUTE)
  }

  // An expression that is read as it is meant, and means no day that every year has.
  predicate LeapDaysOnly(expr: string) {
    CronSyntax.Meant(expr).Ok? && CronSyntax.NoOverflow(expr) && !Perennial(CronSyntax.Meant(expr).value)
  }

  // A job with such an expression comes to that point: within a day of its first fire time it has
  // fired for the last time and has no next one.
  lemma {:induction false} EveryLeapDayJobFails(expr: string, first: Time) returns (n: nat)
    requires FiresAt(expr, first) && LeapDaysOnly(expr)
    ensures FireTime(expr, first, n).Some? && Next(expr, FireTime(expr, first, n).value).Err?
    ensures n < DAY
  {
    n := LastFire(expr, first);
  }

  function LeftToday(t: Time): int {
    (DayOf(t / MINUTE) + 1) * DAY - 1 - t / MINUTE
  }

  lemma {:induction false} LastFire(expr: string, first: Time) returns (n: nat)
    requires FiresAt(expr, first) && LeapDaysOnly(expr)
    ensures FireTime(expr, first, n).Some? && Next(expr, FireTime(expr, first, n).value).Err?
    ensures 0 <= n <= LeftToday(first) < DAY
    decreases LeftToday(first)
  {
    hide Next, Matches, LeapDaysOnly, CronSyntax.ParseSchedule;
    if Next(expr, first).Err? {
      n := 0;
      assert FireTime(expr, first, 0) == Some(first);
    } else {
      var second := Next(expr, first).value;
      SameLeapDay(expr, first);
      n := LastFire(expr, second);
      LaterFires(expr, first, n);
      n := n + 1;
    }
  }

  lemma SameLeapDay(expr: string, first: Time)
    requires FiresAt(expr, first) && LeapDaysOnly(expr)
    requires Next(expr, first).Ok?
    ensures var second := Next(expr, first).value;
      FiresAt(expr, second) && first < second && LeftToday(second) < LeftToday(first)
  {
    hide Matches, Next, Perennial, CronSyntax.ParseSchedule, CronSyntax.Meant, CronSyntax.NoOverflow;
    var c := CronSyntax.ParseSchedule(expr).value;
    CronSyntax.ParsedAsMeant(expr);
    NextIsLeast(expr, first);
    LeapDayFiresStayTogether(c, first / MINUTE, Next(expr, first).value / MINUTE);
  }
}
