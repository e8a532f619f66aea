/** One scheduled run on values: the guarded updates of its row, and the row's life when the
    engine and any number of executors interleave those updates over a clock that never goes
    back. Completing a run reads the row first and writes it later; both steps are separate. */
module RunLease {
  import opened Wrappers
  import opened Widths

  type Time = int

  datatype RunStatus = Pending | Dispatched | Running | Succeeded | RetryWaiting | Failed
  {
    predicate IsTerminal() {
      this == Succeeded || this == Failed
    }

    // Leased to an executor.
    predicate IsHeld() {
      this == Dispatched || this == Running
    }
  }

  datatype Run = Run(
    status: RunStatus, attempt: int, maxRetries: int,
    leaseTimeoutSec: int, payloadLeaseSec: int,
    dispatchedAt: Option<Time>, startedAt: Option<Time>, completedAt: Option<Time>,
    leaseExpiresAt: Option<Time>, leasedBy: string, nextRetryAt: Option<Time>, errorMessage: string)

  // Runs are unique by idempotency key: a job's fire time, or the run's own id when triggered by hand.
  datatype Key = Scheduled(job: string, at: Time) | Manual(run: string)

  // A negative setting means none, zero means the default.
  function EffectiveMaxRetries(v: int, fallback: int): (r: int)
    ensures r >= 0
  {
    if v < 0 then 0 else if v == 0 then (if fallback < 0 then 0 else fallback) else v
  }

  // How long a lease lasts: the run's own setting, its payload's, or the configured default.
  function EffectiveLeaseTimeout(run: Run, fallback: int): (r: int)
    ensures r > 0
  {
    if run.leaseTimeoutSec > 0 then run.leaseTimeoutSec
    else if run.payloadLeaseSec > 0 then run.payloadLeaseSec
    else if fallback <= 0 then 60
    else fallback
  }

  function LeaseUntil(run: Run, fallback: int, now: Time): Time {
    now + Seconds(EffectiveLeaseTimeout(run, fallback))
  }

  // A lease lasts as long as it is set to if and only if that is at most 9223372036 seconds ...
  lemma LeaseLasts(run: Run, fallback: int, now: Time)
    ensures LeaseUntil(run, fallback, now) == now + EffectiveLeaseTimeout(run, fallback) * SECOND <==>
            EffectiveLeaseTimeout(run, fallback) <= MAX_SECONDS
  {
    hide Seconds;
    SecondsAreExact(EffectiveLeaseTimeout(run, fallback));
  }

  // ... and one set to ten thousand million seconds is over when it is granted.
  lemma LongLeaseIsOver(run: Run, fallback: int, now: Time, who: string)
    requires run.leaseTimeoutSec == 10_000_000_000 && who != "" && Claimable(run, now)
    ensures HeldBy(Act(run, Claim(who, now), fallback), who) && Dispatchable(Act(run, Claim(who, now), fallback), now)
  {
    assert Seconds(10_000_000_000) == 10_000_000_000_000_000_000 - 2 * TWO_63;
  }

  function Pow2(n: nat): nat {
    if n == 0 then 1 else 2 * Pow2(n - 1)
  }

  // Five seconds, doubled per attempt, five times at most.
  function BackoffSeconds(attempt: int): int {
    5 * Pow2(if attempt < 1 then 0 else if attempt > 6 then 5 else attempt - 1)
  }

  method RetryBackoff(attempt: int) returns (d: Time)
    ensures d == BackoffSeconds(attempt) * SECOND
  {
    var n := if attempt < 1 then 1 else attempt;
    var s, i := 5, 1;
    while i < n && i < 6
      invariant 1 <= i <= 6 && i <= n
      invariant s == 5 * Pow2(i - 1)
    {
      s := s * 2;
      i := i + 1;
    }
    d := s * SECOND;
  }

  lemma Pow2Grows(m: nat, n: nat)
    requires m <= n
    ensures 1 <= Pow2(m) <= Pow2(n)
  {
  }

  // Later attempts never wait less, and no wait leaves [5 s, 160 s].
  lemma BackoffGrows(a: int, b: int)
    requires a <= b
    ensures 5 <= BackoffSeconds(a) <= BackoffSeconds(b) <= 160
  {
    var m := if a < 1 then 0 else if a > 6 then 5 else a - 1;
    var n := if b < 1 then 0 else if b > 6 then 5 else b - 1;
    Pow2Grows(m, n);
    Pow2Grows(n, 5);
    assert Pow2(5) == 32;
  }

  // ---------------------------------------------------------------- guards

  predicate LeaseExpired(r: Run, now: Time) {
    r.status.IsHeld() && r.leaseExpiresAt.Some? && r.leaseExpiresAt.value <= now
  }

  predicate RetryDue(r: Run, now: Time) {
    r.status == RetryWaiting && r.nextRetryAt.Some? && r.nextRetryAt.value <= now
  }

  // What the engine lists.
  predicate Dispatchable(r: Run, now: Time) {
    || r.status == Pending
    || RetryDue(r, now)
    || (r.status == Dispatched && r.leaseExpiresAt.Some? && r.leaseExpiresAt.value <= now)
    || (r.status == Running && r.leaseExpiresAt.Some? && r.leaseExpiresAt.value <= now)
  }

  predicate Claimable(r: Run, now: Time) {
    || r.status == Pending
    || RetryDue(r, now)
    || (LeaseExpired(r, now) && r.attempt <= r.maxRetries)
  }

  predicate Exhausted(r: Run, now: Time) {
    LeaseExpired(r, now) && r.attempt > r.maxRetries
  }

  predicate ShouldFailExpiredRun(r: Run, now: Time) {
    if r.leaseExpiresAt.None? then false
    else if r.status != Dispatched && r.status != Running then false
    else !(r.leaseExpiresAt.value > now) && r.attempt > r.maxRetries
  }

  predicate HeldBy(r: Run, executor: string) {
    r.leasedBy == executor && r.status.IsHeld()
  }

  // ---------------------------------------------------------------- completions

  datatype Error = NotFound | OwnerMismatch | AlreadyCompleted | LeaseStateChanged

  // The columns a completion writes; computed from the row as it was read.
  datatype Completion = Completion(
    executor: string, status: RunStatus, attempt: int,
    nextRetryAt: Option<Time>, completedAt: Option<Time>, errorMessage: string)
  {
    // The attempt the completion was computed for.
    function ReadAttempt(): int {
      if status == RetryWaiting then attempt - 1 else attempt
    }
  }

  datatype Verdict = Verdict(executor: string, success: bool, retryable: bool, message: string)

  function Decide(r: Run, v: Verdict, now: Time): Result<Completion, Error> {
    if r.leasedBy != v.executor then Err(OwnerMismatch)
    else if r.status.IsTerminal() then Err(AlreadyCompleted)
    else if v.success then Ok(Completion(v.executor, Succeeded, r.attempt, None, Some(now), ""))
    else if v.retryable && r.attempt <= r.maxRetries then
      Ok(Completion(v.executor, RetryWaiting, r.attempt + 1,
                    Some(now + BackoffSeconds(r.attempt) * SECOND), None, v.message))
    else Ok(Completion(v.executor, Failed, r.attempt, None, Some(now), v.message))
  }

  // ---------------------------------------------------------------- guarded updates

  // The engine claims, fails an exhausted lease, takes back an undelivered run, and notes an
  // error; an executor marks, renews and completes.
  datatype Action =
    | Claim(who: string, at: Time)
    | MarkRunning(who: string, at: Time)
    | Renew(who: string, at: Time)
    | Write(completion: Completion, at: Time)
    | Bounce(who: string, message: string, at: Time)
    | Expire(message: string, at: Time)
    | Note(message: string, at: Time)

  // When the update finds its row.
  predicate Fires(r: Run, a: Action) {
    match a
    case Claim(who, at) => who != "" && Claimable(r, at)
    case MarkRunning(who, at) => HeldBy(r, who)
    case Renew(who, at) => HeldBy(r, who) && r.leaseExpiresAt.Some? && r.leaseExpiresAt.value > at
    case Write(c, at) => HeldBy(r, c.executor)
    case Bounce(who, _, at) => r.leasedBy == who && r.status == Dispatched
    case Expire(_, at) => Exhausted(r, at)
    case Note(_, _) => true
  }

  function Act(r: Run, a: Action, fallback: int): Run {
    if !Fires(r, a) then r
    else
      match a
      case Claim(who, at) =>
        r.(status := Dispatched, leasedBy := who, leaseExpiresAt := Some(LeaseUntil(r, fallback, at)),
           dispatchedAt := Some(at), nextRetryAt := None,
           attempt := if LeaseExpired(r, at) then r.attempt + 1 else r.attempt)
      case MarkRunning(who, at) =>
        r.(status := Running, startedAt := if r.startedAt.Some? then r.startedAt else Some(at))
      case Renew(who, at) =>
        r.(leaseExpiresAt := Some(LeaseUntil(r, fallback, at)))
      case Write(c, at) =>
        r.(status := c.status, attempt := c.attempt, nextRetryAt := c.nextRetryAt, completedAt := c.completedAt,
           leaseExpiresAt := None, leasedBy := "", errorMessage := c.errorMessage)
      case Bounce(who, message, at) =>
        r.(status := Pending, leasedBy := "", leaseExpiresAt := None, errorMessage := message)
      case Expire(message, at) =>
        r.(status := Failed, completedAt := Some(at), leasedBy := "", leaseExpiresAt := None, errorMessage := message)
      case Note(message, _) =>
        r.(errorMessage := message)
  }

  // ---------------------------------------------------------------- interleavings

  // The row, the completions read but not yet written, the row the engine has read to write it back
  // with a message, the clock, and a history: how often the run was claimed, taken back undelivered,
  // moved on by a claim, completion or expiry, and set back by such a write.
  datatype System = System(
    run: Run, inflight: set<Completion>, noting: Option<Run>, now: Time, fallback: int,
    claims: nat, bounces: nat, moves: nat, undone: nat)

  datatype Event =
    | Do(action: Action)
    | Read(verdict: Verdict, at: Time)
    | Complete(verdict: Verdict, at: Time)
    | BeginNote(at: Time)
    | EndNote(message: string, at: Time)
    | List(at: Time)
  {
    function At(): Time {
      match this
      case Do(a) => a.at
      case Read(_, at) => at
      case Complete(_, at) => at
      case BeginNote(at) => at
      case EndNote(_, at) => at
      case List(at) => at
    }

    // A report of an executor; everything else is the engine's.
    predicate IsReport() {
      Read? || Complete? || (Do? && (action.MarkRunning? || action.Renew? || action.Write?))
    }
  }

  // When no executor is found the engine reads the row and writes all of it back with a message.
  function WriteBack(read: Run, message: string): Run {
    read.(errorMessage := message)
  }

  // Rows that differ in their message at most.
  predicate Same(a: Run, b: Run) {
    a.(errorMessage := "") == b.(errorMessage := "")
  }

  // Executors act at the time it is, on what they read before. The engine does one thing at a time,
  // goes by the time at which it listed the runs, and notes only those: their lease was over then.
  predicate Admissible(s: System, e: Event) {
    match e
    case Do(a) =>
      && (e.IsReport() ==> a.at >= s.now)
      && (a.Write? ==> a.completion in s.inflight)
      && (!e.IsReport() ==> s.noting.None?)
    case Read(_, at) => at >= s.now
    case Complete(_, at) => at >= s.now
    case BeginNote(at) => s.noting.None? && (s.run.status.IsHeld() ==> LeaseExpired(s.run, at))
    case EndNote(_, _) => s.noting.Some?
    case List(_) => s.noting.None?
  }

  function Later(a: Time, b: Time): Time {
    if a < b then b else a
  }

  function Perform(s: System, a: Action): System {
    var fires := Fires(s.run, a);
    s.(run := Act(s.run, a, s.fallback), now := Later(s.now, a.at),
       claims := s.claims + if a.Claim? && fires then 1 else 0,
       bounces := s.bounces + if a.Bounce? && fires then 1 else 0,
       moves := s.moves + if (a.Claim? || a.Write? || a.Expire?) && fires then 1 else 0)
  }

  function Step(s: System, e: Event): System {
    match e
    case Do(a) =>
      Perform(if a.Write? then s.(inflight := s.inflight - {a.completion}) else s, a)
    case Read(v, at) =>
      (match Decide(s.run, v, at)
       case Ok(c) => s.(inflight := s.inflight + {c}, now := Later(s.now, at))
       case Err(_) => s.(now := Later(s.now, at)))
    case Complete(v, at) =>
      (match Decide(s.run, v, at)
       case Ok(c) => Perform(s, Write(c, at))
       case Err(_) => s.(now := Later(s.now, at)))
    case BeginNote(at) => s.(noting := Some(s.run), now := Later(s.now, at))
    case EndNote(message, at) =>
      if s.noting.None? then s
      else
        s.(run := WriteBack(s.noting.value, message), noting := None, now := Later(s.now, at),
           undone := s.undone + if Same(s.noting.value, s.run) then 0 else 1)
    case List(at) => s.(now := Later(s.now, at))
  }

  function Steps(s: System, es: seq<Event>): System
    decreases |es|
  {
    if es == [] then s else Steps(Step(s, es[0]), es[1..])
  }

  predicate AdmissibleSteps(s: System, es: seq<Event>)
    decreases |es|
  {
    es == [] || (Admissible(s, es[0]) && AdmissibleSteps(Step(s, es[0]), es[1..]))
  }

  // A run as the engine creates it.
  predicate Fresh(s: System) {
    && s.run.status == Pending && s.run.attempt == 1 && s.run.maxRetries >= 0
    && s.run.completedAt.None? && s.run.leaseExpiresAt.None? && s.run.leasedBy == "" && s.run.nextRetryAt.None?
    && s.inflight == {} && s.noting.None? && s.claims == 0 && s.bounces == 0 && s.moves == 0 && s.undone == 0
  }

  // A completion written from an earlier read finds the attempt it read.
  predicate WritesCurrent(s: System, e: Event) {
    e.Do? && e.action.Write? && Fires(s.run, e.action) ==> e.action.completion.ReadAttempt() == s.run.attempt
  }

  predicate AlwaysCurrent(s: System, es: seq<Event>)
    decreases |es|
  {
    es != [] ==> WritesCurrent(s, es[0]) && AlwaysCurrent(Step(s, es[0]), es[1..])
  }

  // No completion is split.
  predicate Atomic(es: seq<Event>) {
    forall i | 0 <= i < |es| :: !es[i].Read? && !(es[i].Do? && es[i].action.Write?)
  }

  // ---------------------------------------------------------------- invariant

  predicate CompletionOk(c: Completion, maxRetries: int) {
    && (c.status.IsTerminal() || c.status == RetryWaiting)
    && (c.status.IsTerminal() <==> c.completedAt.Some?)
    && (c.status == RetryWaiting <==> c.nextRetryAt.Some?)
    && 1 <= c.ReadAttempt() && c.attempt <= maxRetries + 1
  }

  predicate RowOk(r: Run) {
    && (r.status.IsHeld() <==> r.leaseExpiresAt.Some?)
    && (r.status.IsHeld() <==> r.leasedBy != "")
    && (r.status.IsTerminal() <==> r.completedAt.Some?)
    && (r.status == RetryWaiting <==> r.nextRetryAt.Some?)
    && 1 <= r.attempt <= r.maxRetries + 1
  }

  // What executors can make of a row: they move a leased run on, never back, and touch no other.
  predicate After(a: Run, b: Run) {
    && b.maxRetries == a.maxRetries && b.leaseTimeoutSec == a.leaseTimeoutSec && b.payloadLeaseSec == a.payloadLeaseSec
    && b.dispatchedAt == a.dispatchedAt
    && (!a.status.IsHeld() ==> b == a)
    && (b.status.IsHeld() ==>
          && a.status.IsHeld() && b.leasedBy == a.leasedBy && b.attempt == a.attempt && b.errorMessage == a.errorMessage
          && a.leaseExpiresAt.Some? && b.leaseExpiresAt.Some? && a.leaseExpiresAt.value <= b.leaseExpiresAt.value
          && (a.status == Running ==> b.status == Running)
          && (a.startedAt.Some? ==> b.startedAt == a.startedAt))
  }

  predicate LeaseBounded(r: Run, fallback: int, now: Time) {
    r.leaseExpiresAt.Some? ==> r.leaseExpiresAt.value <= LeaseUntil(r, fallback, now)
  }

  // The row being noted is one executors have made the current row of, and its lease is over.
  predicate NotingOk(s: System) {
    s.noting.Some? ==>
      var read := s.noting.value;
      && RowOk(read) && After(read, s.run) && LeaseBounded(read, s.fallback, s.now)
      && (read.leaseExpiresAt.Some? ==> read.leaseExpiresAt.value <= s.now)
      && (s.run.status.IsHeld() ==> s.run.leaseExpiresAt == read.leaseExpiresAt)
  }

  predicate Inv(s: System) {
    && RowOk(s.run) && LeaseBounded(s.run, s.fallback, s.now)
    && (forall c | c in s.inflight :: CompletionOk(c, s.run.maxRetries))
    && NotingOk(s)
  }

  lemma FreshInv(s: System)
    requires Fresh(s)
    ensures Inv(s)
  {
  }

  lemma AfterSelf(r: Run)
    requires RowOk(r)
    ensures After(r, r)
  {
  }

  lemma AfterBoth(a: Run, b: Run, c: Run)
    requires After(a, b) && After(b, c)
    ensures After(a, c)
  {
  }

  lemma ReportMovesOn(s: System, e: Event)
    requires RowOk(s.run) && LeaseBounded(s.run, s.fallback, s.now) && Admissible(s, e) && e.IsReport()
    requires forall c | c in s.inflight :: CompletionOk(c, s.run.maxRetries)
    ensures After(s.run, Step(s, e).run) && Step(s, e).noting == s.noting && Step(s, e).undone == s.undone
    ensures Step(s, e).run.status.IsHeld() && s.run.leaseExpiresAt.value <= s.now ==>
              Step(s, e).run.leaseExpiresAt == s.run.leaseExpiresAt
  {
    hide Seconds;
  }

  lemma ActedRow(r: Run, a: Action, fallback: int, now: Time)
    requires RowOk(r) && LeaseBounded(r, fallback, now) && (a.Write? ==> CompletionOk(a.completion, r.maxRetries))
    ensures var t := Act(r, a, fallback);
      && RowOk(t) && LeaseBounded(t, fallback, Later(now, a.at)) && t.maxRetries == r.maxRetries
      && t.leaseTimeoutSec == r.leaseTimeoutSec && t.payloadLeaseSec == r.payloadLeaseSec
  {
    hide Seconds;
  }

  lemma DecidedIsOk(r: Run, v: Verdict, at: Time)
    requires RowOk(r) && Decide(r, v, at).Ok?
    ensures CompletionOk(Decide(r, v, at).value, r.maxRetries)
  {
  }

  lemma RowStep(s: System, e: Event)
    requires Inv(s) && Admissible(s, e)
    ensures var t := Step(s, e);
      && RowOk(t.run) && LeaseBounded(t.run, t.fallback, t.now)
      && (forall c | c in t.inflight :: CompletionOk(c, t.run.maxRetries))
      && t.run.maxRetries == s.run.maxRetries && t.fallback == s.fallback
      && t.run.leaseTimeoutSec == s.run.leaseTimeoutSec && t.run.payloadLeaseSec == s.run.payloadLeaseSec
      && t.now == Later(s.now, e.At())
  {
    hide Seconds, Fires, RowOk, CompletionOk, Decide, Act;
    match e
    case Do(a) => ActedRow(s.run, a, s.fallback, s.now);
    case Read(v, at) => if Decide(s.run, v, at).Ok? { DecidedIsOk(s.run, v, at); }
    case Complete(v, at) =>
      if Decide(s.run, v, at).Ok? {
        DecidedIsOk(s.run, v, at);
        ActedRow(s.run, Write(Decide(s.run, v, at).value, at), s.fallback, s.now);
      }
    case BeginNote(_) =>
    case EndNote(message, _) => NotedRow(s.noting.value, message);
    case List(_) =>
  }

  lemma NotedRow(read: Run, message: string)
    requires RowOk(read)
    ensures RowOk(WriteBack(read, message))
  {
  }

  lemma NotingStep(s: System, e: Event)
    requires Inv(s) && Admissible(s, e)
    ensures NotingOk(Step(s, e))
  {
    hide Seconds, After;
    if e.IsReport() {
      ReportMovesOn(s, e);
      if s.noting.Some? { AfterBoth(s.noting.value, s.run, Step(s, e).run); }
      HeldBefore(s, e);
    } else {
      AfterSelf(s.run);
    }
  }

  lemma HeldBefore(s: System, e: Event)
    requires Inv(s) && Admissible(s, e) && e.IsReport()
    ensures Step(s, e).run.status.IsHeld() ==> s.run.status.IsHeld()
    ensures s.noting.Some? && s.run.status.IsHeld() ==> s.noting.value.status.IsHeld()
  {
    hide Seconds;
  }

  lemma StepInv(s: System, e: Event)
    requires Inv(s) && Admissible(s, e)
    ensures Inv(Step(s, e))
    ensures Step(s, e).run.maxRetries == s.run.maxRetries && Step(s, e).fallback == s.fallback
    ensures Step(s, e).now == Later(s.now, e.At())
  {
    hide Step, NotingOk, RowOk, LeaseBounded, CompletionOk, Admissible;
    RowStep(s, e);
    NotingStep(s, e);
  }

  lemma {:induction false} StepsInv(s: System, es: seq<Event>)
    requires Inv(s) && AdmissibleSteps(s, es)
    ensures Inv(Steps(s, es)) && Steps(s, es).run.maxRetries == s.run.maxRetries
    decreases |es|
  {
    hide Step, Admissible, Inv;
    if es != [] {
      StepInv(s, es[0]);
      StepsInv(Step(s, es[0]), es[1..]);
    }
  }

  // Over every interleaving, split completions and notes included: a run is leased exactly while it is
  // dispatched or running, closed exactly when terminal, and never past its last attempt.
  lemma LeaseStates(s: System, es: seq<Event>)
    requires Fresh(s) && AdmissibleSteps(s, es)
    ensures var r := Steps(s, es).run;
      && (r.status.IsHeld() <==> r.leaseExpiresAt.Some?)
      && (r.status.IsHeld() <==> r.leasedBy != "")
      && (r.status.IsTerminal() <==> r.completedAt.Some?)
      && 1 <= r.attempt <= s.run.maxRetries + 1
  {
    FreshInv(s);
    StepsInv(s, es);
  }

  // ---------------------------------------------------------------- who gets a run, and when

  // When a run may be handed out, and whether that is a new attempt: a pending one at once, a failed
  // one when its wait is over, and a leased one when its lease is, as long as it has been tried no
  // more often than retries are allowed; that is its next attempt.
  lemma HandedOut(s: System, who: string, at: Time)
    requires Inv(s) && who != "" && s.noting.None?
    ensures var r, t := s.run, Step(s, Do(Claim(who, at)));
      var lost := r.status in {Dispatched, Running} && r.leaseExpiresAt.value <= at;
      && (t.claims == s.claims + 1 <==>
            || r.status == Pending
            || (r.status == RetryWaiting && r.nextRetryAt.value <= at)
            || (lost && r.attempt <= r.maxRetries))
      && (t.claims == s.claims + 1 ==>
            && t.run.status == Dispatched && t.run.leasedBy == who && t.run.dispatchedAt == Some(at)
            && t.run.attempt == (if lost then r.attempt + 1 else r.attempt) && t.run.nextRetryAt.None?)
      && (t.claims != s.claims + 1 ==> t.run == r && t.claims == s.claims)
  {
    hide LeaseUntil;
  }

  // A leased run is failed when its lease is over and no retry is left.
  lemma FailedForGood(s: System, message: string, at: Time)
    requires Inv(s)
    ensures var r, t := s.run, Step(s, Do(Expire(message, at))).run;
      if r.status in {Dispatched, Running} && r.leaseExpiresAt.value <= at && r.attempt > r.maxRetries then
        t == r.(status := Failed, completedAt := Some(at), leasedBy := "", leaseExpiresAt := None,
                  errorMessage := message)
      else t == r
  {
  }

  // A delivery that was refused leaves the run pending in the same attempt, and an executor's word
  // that it has started leaves it running.
  lemma TakenBackOrStarted(s: System, who: string, message: string, at: Time)
    requires Inv(s) && who != ""
    ensures var r, t := s.run, Step(s, Do(Bounce(who, message, at))).run;
      if r.leasedBy == who && r.status == Dispatched then
        t == r.(status := Pending, leasedBy := "", leaseExpiresAt := None, errorMessage := message)
      else t == r
    ensures var r, t := s.run, Step(s, Do(MarkRunning(who, at))).run;
      if r.leasedBy == who then
        t == r.(status := Running, startedAt := if r.startedAt.Some? then r.startedAt else Some(at))
      else t == r
  {
  }

  // ---------------------------------------------------------------- exclusivity

  // The executor on whose behalf an action is taken; "" for the engine's own.
  function Actor(a: Action): string {
    match a
    case Claim(who, _) => who
    case MarkRunning(who, _) => who
    case Renew(who, _) => who
    case Write(c, _) => c.executor
    case Bounce(who, _, _) => who
    case _ => ""
  }

  // Before its lease expires, only its holder's own steps reach a leased run: nobody else can
  // claim, mark, renew, complete or take it back.
  lemma OnlyTheHolderActs(s: System, a: Action)
    requires Inv(s) && s.run.status.IsHeld() && a.at < s.run.leaseExpiresAt.value
    requires !a.Note? && Act(s.run, a, s.fallback) != s.run
    ensures Actor(a) == s.run.leasedBy && !a.Claim? && !a.Expire?
  {
  }

  // After expiry too, marking, renewing and completing need the recorded holder.
  lemma OnlyTheHolderReports(r: Run, a: Action)
    requires a.MarkRunning? || a.Renew? || a.Write? || a.Bounce?
    requires Fires(r, a)
    ensures r.leasedBy == Actor(a) && r.status.IsHeld()
  {
  }

  predicate GivesUp(s: System, e: Event, holder: string) {
    || (e.Do? && (e.action.Write? || e.action.Bounce?) && Actor(e.action) == holder && Fires(s.run, e.action))
    || (e.Complete? && e.verdict.executor == holder)
  }

  predicate GivesUpSomewhere(s: System, es: seq<Event>, holder: string)
    decreases |es|
  {
    es != [] && (GivesUp(s, es[0], holder) || GivesUpSomewhere(Step(s, es[0]), es[1..], holder))
  }

  // While a lease is in force, no note of an earlier row is under way.
  lemma NothingNoted(s: System)
    requires Inv(s) && s.run.status.IsHeld() && s.now < s.run.leaseExpiresAt.value
    ensures s.noting.None?
  {
  }

  lemma LeaseStep(s: System, e: Event)
    requires Inv(s) && Admissible(s, e) && s.run.status.IsHeld()
    requires Later(s.now, e.At()) < s.run.leaseExpiresAt.value && !GivesUp(s, e, s.run.leasedBy)
    ensures var t := Step(s, e);
      && HeldBy(t.run, s.run.leasedBy) && t.run.leaseExpiresAt.Some?
      && t.run.leaseExpiresAt.value >= s.run.leaseExpiresAt.value && t.claims == s.claims
  {
    hide Seconds, After;
    NothingNoted(s);
  }

  // Until the lease in force now runs out, the run stays with its holder over every interleaving in
  // which it is neither completed nor taken back from that holder; split notes included, since a
  // run whose lease is in force is not noted.
  lemma {:induction false} LeaseIsExclusive(s: System, es: seq<Event>)
    requires Inv(s) && AdmissibleSteps(s, es) && s.run.status.IsHeld()
    requires Steps(s, es).now < s.run.leaseExpiresAt.value && s.now < s.run.leaseExpiresAt.value
    requires !GivesUpSomewhere(s, es, s.run.leasedBy)
    ensures HeldBy(Steps(s, es).run, s.run.leasedBy)
    ensures Steps(s, es).run.leaseExpiresAt.Some?
    ensures Steps(s, es).run.leaseExpiresAt.value >= s.run.leaseExpiresAt.value
    ensures Steps(s, es).claims == s.claims
    decreases |es|
  {
    assert s.run.leaseExpiresAt.Some?;
    hide Step, Admissible, Inv, GivesUp;
    if es != [] {
      var s' := Step(s, es[0]);
      StepInv(s, es[0]);
      ClockAdvances(s', es[1..]);
      LeaseStep(s, es[0]);
      LeaseIsExclusive(s', es[1..]);
    }
  }

  lemma {:induction false} ClockAdvances(s: System, es: seq<Event>)
    requires Inv(s) && AdmissibleSteps(s, es)
    ensures Steps(s, es).now >= s.now
    decreases |es|
  {
    hide Step, Admissible, Inv;
    if es != [] {
      StepInv(s, es[0]);
      ClockAdvances(Step(s, es[0]), es[1..]);
    }
  }

  // The seconds a run's lease is to last: its own setting, else its payload's, else the configured
  // default, else sixty.
  predicate LastsFor(r: Run, fallback: int, seconds: int) {
    && (r.leaseTimeoutSec > 0 ==> seconds == r.leaseTimeoutSec)
    && (r.leaseTimeoutSec <= 0 && r.payloadLeaseSec > 0 ==> seconds == r.payloadLeaseSec)
    && (r.leaseTimeoutSec <= 0 && r.payloadLeaseSec <= 0 && fallback > 0 ==> seconds == fallback)
    && (r.leaseTimeoutSec <= 0 && r.payloadLeaseSec <= 0 && fallback <= 0 ==> seconds == 60)
  }

  // A claim or a renewal that takes effect at a time leaves a lease of that many seconds from then,
  // up to the 292 years that fit into 64 bits.
  lemma GrantedFor(r: Run, fallback: int, a: Action, seconds: int)
    requires a.Claim? || a.Renew?
    requires Fires(r, a) && LastsFor(r, fallback, seconds) && seconds <= 9_223_372_036
    ensures Act(r, a, fallback).leaseExpiresAt == Some(a.at + seconds * 1_000_000_000)
    ensures HeldBy(Act(r, a, fallback), if a.Claim? then a.who else r.leasedBy)
  {
    hide Seconds;
    LeaseLasts(r, fallback, a.at);
  }

  // After a renewal at a time, over any interleaving in which the holder does not give the run up,
  // nobody lists, claims, fails or completes it before its seconds have passed from then.
  lemma RenewalHolds(s: System, who: string, at: Time, es: seq<Event>, seconds: int)
    requires Inv(s) && Admissible(s, Do(Renew(who, at))) && Fires(s.run, Renew(who, at))
    requires LastsFor(s.run, s.fallback, seconds) && seconds <= 9_223_372_036
    requires var renewed := Step(s, Do(Renew(who, at)));
      && AdmissibleSteps(renewed, es) && !GivesUpSomewhere(renewed, es, who)
      && Steps(renewed, es).now < at + seconds * 1_000_000_000
    ensures var t := Steps(Step(s, Do(Renew(who, at))), es);
      && HeldBy(t.run, who) && t.claims == s.claims
      && !Dispatchable(t.run, t.now) && !Claimable(t.run, t.now) && !Exhausted(t.run, t.now)
  {
    var renewed := Step(s, Do(Renew(who, at)));
    GrantedFor(s.run, s.fallback, Renew(who, at), seconds);
    StepInv(s, Do(Renew(who, at)));
    StepsInv(renewed, es);
    ClockAdvances(renewed, es);
    hide Steps, AdmissibleSteps, GivesUpSomewhere, Inv, Seconds;
    LeaseIsExclusive(renewed, es);
    NotListed(Steps(renewed, es));
  }

  lemma NotListed(s: System)
    requires s.run.status.IsHeld() && s.run.leaseExpiresAt.Some? && s.now < s.run.leaseExpiresAt.value
    ensures !Dispatchable(s.run, s.now) && !Claimable(s.run, s.now) && !Exhausted(s.run, s.now)
  {
  }

  // The holder renews before the time granted so far has passed, every time, and does not give up.
  predicate RenewsInTime(s: System, es: seq<Event>, who: string, seconds: int, until: Time)
    decreases |es|
  {
    es != [] ==>
      && Later(s.now, es[0].At()) < until && !GivesUp(s, es[0], who)
      && var renewed := es[0] == Do(Renew(who, es[0].At()));
         RenewsInTime(Step(s, es[0]), es[1..], who, seconds,
                      if renewed then es[0].At() + seconds * 1_000_000_000 else until)
  }

  // An executor that renews in time keeps its run for as long as it likes: it is never displaced.
  lemma {:induction false} NeverDisplaced(s: System, es: seq<Event>, who: string, seconds: int, until: Time)
    requires Inv(s) && AdmissibleSteps(s, es) && HeldBy(s.run, who)
    requires s.now < until <= s.run.leaseExpiresAt.value
    requires LastsFor(s.run, s.fallback, seconds) && seconds <= 9_223_372_036
    requires RenewsInTime(s, es, who, seconds, until)
    ensures HeldBy(Steps(s, es).run, who) && Steps(s, es).claims == s.claims
    decreases |es|
  {
    hide Steps, Step, Admissible, Inv, GivesUp, LastsFor;
    NoSteps(s);
    if es != [] {
      var e, t := es[0], Step(s, es[0]);
      StepInv(s, e);
      KeepsRenewing(s, e, who, seconds, until);
      var next := if e == Do(Renew(who, e.At())) then e.At() + seconds * 1_000_000_000 else until;
      NeverDisplaced(t, es[1..], who, seconds, next);
      StepsFirst(s, es);
    }
  }

  lemma StepsFirst(s: System, es: seq<Event>)
    requires es != []
    ensures Steps(s, es) == Steps(Step(s, es[0]), es[1..])
  {
  }

  lemma NoSteps(s: System)
    ensures Steps(s, []) == s && AdmissibleSteps(s, [])
  {
  }

  lemma KeepsRenewing(s: System, e: Event, who: string, seconds: int, until: Time)
    requires Inv(s) && Admissible(s, e) && HeldBy(s.run, who) && s.now < until <= s.run.leaseExpiresAt.value
    requires LastsFor(s.run, s.fallback, seconds) && seconds <= 9_223_372_036
    requires Later(s.now, e.At()) < until && !GivesUp(s, e, who)
    ensures var t := Step(s, e);
      var next := if e == Do(Renew(who, e.At())) then e.At() + seconds * 1_000_000_000 else until;
      && HeldBy(t.run, who) && t.claims == s.claims && t.run.leaseExpiresAt.Some?
      && LastsFor(t.run, t.fallback, seconds) && t.fallback == s.fallback
      && t.now < next <= t.run.leaseExpiresAt.value
  {
  }

  // ---------------------------------------------------------------- notes

  predicate AllReports(es: seq<Event>) {
    forall e | e in es :: e.IsReport()
  }

  // No event changes the row, its message aside.
  predicate Quiet(s: System, es: seq<Event>)
    decreases |es|
  {
    es != [] ==> Same(s.run, Step(s, es[0]).run) && Quiet(Step(s, es[0]), es[1..])
  }

  lemma {:induction false} ReportsMoveOn(s: System, es: seq<Event>)
    requires Inv(s) && AdmissibleSteps(s, es) && AllReports(es)
    ensures After(s.run, Steps(s, es).run) && Steps(s, es).noting == s.noting
    ensures Inv(Steps(s, es)) && Steps(s, es).fallback == s.fallback
    decreases |es|
  {
    hide Step, Admissible, After, RowOk, NotingOk, LeaseBounded, CompletionOk;
    if es == [] {
      AfterSelf(s.run);
    } else {
      var t := Step(s, es[0]);
      StepInv(s, es[0]);
      ReportMovesOn(s, es[0]);
      ReportsMoveOn(t, es[1..]);
      AfterBoth(s.run, t.run, Steps(t, es[1..]).run);
    }
  }

  // A row between two rows that are the same is the same too.
  lemma Between(a: Run, b: Run, c: Run)
    requires RowOk(a) && RowOk(b) && RowOk(c) && After(a, b) && After(b, c) && Same(a, c)
    ensures Same(a, b) && Same(b, c)
  {
  }

  lemma {:induction false} QuietExactly(s: System, es: seq<Event>)
    requires Inv(s) && AdmissibleSteps(s, es) && AllReports(es)
    ensures Quiet(s, es) <==> Same(s.run, Steps(s, es).run)
    decreases |es|
  {
    hide Step, Admissible, After, RowOk, NotingOk, LeaseBounded, CompletionOk;
    if es != [] {
      var t, u := Step(s, es[0]), Steps(s, es);
      StepInv(s, es[0]);
      ReportMovesOn(s, es[0]);
      ReportsMoveOn(t, es[1..]);
      QuietExactly(t, es[1..]);
      if Same(s.run, u.run) { Between(s.run, t.run, u.run); }
    }
  }

  // A note written after any reports of executors does what a note in one step would do if and only
  // if none of those reports changed the row.
  lemma SplitNoteIsNote(s: System, es: seq<Event>, message: string, began: Time, ended: Time)
    requires Inv(s) && Admissible(s, BeginNote(began)) && AllReports(es)
    requires AdmissibleSteps(Step(s, BeginNote(began)), es)
    ensures var t := Steps(Step(s, BeginNote(began)), es);
      && Admissible(t, EndNote(message, ended))
      && (Step(t, EndNote(message, ended)).run == Act(t.run, Note(message, ended), s.fallback) <==>
            Quiet(Step(s, BeginNote(began)), es))
  {
    hide Inv, Quiet, Steps;
    var b := Step(s, BeginNote(began));
    StepInv(s, BeginNote(began));
    ReportsMoveOn(b, es);
    QuietExactly(b, es);
    SameMessage(s.run, Steps(b, es).run, message);
  }

  lemma SameMessage(a: Run, b: Run, message: string)
    ensures a.(errorMessage := message) == b.(errorMessage := message) <==> Same(a, b)
  {
  }

  // Otherwise it undoes what came between: if the holder of an expired run completes it in that
  // moment, the closed run is open again and can be claimed.
  lemma ClosedRunComesBack(s: System, message: string, at: Time)
    requires Inv(s) && s.noting.None? && LeaseExpired(s.run, at) && s.run.attempt <= s.run.maxRetries && at >= s.now
    ensures var b := Step(s, BeginNote(at));
      var done := Complete(Verdict(s.run.leasedBy, true, false, ""), at);
      var c := Step(b, done);
      && Admissible(s, BeginNote(at)) && Admissible(b, done) && Admissible(c, EndNote(message, at))
      && c.run.status == Succeeded
      && Claimable(Step(c, EndNote(message, at)).run, at)
  {
    hide Seconds;
  }

  lemma ClosedStep(s: System, e: Event)
    requires Inv(s) && Admissible(s, e) && s.run.status.IsTerminal()
    requires s.noting.Some? ==> Same(s.noting.value, s.run)
    ensures var t := Step(s, e); Same(s.run, t.run) && (t.noting.Some? ==> Same(t.noting.value, t.run))
  {
    hide Seconds, After;
  }

  lemma {:induction false} ClosedStays(s: System, es: seq<Event>)
    requires Inv(s) && AdmissibleSteps(s, es) && s.run.status.IsTerminal()
    requires s.noting.Some? ==> Same(s.noting.value, s.run)
    ensures Same(s.run, Steps(s, es).run)
    decreases |es|
  {
    hide Step, Admissible, Inv;
    if es != [] {
      StepInv(s, es[0]);
      ClosedStep(s, es[0]);
      ClosedStays(Step(s, es[0]), es[1..]);
    }
  }

  // A closed run stays closed as it was over every continuation, its message aside, if and only if
  // no note begun before it was closed is still to be written.
  lemma TerminalForever(s: System)
    requires Inv(s) && s.run.status.IsTerminal()
    ensures (forall es | AdmissibleSteps(s, es) :: Same(s.run, Steps(s, es).run)) <==>
              (s.noting.Some? ==> Same(s.noting.value, s.run))
  {
    hide Inv, Steps, AdmissibleSteps;
    if s.noting.Some? ==> Same(s.noting.value, s.run) {
      forall es | AdmissibleSteps(s, es) ensures Same(s.run, Steps(s, es).run) { ClosedStays(s, es); }
    } else {
      var e := EndNote("", s.now);
      OneEvent(s, e);
      assert AdmissibleSteps(s, [e]) && !Same(s.run, Steps(s, [e]).run);
    }
  }

  lemma OneEvent(s: System, e: Event)
    ensures Steps(s, [e]) == Step(s, e) && (AdmissibleSteps(s, [e]) <==> Admissible(s, e))
  {
    hide Step, Admissible;
    assert [e][1..] == [] && Steps(Step(s, e), []) == Step(s, e);
  }

  lemma {:induction false} ExpiredStaysExpired(s: System, es: seq<Event>)
    requires Inv(s) && AdmissibleSteps(s, es) && AllReports(es)
    requires s.run.status.IsHeld() ==> s.run.leaseExpiresAt.value <= s.now
    ensures Steps(s, es).run.status.IsHeld() ==>
              s.run.status.IsHeld() && Steps(s, es).run.leaseExpiresAt == s.run.leaseExpiresAt
    decreases |es|
  {
    hide Step, Admissible, NotingOk, LeaseBounded, CompletionOk;
    if es != [] {
      var t := Step(s, es[0]);
      StepInv(s, es[0]);
      ReportMovesOn(s, es[0]);
      ExpiredStaysExpired(t, es[1..]);
    }
  }

  // The engine tests the row it listed, and executors may report before it acts. A run it goes on
  // to claim or note is not one it should have failed, and if the run is leased, its lease is over.
  lemma ListedRowIsSafe(s: System, es: seq<Event>, at: Time)
    requires Inv(s) && AdmissibleSteps(s, es) && AllReports(es)
    requires Dispatchable(s.run, at) && at <= s.now
    ensures var r := Steps(s, es).run;
      && (Exhausted(r, at) ==> ShouldFailExpiredRun(s.run, at))
      && (r.status.IsHeld() ==> LeaseExpired(r, at))
  {
    ExpiredStaysExpired(s, es);
    ReportsMoveOn(s, es);
    hide Steps, AdmissibleSteps, AllReports;
  }

  // ---------------------------------------------------------------- retries

  // How many seconds a run waits after its n-th attempt has failed.
  const WAITS := [5, 10, 20, 40, 80, 160]

  lemma WaitIs(attempt: int)
    requires attempt >= 1
    ensures BackoffSeconds(attempt) == WAITS[if attempt < 6 then attempt - 1 else 5]
  {
    assert Pow2(0) == 1 && Pow2(1) == 2 && Pow2(2) == 4 && Pow2(3) == 8 && Pow2(4) == 16 && Pow2(5) == 32;
  }

  // A report of its holder ends a run: it succeeded; or it failed and is tried again if the executor
  // allows that and a retry is left; or it failed for good.
  lemma CompletionEnds(s: System, v: Verdict, at: Time)
    requires Inv(s) && HeldBy(s.run, v.executor) && at >= s.now
    ensures var r, t := s.run, Step(s, Complete(v, at)).run;
      && t.leasedBy == "" && t.leaseExpiresAt.None?
      && (v.success ==> t.status == Succeeded && t.completedAt == Some(at) && t.errorMessage == "")
      && (!v.success ==> t.errorMessage == v.message)
      && (!v.success && v.retryable && r.attempt <= r.maxRetries ==>
            && t.status == RetryWaiting && t.attempt == r.attempt + 1
            && t.nextRetryAt == Some(at + WAITS[if r.attempt < 6 then r.attempt - 1 else 5] * 1_000_000_000))
      && (!v.success && !(v.retryable && r.attempt <= r.maxRetries) ==>
            t.status == Failed && t.completedAt == Some(at))
  {
    WaitIs(s.run.attempt);
    hide Pow2, LeaseUntil;
  }

  // Reports of anybody else do not.
  lemma OthersCannotEnd(s: System, v: Verdict, at: Time)
    requires !HeldBy(s.run, v.executor)
    ensures Step(s, Complete(v, at)).run == s.run
  {
    hide BackoffSeconds;
  }

  // The row is waiting for a retry as it was left, its message aside.
  predicate StillWaits(s: System, left: Run) {
    Same(s.run, left) && (s.noting.Some? ==> Same(s.noting.value, left))
  }

  lemma WaitStep(s: System, e: Event, left: Run)
    requires Admissible(s, e) && StillWaits(s, left) && left.status == RetryWaiting && left.nextRetryAt.Some?
    requires Later(s.now, e.At()) < left.nextRetryAt.value
    ensures StillWaits(Step(s, e), left) && Step(s, e).claims == s.claims
  {
    hide LeaseUntil, BackoffSeconds;
  }

  lemma {:induction false} WaitSteps(s: System, es: seq<Event>, left: Run)
    requires Inv(s) && AdmissibleSteps(s, es) && StillWaits(s, left)
    requires left.status == RetryWaiting && left.nextRetryAt.Some? && Steps(s, es).now < left.nextRetryAt.value
    ensures StillWaits(Steps(s, es), left) && Steps(s, es).claims == s.claims
    decreases |es|
  {
    hide Step, Admissible, Inv, Same;
    if es != [] {
      var t := Step(s, es[0]);
      StepInv(s, es[0]);
      ClockAdvances(t, es[1..]);
      WaitStep(s, es[0], left);
      WaitSteps(t, es[1..], left);
    }
  }

  // A run that failed and may be tried again is left alone over every interleaving until its wait is
  // over, and can be claimed from then on.
  lemma RetryWaits(s: System, v: Verdict, at: Time, es: seq<Event>)
    requires Inv(s) && s.noting.None? && HeldBy(s.run, v.executor) && at >= s.now
    requires !v.success && v.retryable && s.run.attempt <= s.run.maxRetries
    requires var due := at + WAITS[if s.run.attempt < 6 then s.run.attempt - 1 else 5] * 1_000_000_000;
      AdmissibleSteps(Step(s, Complete(v, at)), es) && Steps(Step(s, Complete(v, at)), es).now < due
    ensures var due := at + WAITS[if s.run.attempt < 6 then s.run.attempt - 1 else 5] * 1_000_000_000;
      var t := Steps(Step(s, Complete(v, at)), es);
      && t.run.status == RetryWaiting && t.run.attempt == s.run.attempt + 1 && t.claims == s.claims
      && forall later :: (Dispatchable(t.run, later) <==> later >= due) && (Claimable(t.run, later) <==> later >= due)
  {
    var left := Step(s, Complete(v, at));
    CompletionEnds(s, v, at);
    StepInv(s, Complete(v, at));
    assert left.noting.None? && left.claims == s.claims;
    hide Step, Steps, AdmissibleSteps, Inv;
    WaitSteps(left, es, left.run);
  }

  // The history counts what took effect: claims, deliveries taken back, the claims, completions and
  // expiries that moved the run on, and the notes that set it back.
  lemma HistoryCounts(s: System, e: Event)
    requires Inv(s) && Admissible(s, e)
    ensures var t := Step(s, e);
      var changed := t.run != s.run;
      && t.claims == s.claims + (if e.Do? && e.action.Claim? && changed then 1 else 0)
      && t.bounces == s.bounces + (if e.Do? && e.action.Bounce? && changed then 1 else 0)
      && t.moves == s.moves + (if changed && (e.Complete? || (e.Do? && (e.action.Claim? || e.action.Write?
                                                                        || e.action.Expire?))) then 1 else 0)
      && t.undone == s.undone + (if e.EndNote? && !Same(t.run, s.run) then 1 else 0)
  {
    hide BackoffSeconds, LeaseBounded, NotingOk;
  }

  // ---------------------------------------------------------------- attempts

  // The deliveries a run's attempt number stands for.
  function Counted(r: Run): int {
    if r.status.IsHeld() || r.status.IsTerminal() then r.attempt else r.attempt - 1
  }

  // Claims that were not taken back, counted against the attempt number.
  predicate Accounted(s: System) {
    s.claims - s.bounces == Counted(s.run)
  }

  // How far a written completion, or a note, sets the attempt back.
  function Rewound(s: System, e: Event): int {
    if e.Do? && e.action.Write? && Fires(s.run, e.action) then s.run.attempt - e.action.completion.ReadAttempt()
    else if e.EndNote? && s.noting.Some? then Counted(s.run) - Counted(s.noting.value)
    else 0
  }

  function TotalRewound(s: System, es: seq<Event>): int
    decreases |es|
  {
    if es == [] then 0 else Rewound(s, es[0]) + TotalRewound(Step(s, es[0]), es[1..])
  }

  // Over every interleaving the deliveries are what the attempt number counts and what written
  // completions and notes set it back by.
  lemma {:induction false} Ledger(s: System, es: seq<Event>)
    requires Inv(s) && AdmissibleSteps(s, es)
    ensures var t := Steps(s, es);
      t.claims - t.bounces - Counted(t.run) == s.claims - s.bounces - Counted(s.run) + TotalRewound(s, es)
    decreases |es|
  {
    if es != [] {
      StepInv(s, es[0]);
      LedgerStep(s, es[0]);
      Ledger(Step(s, es[0]), es[1..]);
    }
  }

  lemma LedgerStep(s: System, e: Event)
    requires Inv(s) && Admissible(s, e)
    ensures var t := Step(s, e);
      t.claims - t.bounces - Counted(t.run) == s.claims - s.bounces - Counted(s.run) + Rewound(s, e)
  {
  }

  // So a new run reaches executors more than maxRetries + 1 times exactly when it is set back by more
  // than the attempts that are left.
  lemma DeliveriesAreCounted(s: System, es: seq<Event>)
    requires Fresh(s) && AdmissibleSteps(s, es)
    ensures var t := Steps(s, es);
      && t.claims - t.bounces == Counted(t.run) + TotalRewound(s, es)
      && (t.claims - t.bounces <= s.run.maxRetries + 1 <==>
            TotalRewound(s, es) <= s.run.maxRetries + 1 - Counted(t.run))
      && Counted(t.run) <= s.run.maxRetries + 1
  {
    FreshInv(s);
    StepsInv(s, es);
    Ledger(s, es);
  }

  // What is left before the run must be over: attempts first, then the way through one attempt.
  function Fuel(r: Run): int {
    2 * (r.maxRetries + 1 - r.attempt)
    + if r.status.IsTerminal() then 0 else if r.status.IsHeld() then 1 else 2
  }

  // A note under way counts the same deliveries, and can only set back what executors did since.
  predicate NoteCounts(s: System) {
    s.noting.Some? ==>
      && Counted(s.noting.value) == Counted(s.run)
      && Fuel(s.noting.value) <= Fuel(s.run) + if Same(s.noting.value, s.run) then 0 else 1
  }

  // What is left to do, with what claims, bounces and notes give back.
  function Budget(s: System): int {
    s.moves + Fuel(s.run) - s.bounces - s.undone
  }

  lemma CurrentReport(s: System, e: Event)
    requires Inv(s) && Admissible(s, e) && e.IsReport() && WritesCurrent(s, e)
    ensures Step(s, e).claims == s.claims && Step(s, e).bounces == s.bounces && Step(s, e).undone == s.undone
    ensures Counted(Step(s, e).run) == Counted(s.run) && Step(s, e).noting == s.noting
    ensures Fuel(Step(s, e).run) <= Fuel(s.run) <= Fuel(Step(s, e).run) + 1
    ensures Fuel(Step(s, e).run) < Fuel(s.run) <==> !Step(s, e).run.status.IsHeld() && s.run.status.IsHeld()
    ensures Step(s, e).moves + Fuel(Step(s, e).run) <= s.moves + Fuel(s.run)
  {
    hide Seconds, After;
  }

  lemma NoteCountsOn(s: System, e: Event)
    requires Inv(s) && Admissible(s, e) && e.IsReport() && WritesCurrent(s, e) && NoteCounts(s)
    ensures NoteCounts(Step(s, e))
  {
    hide Seconds;
    CurrentReport(s, e);
    if s.noting.Some? {
      ReportMovesOn(s, e);
      StepInv(s, e);
      HeldBefore(s, e);
      hide Step, Admissible, WritesCurrent;
      var read, t := s.noting.value, Step(s, e);
      if !t.run.status.IsHeld() && s.run.status.IsHeld() {
        assert read.status.IsHeld() && Fuel(read) == Fuel(s.run);
      } else if Same(read, t.run) {
        Between(read, s.run, t.run);
      }
    }
  }

  lemma CurrentStep(s: System, e: Event)
    requires Inv(s) && Admissible(s, e) && WritesCurrent(s, e) && Accounted(s) && NoteCounts(s)
    ensures Accounted(Step(s, e)) && NoteCounts(Step(s, e))
    ensures Budget(Step(s, e)) <= Budget(s)
  {
    hide Seconds, After;
    if e.IsReport() {
      CurrentReport(s, e);
      NoteCountsOn(s, e);
    }
  }

  lemma {:induction false} CurrentSteps(s: System, es: seq<Event>)
    requires Inv(s) && AdmissibleSteps(s, es) && AlwaysCurrent(s, es) && Accounted(s) && NoteCounts(s)
    ensures Accounted(Steps(s, es)) && Budget(Steps(s, es)) <= Budget(s)
    decreases |es|
  {
    hide Step, Admissible, Inv, WritesCurrent, Accounted, NoteCounts, Budget;
    if es != [] {
      StepInv(s, es[0]);
      CurrentStep(s, es[0]);
      CurrentSteps(Step(s, es[0]), es[1..]);
    }
  }

  // If every completion finds the attempt it read, the attempt counts the deliveries: at most
  // maxRetries + 1 reach an executor, even if notes reopen the run, and the run moves on at most
  // twice per attempt plus once per undelivered claim and per note that set it back. Completions
  // that are not split always find it.
  lemma DeliveriesAreBounded(s: System, es: seq<Event>)
    requires Fresh(s) && AdmissibleSteps(s, es) && AlwaysCurrent(s, es)
    ensures var t := Steps(s, es);
      && Accounted(t)
      && t.claims - t.bounces <= s.run.maxRetries + 1
      && t.moves <= 2 * (s.run.maxRetries + 1) + t.bounces + t.undone
  {
    FreshInv(s);
    StepsInv(s, es);
    CurrentSteps(s, es);
  }

  lemma {:induction false} UnsplitIsCurrent(s: System, es: seq<Event>)
    requires Atomic(es)
    ensures AlwaysCurrent(s, es)
    decreases |es|
  {
    if es != [] {
      assert !es[0].Read? && Atomic(es[1..]);
      UnsplitIsCurrent(Step(s, es[0]), es[1..]);
    }
  }

  lemma AtomicIsCurrent(s: System, es: seq<Event>)
    requires Fresh(s) && AdmissibleSteps(s, es) && Atomic(es)
    ensures AlwaysCurrent(s, es) && TotalRewound(s, es) == 0
  {
    UnsplitIsCurrent(s, es);
    DeliveriesAreBounded(s, es);
    DeliveriesAreCounted(s, es);
  }

  // A split completion keeps the count exactly when the attempt it read is still current.
  lemma StaleWriteBreaksAccounting(s: System, c: Completion, at: Time)
    requires Inv(s) && Accounted(s) && c in s.inflight && at >= s.now
    requires HeldBy(s.run, c.executor)
    ensures Accounted(Step(s, Do(Write(c, at)))) <==> c.ReadAttempt() == s.run.attempt
  {
  }

  // And it does happen: an executor that claims its own expired run between reading and writing
  // writes the older attempt back, so a run allowed two deliveries gets a third.
  lemma SplitCompletionDeliversTooOften()
    ensures exists s: System, es: seq<Event> ::
      Fresh(s) && AdmissibleSteps(s, es) && s.run.maxRetries == 1
      && Steps(s, es).claims - Steps(s, es).bounces > s.run.maxRetries + 1
  {
    var run := Run(Pending, 1, 1, 10, 0, None, None, None, None, "", None, "");
    var s0 := System(run, {}, None, 0, 60, 0, 0, 0, 0);
    var v := Verdict("e", false, true, "m");
    var e0 := Do(Claim("e", 0));
    var s1 := Step(s0, e0);
    var e1 := Read(v, 1);
    var s2 := Step(s1, e1);
    var c := Decide(s1.run, v, 1).value;
    assert c in s2.inflight;
    var e2 := Do(Claim("e", 10 * SECOND));
    var s3 := Step(s2, e2);
    assert s3.run.attempt == 2 && s3.claims == 2;
    var e3 := Do(Write(c, 11 * SECOND));
    var s4 := Step(s3, e3);
    assert s4.run.status == RetryWaiting && s4.run.attempt == 2;
    var e4 := Do(Claim("e", c.nextRetryAt.value + 20 * SECOND));
    var s5 := Step(s4, e4);
    assert BackoffSeconds(1) == 5;
    assert s5.claims == 3;
    StepsCons(s4, e4, []);
    StepsCons(s3, e3, [e4] + []);
    StepsCons(s2, e2, [e3] + ([e4] + []));
    StepsCons(s1, e1, [e2] + ([e3] + ([e4] + [])));
    StepsCons(s0, e0, [e1] + ([e2] + ([e3] + ([e4] + []))));
    assert Fresh(s0);
  }

  lemma StepsCons(s: System, e: Event, es: seq<Event>)
    ensures Steps(s, [e] + es) == Steps(Step(s, e), es)
    ensures AdmissibleSteps(s, [e] + es) <==> Admissible(s, e) && AdmissibleSteps(Step(s, e), es)
  {
    assert ([e] + es)[1..] == es;
  }

  // ---------------------------------------------------------------- nothing is orphaned

  // What the engine lists is what it can claim or must fail, never both; and the test it makes
  // before claiming is the guard of the failing update.
  lemma ListedIsClaimedOrFailed(r: Run, now: Time)
    ensures Dispatchable(r, now) <==> (Claimable(r, now) || Exhausted(r, now))
    ensures !(Claimable(r, now) && Exhausted(r, now))
    ensures ShouldFailExpiredRun(r, now) == Exhausted(r, now)
  {
  }

  // When an open run will next be listed if nothing happens to it.
  function DueAt(r: Run, now: Time): Time {
    if r.status == RetryWaiting && r.nextRetryAt.Some? then r.nextRetryAt.value
    else if r.leaseExpiresAt.Some? then r.leaseExpiresAt.value
    else now
  }

  // Every open run is listed from its retry time or lease expiry on, whatever happened before, and
  // the step a cycle takes when it gets to dispatching makes it progress.
  lemma NoOrphanedRun(s: System, es: seq<Event>, later: Time, executor: string)
    requires Fresh(s) && AdmissibleSteps(s, es) && executor != ""
    ensures var t := Steps(s, es);
      !t.run.status.IsTerminal() && later >= DueAt(t.run, later) ==>
        && Dispatchable(t.run, later)
        && (if ShouldFailExpiredRun(t.run, later)
            then Act(t.run, Expire("", later), t.fallback).status == Failed
            else HeldBy(Act(t.run, Claim(executor, later), t.fallback), executor))
        && var action := if ShouldFailExpiredRun(t.run, later) then Expire("", later) else Claim(executor, later);
          Fuel(Act(t.run, action, t.fallback)) < Fuel(t.run)
  {
    FreshInv(s);
    StepsInv(s, es);
  }
}
