/** The engine's handling of one listed run on values, and the executors' reports that reach the rows
    before and during it. What becomes of each row is a run of `RunLease`. */
module RunHandling {
  import opened Wrappers
  import opened RunLease
  import opened Widths

  const EXHAUSTED := "run lease expired and retries exhausted"

  type Report = e: Event | e.IsReport() witness Read(Verdict("", false, false, ""), 0)

  // Reports in the order they arrive, each about one run.
  type Reports = seq<(Key, Report)>

  function Reported(r: Run, e: Report, fallback: int): Run {
    match e
    case Do(a) => Act(r, a, fallback)
    case Complete(v, at) =>
      (match Decide(r, v, at)
       case Ok(c) => Act(r, Write(c, at), fallback)
       case Err(_) => r)
    case _ => r
  }

  function ReceivedOne(rows: map<Key, Run>, report: (Key, Report), fallback: int): map<Key, Run> {
    if report.0 in rows then rows[report.0 := Reported(rows[report.0], report.1, fallback)] else rows
  }

  function Received(rows: map<Key, Run>, reports: Reports, fallback: int): (r: map<Key, Run>)
    ensures r.Keys == rows.Keys
  {
    if reports == [] then rows
    else
      var last := |reports| - 1;
      ReceivedOne(Received(rows, reports[..last], fallback), reports[last], fallback)
  }

  // What is done with a listed run: fail it, say why it has no executor, or try it with one.
  datatype Plan = Fail | Blame(reason: string) | Try(who: string)

  // How run `id` is handled, the reports before and meanwhile, and why its delivery is refused, if it is.
  datatype Handling = Handling(id: Key, plan: Plan, now: Time, early: Reports, late: Reports, refusal: Option<string>)

  // The rows after the first step of the handling: failing or claiming the run. To blame it, its row
  // is read and nothing is changed yet.
  function Opened(rows: map<Key, Run>, h: Handling, fallback: int): (r: map<Key, Run>)
    requires h.id in rows
    ensures r.Keys == rows.Keys
    ensures forall k | k in rows && k != h.id :: r[k] == rows[k]
  {
    match h.plan
    case Fail => rows[h.id := Act(rows[h.id], Expire(EXHAUSTED, h.now), fallback)]
    case Blame(_) => rows
    case Try(who) => rows[h.id := Act(rows[h.id], Claim(who, h.now), fallback)]
  }

  // The row after the second: blaming writes back all of the row that was read, and a refused run is
  // taken back if it was claimed.
  function Closed(later: Run, h: Handling, row: Run, fallback: int): Run {
    match h.plan
    case Fail => later
    case Blame(reason) => WriteBack(row, reason)
    case Try(who) =>
      if who == "" || !Claimable(row, h.now) || h.refusal.None? then later
      else Act(later, Bounce(who, h.refusal.value, h.now), fallback)
  }

  // The plan goes by the row as it was listed, and the rest by the row as it is.
  function Handled(rows: map<Key, Run>, h: Handling, fallback: int): (r: map<Key, Run>)
    requires h.id in rows
    ensures r.Keys == rows.Keys
  {
    var here := Received(rows, h.early, fallback);
    var later := Received(Opened(here, h, fallback), h.late, fallback);
    later[h.id := Closed(later[h.id], h, here[h.id], fallback)]
  }

  predicate SameLease(a: Run, b: Run) {
    a.leaseTimeoutSec == b.leaseTimeoutSec && a.payloadLeaseSec == b.payloadLeaseSec
  }

  lemma {:induction false} ReceivedKeeps(rows: map<Key, Run>, reports: Reports, fallback: int, key: Key)
    requires key in rows
    ensures SameLease(Received(rows, reports, fallback)[key], rows[key])
  {
    hide LeaseUntil;
    if reports != [] { ReceivedKeeps(rows, reports[..|reports| - 1], fallback, key); }
  }

  // How long a lease of the run is to last never changes.
  lemma HandledKeeps(rows: map<Key, Run>, h: Handling, fallback: int, key: Key)
    requires h.id in rows && key in rows
    ensures SameLease(Handled(rows, h, fallback)[key], rows[key])
  {
    hide Received, LeaseUntil;
    var here := Received(rows, h.early, fallback);
    ReceivedKeeps(rows, h.early, fallback, key);
    ReceivedKeeps(Opened(here, h, fallback), h.late, fallback, key);
  }

  // ---------------------------------------------------------------- each row's own events

  function Mine(reports: Reports, key: Key): (es: seq<Event>)
    ensures AllReports(es)
  {
    if reports == [] then []
    else
      var last := |reports| - 1;
      Mine(reports[..last], key) + if reports[last].0 == key then [reports[last].1] else []
  }

  function Opening(h: Handling): Event {
    match h.plan
    case Fail => Do(Expire(EXHAUSTED, h.now))
    case Blame(_) => BeginNote(h.now)
    case Try(who) => Do(Claim(who, h.now))
  }

  // What is left to do after the reports that arrive meanwhile; `row` is the row before them.
  function Closing(h: Handling, row: Run): seq<Event> {
    match h.plan
    case Fail => []
    case Blame(reason) => [EndNote(reason, h.now)]
    case Try(who) =>
      if who == "" || !Claimable(row, h.now) || h.refusal.None? then []
      else [Do(Bounce(who, h.refusal.value, h.now))]
  }

  function EventsOf(rows: map<Key, Run>, h: Handling, fallback: int, key: Key): seq<Event>
    requires h.id in rows
  {
    var row := Received(rows, h.early, fallback)[h.id];
    Mine(h.early, key)
    + (if key == h.id then [Opening(h)] else [])
    + Mine(h.late, key)
    + (if key == h.id then Closing(h, row) else [])
  }

  lemma {:induction false} StepsJoin(s: System, a: seq<Event>, b: seq<Event>)
    ensures Steps(s, a + b) == Steps(Steps(s, a), b)
    ensures AdmissibleSteps(s, a + b) <==> AdmissibleSteps(s, a) && AdmissibleSteps(Steps(s, a), b)
    decreases |a|
  {
    hide Step, Admissible;
    if a == [] {
      assert a + b == b;
    } else {
      assert (a + b)[0] == a[0] && (a + b)[1..] == a[1..] + b;
      StepsJoin(Step(s, a[0]), a[1..], b);
    }
  }

  // A system as far as one row is concerned.
  predicate Runs(s: System, row: Run, fallback: int) {
    s.run == row && s.noting.None? && s.fallback == fallback
  }

  function SystemOf(row: Run, now: Time, fallback: int): System {
    System(row, {}, None, now, fallback, 0, 0, 0, 0)
  }

  lemma ReportStep(s: System, e: Report)
    ensures var t := Step(s, e);
      t.run == Reported(s.run, e, s.fallback) && t.noting == s.noting && t.fallback == s.fallback
  {
  }

  // Reports reach a row as its own events.
  lemma {:induction false} ReceivedRow(s: System, rows: map<Key, Run>, reports: Reports, key: Key)
    requires key in rows && s.run == rows[key]
    ensures var t := Steps(s, Mine(reports, key));
      t.run == Received(rows, reports, s.fallback)[key] && t.noting == s.noting && t.fallback == s.fallback
    decreases |reports|
  {
    hide Step, Reported;
    if reports != [] {
      var last := |reports| - 1;
      var before := Mine(reports[..last], key);
      ReceivedRow(s, rows, reports[..last], key);
      if reports[last].0 == key {
        StepsJoin(s, before, [reports[last].1]);
        OneEvent(Steps(s, before), reports[last].1);
        ReportStep(Steps(s, before), reports[last].1);
      } else {
        assert before + [] == before;
      }
    }
  }

  lemma OpeningIs(s: System, rows: map<Key, Run>, h: Handling)
    requires h.id in rows && Runs(s, rows[h.id], s.fallback)
    ensures var b := Step(s, Opening(h));
      && b.run == Opened(rows, h, s.fallback)[h.id] && b.fallback == s.fallback
      && b.noting == if h.plan.Blame? then Some(rows[h.id]) else None
  {
    hide Act;
  }

  lemma ClosingIs(s: System, h: Handling, row: Run)
    requires s.noting == if h.plan.Blame? then Some(row) else None
    ensures Runs(Steps(s, Closing(h, row)), Closed(s.run, h, row, s.fallback), s.fallback)
  {
    hide Act, Claimable;
    if Closing(h, row) != [] { OneEvent(s, Closing(h, row)[0]); }
  }

  // What handling a run makes of any row is what that row's own events make of it.
  lemma HandledRow(s: System, rows: map<Key, Run>, h: Handling, key: Key)
    requires h.id in rows && key in rows && Runs(s, rows[key], s.fallback)
    ensures Runs(Steps(s, EventsOf(rows, h, s.fallback, key)), Handled(rows, h, s.fallback)[key], s.fallback)
  {
    hide Received, Mine, Steps, Opened, Closing, Closed, Step, AdmissibleSteps, Opening;
    var here := Received(rows, h.early, s.fallback);
    var early, late := Mine(h.early, key), Mine(h.late, key);
    var a := Steps(s, early);
    ReceivedRow(s, rows, h.early, key);
    if key == h.id {
      var b := Step(a, Opening(h));
      StepsJoin(s, early, [Opening(h)]);
      OneEvent(a, Opening(h));
      OpeningIs(a, here, h);
      ReceivedRow(b, Opened(here, h, s.fallback), h.late, key);
      StepsJoin(s, early + [Opening(h)], late);
      StepsJoin(s, early + [Opening(h)] + late, Closing(h, here[key]));
      ClosingIs(Steps(b, late), h, here[key]);
    } else {
      ReceivedRow(a, Opened(here, h, s.fallback), h.late, key);
      StepsJoin(s, early, late);
      assert early + [] + late + [] == early + late;
    }
  }

  // ---------------------------------------------------------------- handling is admissible

  // The reports among the events come in time, and what they write was read before.
  predicate Timely(s: System, es: seq<Event>)
    decreases |es|
  {
    es != [] ==> (es[0].IsReport() ==> Admissible(s, es[0])) && Timely(Step(s, es[0]), es[1..])
  }

  lemma {:induction false} TimelyJoin(s: System, a: seq<Event>, b: seq<Event>)
    ensures Timely(s, a + b) <==> Timely(s, a) && Timely(Steps(s, a), b)
    decreases |a|
  {
    hide Step, Admissible;
    if a == [] {
      assert a + b == b;
    } else {
      assert (a + b)[0] == a[0] && (a + b)[1..] == a[1..] + b;
      TimelyJoin(Step(s, a[0]), a[1..], b);
    }
  }

  lemma {:induction false} TimelyReports(s: System, es: seq<Event>)
    requires AllReports(es)
    ensures Timely(s, es) <==> AdmissibleSteps(s, es)
    decreases |es|
  {
    hide Step, Admissible;
    if es != [] {
      assert es[0].IsReport() && AllReports(es[1..]);
      TimelyReports(Step(s, es[0]), es[1..]);
    }
  }

  // If the run is leased, its lease was over when it was listed.
  predicate OnTime(s: System, now: Time) {
    now <= s.now && (s.run.status.IsHeld() ==> LeaseExpired(s.run, now))
  }

  lemma ReportsKeepOnTime(s: System, es: seq<Event>, now: Time)
    requires Inv(s) && AdmissibleSteps(s, es) && AllReports(es) && OnTime(s, now)
    ensures OnTime(Steps(s, es), now) && Inv(Steps(s, es)) && Steps(s, es).noting == s.noting
  {
    ExpiredStaysExpired(s, es);
    ReportsMoveOn(s, es);
    ClockAdvances(s, es);
    hide Steps, AdmissibleSteps, AllReports, Inv;
  }

  lemma OpeningIsAdmissible(s: System, h: Handling)
    requires Inv(s) && OnTime(s, h.now) && s.noting.None?
    ensures Admissible(s, Opening(h))
  {
    hide Inv;
  }

  lemma ClosingIsAdmissible(s: System, h: Handling, row: Run)
    requires s.noting == if h.plan.Blame? then Some(row) else None
    ensures AdmissibleSteps(s, Closing(h, row))
  {
    hide Step, Claimable;
    if Closing(h, row) != [] { OneEvent(s, Closing(h, row)[0]); }
  }

  // The events of the handled run in order; `row` is its row after the early reports.
  function Listed(h: Handling, early: seq<Event>, late: seq<Event>, row: Run): seq<Event> {
    early + [Opening(h)] + late + Closing(h, row)
  }

  lemma ListedSteps(s: System, h: Handling, early: seq<Event>, late: seq<Event>)
    ensures var a := Steps(s, early);
      var b := Step(a, Opening(h));
      var c := Steps(b, late);
      && Steps(s, Listed(h, early, late, a.run)) == Steps(c, Closing(h, a.run))
      && (AdmissibleSteps(s, Listed(h, early, late, a.run)) <==>
            && AdmissibleSteps(s, early) && Admissible(a, Opening(h)) && AdmissibleSteps(b, late)
            && AdmissibleSteps(c, Closing(h, a.run)))
      && (Timely(s, Listed(h, early, late, a.run)) ==> Timely(s, early) && Timely(b, late))
  {
    hide Steps, Step, Closing, AdmissibleSteps, Opening, Admissible, Timely;
    var a := Steps(s, early);
    var b := Step(a, Opening(h));
    StepsJoin(s, early, [Opening(h)]);
    OneEvent(a, Opening(h));
    StepsJoin(s, early + [Opening(h)], late);
    StepsJoin(s, early + [Opening(h)] + late, Closing(h, a.run));
    TimelyJoin(s, early, [Opening(h)]);
    TimelyJoin(s, early + [Opening(h)], late);
    TimelyJoin(s, early + [Opening(h)] + late, Closing(h, a.run));
  }

  lemma OpenedNoting(s: System, h: Handling)
    requires s.noting.None?
    ensures Step(s, Opening(h)).noting == if h.plan.Blame? then Some(s.run) else None
  {
    hide Act, Fires;
  }

  // If the reports come in time, so does all the rest.
  lemma ListedIsAdmissible(s: System, h: Handling, early: seq<Event>, late: seq<Event>)
    requires Inv(s) && s.noting.None? && OnTime(s, h.now) && AllReports(early) && AllReports(late)
    requires Timely(s, Listed(h, early, late, Steps(s, early).run))
    ensures AdmissibleSteps(s, Listed(h, early, late, Steps(s, early).run))
  {
    hide Inv, Steps, Step, Closing, AdmissibleSteps, Opening, Admissible, Timely, AllReports, OnTime, Listed;
    var a := Steps(s, early);
    var b := Step(a, Opening(h));
    ListedSteps(s, h, early, late);
    TimelyReports(s, early);
    ReportsKeepOnTime(s, early, h.now);
    OpeningIsAdmissible(a, h);
    StepInv(a, Opening(h));
    OpenedNoting(a, h);
    TimelyReports(b, late);
    ReportsMoveOn(b, late);
    ClosingIsAdmissible(Steps(b, late), h, a.run);
  }

  // ---------------------------------------------------------------- what handling leaves

  // Failed because its lease is over and no retry is left.
  predicate Lost(r: Run, now: Time) {
    r.status == Failed && r.completedAt == Some(now) && r.errorMessage == "run lease expired and retries exhausted"
  }

  predicate Leaves(h: Handling, row: Run, left: Run, fallback: int, undisturbed: bool) {
    match h.plan
    case Fail => if row.status.IsHeld() then Lost(left, h.now) else left == row
    case Blame(reason) => left == row.(errorMessage := reason)
    case Try(who) =>
      if !Claimable(row, h.now) then left == row && !row.status.IsHeld()
      else
        var claimed := Act(row, Claim(who, h.now), fallback);
        && HeldBy(claimed, who)
        && (Dispatchable(claimed, h.now) <==> Seconds(EffectiveLeaseTimeout(row, fallback)) <= 0)
        && (After(claimed, left) || (h.refusal.Some? && left.status == Pending && left.leasedBy == ""))
        && (undisturbed ==> if h.refusal.None? then left == claimed else left.status == Pending && left.leasedBy == "")
  }

  // A handled run is failed, unless its holder ended it in between; or is as it was read, with the
  // reason it has no executor; or is handed to an executor, whose reports alone move it on, unless
  // the delivery is refused before the executor started it.
  lemma HandlingOutcome(s: System, h: Handling, early: seq<Event>, late: seq<Event>, undisturbed: bool)
    requires undisturbed ==> late == []
    requires Inv(s) && s.noting.None? && Dispatchable(s.run, h.now) && h.now <= s.now
    requires AllReports(early) && AllReports(late)
    requires AdmissibleSteps(s, Listed(h, early, late, Steps(s, early).run))
    requires h.plan.Fail? <==> ShouldFailExpiredRun(s.run, h.now)
    requires h.plan.Try? ==> h.plan.who != ""
    ensures var row, left := Steps(s, early).run, Steps(s, Listed(h, early, late, Steps(s, early).run)).run;
      Leaves(h, row, left, s.fallback, undisturbed)
  {
    hide Inv, Steps, Step, Closing, AdmissibleSteps, Opening, Admissible, Timely, AllReports, Listed;
    var a := Steps(s, early);
    var b := Step(a, Opening(h));
    var c := Steps(b, late);
    ListedSteps(s, h, early, late);
    ListedRowOnTime(s, h.now);
    ReportsKeepOnTime(s, early, h.now);
    ReportsMoveOn(s, early);
    StepInv(a, Opening(h));
    ReportsMoveOn(b, late);
    OpenedNoting(a, h);
    OpenedRow(a, h);
    ClosingIs(c, h, a.run);
    RowsAreOk(s, a);
    NoSteps(b);
    HandlingLeaves(s.run, a.run, h, b.run, c.run, s.fallback, undisturbed);
  }

  lemma OpenedRow(s: System, h: Handling)
    ensures Step(s, Opening(h)).run ==
      match h.plan
      case Fail => Act(s.run, Expire(EXHAUSTED, h.now), s.fallback)
      case Blame(_) => s.run
      case Try(who) => Act(s.run, Claim(who, h.now), s.fallback)
    ensures Step(s, Opening(h)).fallback == s.fallback
  {
    hide Act, Fires;
  }

  lemma HandlingLeaves(listed: Run, row: Run, h: Handling, opening: Run, later: Run, fallback: int,
                       undisturbed: bool)
    requires Dispatchable(listed, h.now) && After(listed, row) && RowOk(listed) && RowOk(row)
    requires row.status.IsHeld() ==> LeaseExpired(row, h.now)
    requires h.plan.Fail? <==> ShouldFailExpiredRun(listed, h.now)
    requires h.plan.Try? ==> h.plan.who != ""
    requires After(opening, later) && (undisturbed ==> opening == later)
    requires opening ==
      match h.plan
      case Fail => Act(row, Expire(EXHAUSTED, h.now), fallback)
      case Blame(_) => row
      case Try(who) => Act(row, Claim(who, h.now), fallback)
    ensures Leaves(h, row, Closed(later, h, row, fallback), fallback, undisturbed)
  {
    hide Seconds;
  }

  lemma RowsAreOk(s: System, a: System)
    requires Inv(s) && Inv(a)
    ensures RowOk(s.run) && RowOk(a.run)
  {
  }

  lemma ListedRowOnTime(s: System, now: Time)
    requires Inv(s) && Dispatchable(s.run, now) && now <= s.now
    ensures OnTime(s, now)
  {
    hide Inv;
  }
}
