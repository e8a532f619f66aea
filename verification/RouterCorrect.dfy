/** The compiled section routes every request as specified, whatever order the services came in. */
module RouterCorrect {
  import opened Wrappers
  import opened Text
  import opened RouteNames
  import opened Router
  import opened RouterProof
  import opened RouterTheorems
  import opened Sorting

  // ---------------------------------------------------------------- one service

  lemma OutcomeIsDecision(s: Service, req: Request, draw: int)
    requires Consistent(s)
    ensures var v := ViewOf(s, req);
      Or(StickyOutcome(s, v), SplitOutcome(s, v, draw < s.Percent())) == Decision(s, req, draw)
  {
    hide Serves, Lower, NormalizePath, BetaPath, Trim, StickyCookieName;
  }

  // Where a service sends a request if every rule draws its own number and its first rule draws
  // the n-th: a split compares the draws of its seventh and eighth rule with its percent, anything
  // else is decided without a draw.
  function Drawn(s: Service, req: Request, draws: nat -> int, n: nat): Option<string> {
    if Splits(s, ViewOf(s, req)) then
      if draws(n + 6) < s.Percent() then Some(s.Candidate())
      else if draws(n + 7) >= s.Percent() then Some(s.Live())
      else None
    else Decision(s, req, 0)
  }

  lemma SplitRuleDraws(acls: seq<Acl>, s: Service, req: Request, draws: nat -> int, v: View, n: nat)
    requires Tells(acls, s, req, v) && Splits(s, v)
    ensures FirstRule(acls, SplitRules(s), req, draws, n) ==
            if draws(n) < s.Percent() then Some(s.Candidate())
            else if draws(n + 1) >= s.Percent() then Some(s.Live())
            else None
  {
    hide Tells, Passes, NoOverride, NotOverridden, FirstRule;
    DrawTest(acls, s, true, req, draws(n), v);
    DrawTest(acls, s, false, req, draws(n + 1), v);
    var first, second := NoOverride(s) + [If(s, Split)], NoOverride(s) + [Unless(s, Split)];
    OneRule(acls, s.Candidate(), first, req, draws, n);
    OneRule(acls, s.Live(), second, req, draws, n + 1);
    RulesInTurn(acls, RuleFor(s.Candidate(), first), RuleFor(s.Live(), second), req, draws, n);
  }

  lemma SplitServiceIsSticky(s: Service, v: View)
    requires Splits(s, v) && Consistent(s)
    ensures |StickyRules(s)| == 6 && |SplitRules(s)| == 2 && StickyOutcome(s, v) == None
  {
    hide Base, NoQuery, Trim, Clamp, NoOverride;
  }

  // The rules of one service decide as specified, whatever its rules draw.
  lemma ServiceDecides(acls: seq<Acl>, s: Service, req: Request, draws: nat -> int, n: nat)
    requires Resolves(acls, s, req) && NoSentinel(req) && Consistent(s) && Readable(s)
    ensures FirstRule(acls, ServiceRules(s), req, draws, n) == Drawn(s, req, draws, n)
  {
    hide Yields, StickyRules, SplitRules, Decision, ViewOf, StickyOutcome, SplitOutcome, Resolves, Tells, Splits,
        Readable, FirstRule;
    var v := ViewOf(s, req);
    AclsTell(acls, s, req);
    StickyRulesYield(acls, s, req, draws, v);
    if Splits(s, v) {
      SplitServiceIsSticky(s, v);
      SplitRuleDraws(acls, s, req, draws, v, n + 6);
      YieldsHere(acls, StickyRules(s), req, draws, StickyOutcome(s, v), n);
      RulesInTurn(acls, StickyRules(s), SplitRules(s), req, draws, n);
    } else {
      SplitRulesYield(acls, s, req, draws, v, 0 < s.Percent());
      YieldsInTurn(acls, StickyRules(s), SplitRules(s), req, draws,
                   StickyOutcome(s, v), SplitOutcome(s, v, 0 < s.Percent()));
      OutcomeIsDecision(s, req, 0);
      YieldsHere(acls, ServiceRules(s), req, draws, Decision(s, req, 0), n);
    }
  }

  lemma YieldsHere(acls: seq<Acl>, rules: seq<Rule>, req: Request, draws: nat -> int, outcome: Option<string>, n: nat)
    requires Yields(acls, rules, req, draws, outcome)
    ensures FirstRule(acls, rules, req, draws, n) == outcome
  {
    hide FirstRule;
  }

  // ---------------------------------------------------------------- all services

  // The first service that decides, each drawing from its place in the list of rules on.
  function FirstDrawn(services: seq<Service>, req: Request, draws: nat -> int, n: nat): Option<string>
    decreases |services|
  {
    if services == [] then None
    else Or(Drawn(services[0], req, draws, n), FirstDrawn(services[1..], req, draws, n + |ServiceRules(services[0])|))
  }

  lemma {:induction false} ServicesDecide(acls: seq<Acl>, services: seq<Service>, req: Request, draws: nat -> int,
      n: nat)
    requires forall s | s in services :: Resolves(acls, s, req) && Consistent(s) && Readable(s)
    requires NoSentinel(req)
    ensures FirstRule(acls, RulesOf(services), req, draws, n) == FirstDrawn(services, req, draws, n)
    decreases |services|
  {
    hide Resolves, Consistent, Readable, Drawn, ServiceRules;
    if services == [] {
      assert RulesOf(services) == [];
    } else {
      ServiceDecides(acls, services[0], req, draws, n);
      ServicesDecide(acls, services[1..], req, draws, n + |ServiceRules(services[0])|);
      hide FirstRule;
      RulesInTurn(acls, ServiceRules(services[0]), RulesOf(services[1..]), req, draws, n);
    }
  }

  function OrDefault(backend: Option<string>): string {
    if backend.Some? then backend.value else DEFAULT_BACKEND
  }

  // With a fresh draw per rule, the section sends a request where the first service of the order
  // that decides it wants it.
  lemma EvaluatesWithDraws(services: seq<Service>, req: Request, draws: nat -> int)
    requires WellNamed(services) && NoSentinel(req)
    ensures Evaluate(Compiled(services), req, draws, DEFAULT_BACKEND) == OrDefault(FirstDrawn(services, req, draws, 0))
  {
    hide UuidLike, Consistent, Readable, DistinctIds, UniqueRoutes, Resolves, FirstDrawn, RulesOf, NoSentinel,
        FirstRule;
    forall s | s in services ensures Resolves(Compiled(services).acls, s, req) { NamesResolve(services, s, req); }
    ServicesDecide(Compiled(services).acls, services, req, draws, 0);
  }

  function FirstDecision(services: seq<Service>, req: Request, draw: int): Option<string> {
    if services == [] then None else Or(Decision(services[0], req, draw), FirstDecision(services[1..], req, draw))
  }

  lemma DrawnOnce(s: Service, req: Request, draws: nat -> int, draw: int, n: nat)
    requires OneDraw(draws, draw) && Consistent(s)
    ensures Drawn(s, req, draws, n) == Decision(s, req, draw)
  {
    OutcomeIsDecision(s, req, draw);
    OutcomeIsDecision(s, req, 0);
    hide Decision, ViewOf;
    if Splits(s, ViewOf(s, req)) { SplitServiceIsSticky(s, ViewOf(s, req)); }
    hide StickyOutcome;
  }

  lemma {:induction false} FirstDrawnOnce(services: seq<Service>, req: Request, draws: nat -> int, draw: int, n: nat)
    requires OneDraw(draws, draw) && forall s | s in services :: Consistent(s)
    ensures FirstDrawn(services, req, draws, n) == FirstDecision(services, req, draw)
    decreases |services|
  {
    hide Decision, Drawn, Consistent, ServiceRules;
    if services != [] {
      DrawnOnce(services[0], req, draws, draw, n);
      FirstDrawnOnce(services[1..], req, draws, draw, n + |ServiceRules(services[0])|);
    }
  }

  // Evaluated with one draw per request, the section sends a request where the first service of
  // the order that decides it wants it.
  lemma EvaluatesInOrder(services: seq<Service>, req: Request, draws: nat -> int, draw: int)
    requires WellNamed(services) && NoSentinel(req) && OneDraw(draws, draw)
    ensures Evaluate(Compiled(services), req, draws, DEFAULT_BACKEND) ==
            match FirstDecision(services, req, draw) { case Some(b) => b case None => DEFAULT_BACKEND }
  {
    EvaluatesWithDraws(services, req, draws);
    hide Evaluate, Compiled, UuidLike, Consistent, Readable, DistinctIds, FirstDrawn, FirstDecision;
    FirstDrawnOnce(services, req, draws, draw, 0);
  }

  // ---------------------------------------------------------------- the longest prefix

  lemma SharedHost(a: Service, b: Service, req: Request)
    requires Serves(a, req) && Serves(b, req)
    ensures exists h :: h in RouteHosts(a) && h in RouteHosts(b)
  {
    var h := Lower(req.host);
    hide NormalizeRouteHost, Lower;
    AddedMeaning([], [a.routeHost] + a.routeHosts, h);
    AddedMeaning([], [b.routeHost] + b.routeHosts, h);
    assert h in RouteHosts(a) && h in RouteHosts(b);
  }

  // Services that serve one request have prefixes of different lengths.
  lemma ServersDiffer(services: seq<Service>, i: nat, j: nat, req: Request)
    requires UniqueRoutes(services) && i < j < |services|
    requires Serves(services[i], req) && Serves(services[j], req)
    ensures |services[i].prefix| != |services[j].prefix|
  {
    hide RouteHosts;
    SharedHost(services[i], services[j], req);
    assert services[i].prefix == req.path[..|services[i].prefix|];
    assert services[j].prefix == req.path[..|services[j].prefix|];
  }

  predicate LongestFirst(services: seq<Service>) {
    forall i, j | 0 <= i < j < |services| :: |services[i].prefix| >= |services[j].prefix|
  }

  lemma {:induction false} FirstIsLongest(services: seq<Service>, req: Request, draw: int)
    requires LongestFirst(services)
    ensures match FirstDecision(services, req, draw)
            case None => forall s | s in services :: Decision(s, req, draw).None?
            case Some(b) => exists s | s in services ::
              && Decision(s, req, draw) == Some(b)
              && forall t | t in services && Decision(t, req, draw).Some? :: |t.prefix| <= |s.prefix|
    decreases |services|
  {
    hide Decision;
    if services != [] {
      var s, rest := services[0], services[1..];
      assert forall t | t in services :: t == s || t in rest;
      if Decision(s, req, draw).Some? {
        forall t | t in services ensures |t.prefix| <= |s.prefix| {
          var k :| 0 <= k < |services| && services[k] == t;
        }
      } else {
        assert forall t | t in rest :: t in services;
        FirstIsLongest(rest, req, draw);
      }
    }
  }

  // Only one backend is right for a request.
  lemma RouteIsUnique(services: seq<Service>, req: Request, draw: int, a: string, b: string)
    requires UniqueRoutes(services)
    requires Routes(multiset(services), req, draw, a) && Routes(multiset(services), req, draw, b)
    ensures a == b
  {
    hide Choose, UniqueRoutes, Serves;
    if exists s | s in multiset(services) :: Decision(s, req, draw).Some? {
      var s :| s in multiset(services) && Decision(s, req, draw) == Some(a)
        && forall t | t in multiset(services) && Decision(t, req, draw).Some? :: |t.prefix| <= |s.prefix|;
      var t :| t in multiset(services) && Decision(t, req, draw) == Some(b)
        && forall u | u in multiset(services) && Decision(u, req, draw).Some? :: |u.prefix| <= |t.prefix|;
      var i :| 0 <= i < |services| && services[i] == s;
      var j :| 0 <= j < |services| && services[j] == t;
      if i < j { ServersDiffer(services, i, j, req); }
      if j < i { ServersDiffer(services, j, i, req); }
    }
  }

  lemma {:induction false} NamedUnderPermutation(a: seq<Service>, b: seq<Service>)
    requires multiset(a) == multiset(b) && WellNamed(a)
    ensures WellNamed(b)
  {
    hide UuidLike, Consistent, Readable;
    forall s | s in b ensures s in a { SameElements(a, b, s); }
    forall i, j | 0 <= i < j < |b| ensures b[i].id != b[j].id { Elsewhere(a, b, i, j); }
  }

  lemma SortedIsLongestFirst(order: seq<Service>)
    requires SortedBy(order, Before)
    ensures LongestFirst(order)
  {
    hide HostKey, LexLeq;
    forall i, j | 0 <= i < j < |order| ensures |order[i].prefix| >= |order[j].prefix| {
      assert Before(order[i], order[j]);
    }
  }

  // ---------------------------------------------------------------- compiler correctness

  // Evaluated with one draw per request, the section compiled from any longest-first order of a
  // snapshot sends every request where the routing rule does; and if no two services share a
  // route, the rule allows nothing else.
  lemma CompilerIsCorrect(
    snapshot: seq<Service>, order: seq<Service>, req: Request, draws: nat -> int, draw: int, backend: string)
    requires WellNamed(snapshot) && NoSentinel(req) && OneDraw(draws, draw)
    requires multiset(order) == multiset(snapshot) && LongestFirst(order)
    ensures Evaluate(Compiled(order), req, draws, DEFAULT_BACKEND) == backend ==>
              Routes(multiset(snapshot), req, draw, backend)
    ensures UniqueRoutes(snapshot) && Routes(multiset(snapshot), req, draw, backend) ==>
              Evaluate(Compiled(order), req, draws, DEFAULT_BACKEND) == backend
  {
    NamedUnderPermutation(snapshot, order);
    EvaluatesInOrder(order, req, draws, draw);
    FirstIsLongest(order, req, draw);
    var right := Evaluate(Compiled(order), req, draws, DEFAULT_BACKEND);
    hide Evaluate, Compiled, Decision, UniqueRoutes, NoSentinel, FirstDecision, WellNamed;
    assert Routes(multiset(snapshot), req, draw, right) by {
      assert forall s :: s in order <==> s in multiset(snapshot);
    }
    if UniqueRoutes(snapshot) && Routes(multiset(snapshot), req, draw, backend) {
      RouteIsUnique(snapshot, req, draw, right, backend);
    }
  }

  // So the order of equal-length prefixes, and the order of the snapshot, do not matter.
  lemma OrderDoesNotMatter(
    a: seq<Service>, b: seq<Service>, req: Request, draws: nat -> int, draw: int)
    requires GoodSnapshot(a) && NoSentinel(req) && OneDraw(draws, draw)
    requires multiset(a) == multiset(b) && LongestFirst(a) && LongestFirst(b)
    ensures Evaluate(Compiled(a), req, draws, DEFAULT_BACKEND) == Evaluate(Compiled(b), req, draws, DEFAULT_BACKEND)
  {
    assert WellNamed(a) && UniqueRoutes(a);
    hide *;
    var backend := Evaluate(Compiled(a), req, draws, DEFAULT_BACKEND);
    CompilerIsCorrect(a, a, req, draws, draw, backend);
    CompilerIsCorrect(a, b, req, draws, draw, backend);
  }

  // No service has the default backend for its own.
  predicate OwnBackends(services: seq<Service>) {
    forall s | s in services :: s.Live() != DEFAULT_BACKEND && s.Candidate() != DEFAULT_BACKEND
  }

  // A request served by a service with a live backend ends at that service or, if no two services
  // share a route, at one with a longer prefix, and never at the default.
  lemma LiveServiceNeverFallsThrough(
    snapshot: seq<Service>, order: seq<Service>, req: Request, draws: nat -> int, draw: int, s: Service)
    requires GoodSnapshot(snapshot) && OwnBackends(snapshot) && NoSentinel(req) && OneDraw(draws, draw)
    requires multiset(order) == multiset(snapshot) && LongestFirst(order)
    requires s in snapshot && Serves(s, req) && s.Live() != ""
    ensures Evaluate(Compiled(order), req, draws, DEFAULT_BACKEND) != DEFAULT_BACKEND
    ensures exists t | t in snapshot :: (t == s || |t.prefix| > |s.prefix|)
              && Decision(t, req, draw) == Some(Evaluate(Compiled(order), req, draws, DEFAULT_BACKEND))
  {
    var backend := Evaluate(Compiled(order), req, draws, DEFAULT_BACKEND);
    CompilerIsCorrect(snapshot, order, req, draws, draw, backend);
    LiveServiceDecides(s, req, draw);
    hide Evaluate, Compiled, Decision, UniqueRoutes, WellNamed, OwnBackends, Serves, Routes, NoSentinel, LongestFirst;
    LongestDecides(snapshot, s, req, draw, backend);
    var t :| t in snapshot && |t.prefix| >= |s.prefix| && Decision(t, req, draw) == Some(backend);
    DecidesIfServes(t, req, draw, backend);
    if t != s { OtherServer(snapshot, s, t, req); }
    NotTheDefault(snapshot, t, req, draw, backend);
  }

  lemma OtherServer(snapshot: seq<Service>, s: Service, t: Service, req: Request)
    requires UniqueRoutes(snapshot) && s in snapshot && t in snapshot && s != t && Serves(s, req) && Serves(t, req)
    ensures |s.prefix| != |t.prefix|
  {
    hide UniqueRoutes, Serves;
    var i :| 0 <= i < |snapshot| && snapshot[i] == s;
    var j :| 0 <= j < |snapshot| && snapshot[j] == t;
    if i < j { ServersDiffer(snapshot, i, j, req); } else { ServersDiffer(snapshot, j, i, req); }
  }

  lemma DecidesIfServes(t: Service, req: Request, draw: int, backend: string)
    requires Decision(t, req, draw) == Some(backend)
    ensures Serves(t, req)
    ensures backend == NORMALIZE_BACKEND || backend == t.Live() || backend == t.Candidate()
  {
    hide Serves, Lower, NormalizePath, BetaPath, Trim, StickyCookieName, Clamp;
  }

  lemma NotTheDefault(snapshot: seq<Service>, t: Service, req: Request, draw: int, backend: string)
    requires OwnBackends(snapshot) && t in snapshot && Decision(t, req, draw) == Some(backend)
    ensures backend != DEFAULT_BACKEND
  {
    DecidesIfServes(t, req, draw, backend);
    hide Decision;
    assert NORMALIZE_BACKEND[3] != DEFAULT_BACKEND[3];
  }

  lemma LiveServiceDecides(s: Service, req: Request, draw: int)
    requires Serves(s, req) && s.Live() != ""
    ensures Decision(s, req, draw).Some?
  {
  }

  lemma LongestDecides(snapshot: seq<Service>, s: Service, req: Request, draw: int, backend: string)
    requires Routes(multiset(snapshot), req, draw, backend) && s in snapshot && Decision(s, req, draw).Some?
    ensures exists t | t in snapshot :: |t.prefix| >= |s.prefix| && Decision(t, req, draw) == Some(backend)
  {
    hide Decision;
    assert s in multiset(snapshot);
    var t :| t in multiset(snapshot) && Decision(t, req, draw) == Some(backend)
      && forall u | u in multiset(snapshot) && Decision(u, req, draw).Some? :: |u.prefix| <= |t.prefix|;
    assert t in snapshot;
  }

  // No service with a longer prefix serves the request.
  predicate LongestMatch(snapshot: seq<Service>, s: Service, req: Request) {
    s in snapshot && forall t | t in snapshot && Serves(t, req) :: |t.prefix| <= |s.prefix|
  }

  lemma LongestRoutes(snapshot: seq<Service>, s: Service, req: Request, draw: int, backend: string)
    requires LongestMatch(snapshot, s, req) && Decision(s, req, draw) == Some(backend)
    ensures Routes(multiset(snapshot), req, draw, backend)
  {
    hide Choose, Serves;
    assert s in multiset(snapshot);
    assert forall t | t in multiset(snapshot) :: t in snapshot;
  }

  // ---------------------------------------------------------------- a draw per rule

  lemma FirstDrawnStep(s: Service, rest: seq<Service>, req: Request, draws: nat -> int, n: nat)
    ensures FirstDrawn([s] + rest, req, draws, n) ==
            Or(Drawn(s, req, draws, n), FirstDrawn(rest, req, draws, n + |ServiceRules(s)|))
  {
    hide Drawn, ServiceRules;
    assert ([s] + rest)[1..] == rest;
  }

  lemma RuleCount(services: seq<Service>)
    requires services != []
    ensures |RulesOf(services)| == |ServiceRules(services[0])| + |RulesOf(services[1..])|
  {
    hide ServiceRules;
  }

  lemma {:induction false} NoneBefore(before: seq<Service>, rest: seq<Service>, req: Request, draws: nat -> int, n: nat)
    requires forall s | s in before :: Decision(s, req, 0).None? && Consistent(s)
    ensures FirstDrawn(before + rest, req, draws, n) == FirstDrawn(rest, req, draws, n + |RulesOf(before)|)
    decreases |before|
  {
    hide Decision, ServiceRules, Consistent, Drawn, FirstDrawn, RulesOf;
    if before == [] {
      assert before + rest == rest;
      NothingCompiled(before);
      assert before[..0] == before;
    } else {
      var s := before[0];
      assert before + rest == [s] + (before[1..] + rest);
      UndecidedIsUndrawn(s, req, draws, n);
      FirstDrawnStep(s, before[1..] + rest, req, draws, n);
      RuleCount(before);
      NoneBefore(before[1..], rest, req, draws, n + |ServiceRules(s)|);
    }
  }

  lemma UndecidedIsUndrawn(s: Service, req: Request, draws: nat -> int, n: nat)
    requires Decision(s, req, 0).None? && Consistent(s)
    ensures Drawn(s, req, draws, n).None?
  {
    OutcomeIsDecision(s, req, 0);
    hide Decision, ViewOf, StickyOutcome;
  }

  // What becomes of a request that a splitting service passes.
  function AfterSplit(s: Service, after: seq<Service>, req: Request, draws: nat -> int, n: nat): Option<string> {
    if draws(n + 6) < s.Percent() then Some(s.Candidate())
    else if draws(n + 7) >= s.Percent() then Some(s.Live())
    else FirstDrawn(after, req, draws, n + 8)
  }

  lemma SplitAmong(before: seq<Service>, s: Service, after: seq<Service>, req: Request, draws: nat -> int)
    requires (forall t | t in before :: Decision(t, req, 0).None? && Consistent(t)) && Consistent(s)
    requires Splits(s, ViewOf(s, req))
    ensures FirstDrawn(before + ([s] + after), req, draws, 0) == AfterSplit(s, after, req, draws, |RulesOf(before)|)
  {
    hide Decision, ViewOf, Splits, Consistent, RulesOf, StickyRules, SplitRules, FirstDrawn;
    NoneBefore(before, [s] + after, req, draws, 0);
    SplitServiceIsSticky(s, ViewOf(s, req));
    FirstDrawnStep(s, after, req, draws, |RulesOf(before)|);
    assert |ServiceRules(s)| == 8;
  }

  // If every rule draws its own number, a request to a service that splits its traffic and that no
  // service before it in the order decides passes it exactly when the two draws of the split
  // disagree that way round; it then goes where a later service wants it, and to the default
  // backend if none does.
  lemma TwoDrawsCanFallThrough(
    before: seq<Service>, s: Service, after: seq<Service>, req: Request, draws: nat -> int)
    requires WellNamed(before + ([s] + after)) && NoSentinel(req)
    requires forall t | t in before :: Decision(t, req, 0).None?
    requires Splits(s, ViewOf(s, req))
    ensures Evaluate(Compiled(before + ([s] + after)), req, draws, DEFAULT_BACKEND) ==
            OrDefault(AfterSplit(s, after, req, draws, |RulesOf(before)|))
    ensures var n := |RulesOf(before)|;
      OwnBackends(before + ([s] + after)) ==>
        (Evaluate(Compiled(before + ([s] + after)), req, draws, DEFAULT_BACKEND) == DEFAULT_BACKEND <==>
           draws(n + 6) >= s.Percent() && draws(n + 7) < s.Percent() && FirstDrawn(after, req, draws, n + 8).None?)
  {
    var order := before + ([s] + after);
    forall t | t in before || t == s ensures Consistent(t) { assert t in order; }
    EvaluatesWithDraws(order, req, draws);
    if OwnBackends(order) {
      forall t | t in after ensures t in order { assert t in [s] + after; }
      assert s in order;
      DrawnIsOwn(after, req, draws, |RulesOf(before)| + 8);
    }
    hide Evaluate, Compiled, WellNamed, OwnBackends, Splits, ViewOf, Decision, RulesOf, FirstDrawn;
    SplitAmong(before, s, after, req, draws);
  }

  lemma {:induction false} DrawnIsOwn(services: seq<Service>, req: Request, draws: nat -> int, n: nat)
    requires OwnBackends(services)
    ensures FirstDrawn(services, req, draws, n) != Some(DEFAULT_BACKEND)
    decreases |services|
  {
    hide Decision, ViewOf, Splits, ServiceRules, Trim;
    if services != [] {
      var s := services[0];
      if Decision(s, req, 0).Some? { NotTheDefault(services, s, req, 0, Decision(s, req, 0).value); }
      DrawnIsOwn(services[1..], req, draws, n + |ServiceRules(s)|);
    }
  }

  // ---------------------------------------------------------------- the compiler as it runs

  lemma BeforeIsTotal()
    ensures TotalOrder(Before)
  {
    hide HostKey, Precedes;
    forall a: Service, b: Service ensures Before(a, b) || Before(b, a) {
      PrecedesOrders(|a.prefix|, HostKey(a), a.key, |b.prefix|, HostKey(b), b.key, |b.prefix|, HostKey(b), b.key);
    }
    forall a: Service, b: Service, c: Service | Before(a, b) && Before(b, c) ensures Before(a, c) {
      PrecedesOrders(|a.prefix|, HostKey(a), a.key, |b.prefix|, HostKey(b), b.key, |c.prefix|, HostKey(c), c.key);
    }
  }

  lemma PrecedesOrders(n1: nat, h1: string, k1: string, n2: nat, h2: string, k2: string, n3: nat, h3: string,
      k3: string)
    ensures Precedes(n1, h1, k1, n2, h2, k2) || Precedes(n2, h2, k2, n1, h1, k1)
    ensures Precedes(n1, h1, k1, n2, h2, k2) && Precedes(n2, h2, k2, n3, h3, k3) ==> Precedes(n1, h1, k1, n3, h3, k3)
  {
    LexTotal(h1, h2);
    LexTotal(k1, k2);
    LexTotal(h2, h3);
    LexTotal(h1, h3);
    if LexLeq(h1, h2) && LexLeq(h2, h3) { LexTransitive(h1, h2, h3); }
    if LexLeq(k1, k2) && LexLeq(k2, k3) { LexTransitive(k1, k2, k3); }
  }

  lemma {:induction false} OneMoreService(services: seq<Service>, i: nat)
    requires i < |services|
    ensures AclsOf(services[..i + 1]) == AclsOf(services[..i]) + ServiceAcls(services[i])
    ensures RulesOf(services[..i + 1]) == RulesOf(services[..i]) + ServiceRules(services[i])
    decreases |services|
  {
    hide ServiceAcls, ServiceRules;
    var upto := services[..i + 1];
    assert upto[1..] == services[1..][..i];
    if i == 0 {
      assert AclsOf([]) == [] && RulesOf([]) == [];
      assert upto[1..] == [] && services[..0] == [];
    } else {
      OneMoreService(services[1..], i - 1);
      assert services[..i][1..] == services[1..][..i - 1];
      assert services[1..][..i - 1 + 1] == upto[1..];
    }
  }

  // The hosts of a service, collected as the frontend needs them: each one that normalizes to
  // something, once.
  method ProxyRouteHosts(s: Service) returns (hosts: seq<string>)
    ensures hosts == RouteHosts(s)
    ensures forall h :: h in hosts <==>
        h != "" && exists v | v in [s.routeHost] + s.routeHosts :: NormalizeRouteHost(v) == h
  {
    hide NormalizeRouteHost;
    hosts := CollectHosts([s.routeHost] + s.routeHosts);
    forall h ensures h in hosts <==>
        h != "" && exists v | v in [s.routeHost] + s.routeHosts :: NormalizeRouteHost(v) == h {
      AddedMeaning([], [s.routeHost] + s.routeHosts, h);
    }
  }

  method AddRule(rules: seq<Rule>, backend: string, test: seq<Literal>) returns (r: seq<Rule>)
    ensures r == rules + RuleFor(backend, test)
  {
    r := rules;
    if backend != "" { r := r + [Rule(backend, test)]; }
  }

  method AddStickyRules(rules: seq<Rule>, s: Service) returns (r: seq<Rule>)
    ensures r == rules + StickyRules(s)
  {
    hide Base, NoQuery, AclName, Trim, Clamp, RuleFor;
    var live, candidate := s.Live(), s.Candidate();
    r := rules;
    if s.LiveRelease() != "" { r := r + [Rule(NORMALIZE_BACKEND, Base(s) + [If(s, OnNormalize)])]; }
    r := r + [Rule(NORMALIZE_BACKEND, Base(s) + [If(s, OnBeta)])];
    r := AddRule(r, candidate, Base(s) + [If(s, QueryCandidate)]);
    r := AddRule(r, live, Base(s) + [If(s, QueryLive)]);
    if s.Percent() > 0 { r := AddRule(r, candidate, Base(s) + NoQuery(s) + [If(s, CookieCandidate)]); }
    r := AddRule(r, live, Base(s) + NoQuery(s) + [If(s, CookieLive)]);
  }

  method AddSplitRules(rules: seq<Rule>, s: Service) returns (r: seq<Rule>)
    ensures r == rules + SplitRules(s)
  {
    hide Base, NoQuery, AclName, Trim, Clamp, NoOverride;
    var live, candidate, percent := s.Live(), s.Candidate(), s.Percent();
    r := rules;
    if live == "" && candidate == "" { return; }
    if live == "" {
      r := AddRule(r, candidate, NoOverride(s));
    } else if candidate == "" {
      r := AddRule(r, live, NoOverride(s));
    } else if percent <= 0 {
      if s.CandidateRelease() != "" { r := AddRule(r, candidate, Base(s) + NoQuery(s) + [If(s, CookieCandidate)]); }
      r := AddRule(r, live, NoOverride(s));
    } else if percent >= 100 {
      r := AddRule(r, candidate, NoOverride(s));
    } else {
      r := AddRule(r, candidate, NoOverride(s) + [If(s, Split)]);
      r := AddRule(r, live, NoOverride(s) + [Unless(s, Split)]);
    }
  }

  method CompileInOrder(order: seq<Service>) returns (section: Section)
    ensures section == Compiled(order)
  {
    hide AclsOf, RulesOf, ServiceAcls, StickyRules, SplitRules;
    var acls, rules := [STATIC_ASSET_ACL], [];
    assert AclsOf(order[..0]) == [] && RulesOf(order[..0]) == [] by { NothingCompiled(order); }
    for i := 0 to |order|
      invariant acls == [STATIC_ASSET_ACL] + AclsOf(order[..i])
      invariant rules == RulesOf(order[..i])
    {
      OneMoreService(order, i);
      acls := acls + ServiceAcls(order[i]);
      rules := AddStickyRules(rules, order[i]);
      rules := AddSplitRules(rules, order[i]);
    }
    assert order[..|order|] == order;
    section := Section(acls, rules);
  }

  lemma NothingCompiled(order: seq<Service>)
    ensures AclsOf(order[..0]) == [] && RulesOf(order[..0]) == []
  {
  }

  // Compiles a snapshot; the section routes as specified.
  method FrontendSection(services: seq<Service>) returns (section: Section)
    ensures exists order ::
      multiset(order) == multiset(services) && SortedBy(order, Before) && section == Compiled(order)
    ensures WellNamed(services) ==>
              forall req, draws, draw | NoSentinel(req) && OneDraw(draws, draw) ::
                Routes(multiset(services), req, draw, Evaluate(section, req, draws, DEFAULT_BACKEND))
  {
    hide *;
    BeforeIsTotal();
    var order := Sort(services, Before);
    section := CompileInOrder(order);
    SortedIsLongestFirst(order);
    if WellNamed(services) {
      forall req, draws, draw | NoSentinel(req) && OneDraw(draws, draw)
        ensures Routes(multiset(services), req, draw, Evaluate(section, req, draws, DEFAULT_BACKEND))
      {
        CompilerIsCorrect(services, order, req, draws, draw, Evaluate(section, req, draws, DEFAULT_BACKEND));
      }
    }
  }
}
