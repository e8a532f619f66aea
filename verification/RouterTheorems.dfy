/** What the emitted rules decide, service by service and as a whole. */
module RouterTheorems {
  import opened Wrappers
  import opened Text
  import opened RouteNames
  import opened Router
  import opened RouterProof

  // ---------------------------------------------------------------- lists of literals and rules

  lemma PassesBoth(acls: seq<Acl>, a: seq<Literal>, b: seq<Literal>, req: Request, draw: int)
    ensures Passes(acls, a + b, req, draw) <==> Passes(acls, a, req, draw) && Passes(acls, b, req, draw)
  {
    hide Holds;
    var t := a + b;
    assert forall i | 0 <= i < |a| :: t[i] == a[i];
    assert forall i | 0 <= i < |b| :: t[|a| + i] == b[i];
    if Passes(acls, a, req, draw) && Passes(acls, b, req, draw) {
      forall i | 0 <= i < |t| ensures Holds(acls, t[i].acl, req, draw) == t[i].positive {
        if i >= |a| { assert t[i] == b[i - |a|]; }
      }
    }
  }

  lemma PassesOne(acls: seq<Acl>, s: Service, x: Suffix, positive: bool, req: Request, draw: int)
    ensures Passes(acls, [Literal(positive, AclName(s.id, x))], req, draw) <==>
        Sees(acls, s.id, x, req, draw) == positive
  {
    hide Holds;
    hide AclName;
    assert [Literal(positive, AclName(s.id, x))][0] == Literal(positive, AclName(s.id, x));
  }

  lemma {:induction false} RulesInTurn(
    acls: seq<Acl>, a: seq<Rule>, b: seq<Rule>, req: Request, draws: nat -> int, n: nat)
    ensures var first := FirstRule(acls, a, req, draws, n);
      FirstRule(acls, a + b, req, draws, n) ==
        if first.Some? then first else FirstRule(acls, b, req, draws, n + |a|)
    decreases |a|
  {
    hide Passes;
    if a == [] {
      assert a + b == b;
    } else {
      assert (a + b)[0] == a[0] && (a + b)[1..] == a[1..] + b;
      RulesInTurn(acls, a[1..], b, req, draws, n + 1);
    }
  }

  lemma OneRule(acls: seq<Acl>, backend: string, test: seq<Literal>, req: Request, draws: nat -> int, n: nat)
    ensures FirstRule(acls, [Rule(backend, test)], req, draws, n) ==
            if Passes(acls, test, req, draws(n)) then Some(backend) else None
    ensures FirstRule(acls, RuleFor(backend, test), req, draws, n) ==
            if backend != "" && Passes(acls, test, req, draws(n)) then Some(backend) else None
  {
    hide Passes;
    var r := [Rule(backend, test)];
    assert r[1..] == [];
    assert FirstRule(acls, [], req, draws, n + 1) == None;
  }

  // ---------------------------------------------------------------- tests of a service

  lemma BaseTest(acls: seq<Acl>, s: Service, req: Request, v: View, draw: int)
    requires Tells(acls, s, req, v)
    ensures Passes(acls, Base(s), req, draw) <==> v.serves
  {
    hide Holds, AclName, Passes, HasSplit;
    assert Base(s) == [If(s, OnHost)] + [If(s, OnPath)];
    PassesOne(acls, s, OnHost, true, req, draw);
    PassesOne(acls, s, OnPath, true, req, draw);
    PassesBoth(acls, [If(s, OnHost)], [If(s, OnPath)], req, draw);
  }

  lemma BaseAnd(acls: seq<Acl>, s: Service, x: Suffix, req: Request, v: View, draw: int)
    requires Tells(acls, s, req, v)
    ensures Passes(acls, Base(s) + [If(s, x)], req, draw) <==> v.serves && Sees(acls, s.id, x, req, draw)
  {
    hide Holds, AclName, Passes, Tells;
    BaseTest(acls, s, req, v, draw);
    PassesOne(acls, s, x, true, req, draw);
    PassesBoth(acls, Base(s), [If(s, x)], req, draw);
  }

  lemma NoQueryTest(acls: seq<Acl>, s: Service, req: Request, v: View, draw: int)
    requires Tells(acls, s, req, v)
    ensures Passes(acls, NoQuery(s), req, draw) <==> !v.queryLive && !v.queryCandidate
  {
    hide Holds, AclName, Passes, HasSplit;
    assert Sees(acls, s.id, OnHost, req, draw) || !Sees(acls, s.id, OnHost, req, draw);
    assert NoQuery(s) == [Unless(s, QueryLive)] + [Unless(s, QueryCandidate)];
    PassesOne(acls, s, QueryLive, false, req, draw);
    PassesOne(acls, s, QueryCandidate, false, req, draw);
    PassesBoth(acls, [Unless(s, QueryLive)], [Unless(s, QueryCandidate)], req, draw);
  }

  lemma CookieTest(acls: seq<Acl>, s: Service, x: Suffix, req: Request, v: View, draw: int)
    requires Tells(acls, s, req, v)
    ensures Passes(acls, Base(s) + NoQuery(s) + [If(s, x)], req, draw) <==>
            v.serves && !v.queryLive && !v.queryCandidate && Sees(acls, s.id, x, req, draw)
  {
    hide Holds, AclName, Passes, Tells;
    BaseTest(acls, s, req, v, draw);
    NoQueryTest(acls, s, req, v, draw);
    PassesOne(acls, s, x, true, req, draw);
    PassesBoth(acls, Base(s), NoQuery(s), req, draw);
    PassesBoth(acls, Base(s) + NoQuery(s), [If(s, x)], req, draw);
  }

  predicate NotOverridden(s: Service, v: View) {
    && v.serves && !v.atNormalize && !v.atBeta && !v.queryLive && !v.queryCandidate && !v.cookieLive
    && (s.Percent() > 0 ==> !v.cookieCandidate)
  }

  lemma Unlesses(acls: seq<Acl>, s: Service, req: Request, v: View, draw: int)
    requires Tells(acls, s, req, v)
    ensures Passes(acls, [Unless(s, OnNormalize), Unless(s, OnBeta)], req, draw) <==> !v.atNormalize && !v.atBeta
    ensures Passes(acls, [Unless(s, CookieLive)], req, draw) <==> !v.cookieLive
    ensures Passes(acls, [Unless(s, CookieCandidate)], req, draw) <==> !v.cookieCandidate
  {
    hide Holds, AclName, Passes, HasSplit;
    assert Sees(acls, s.id, OnHost, req, draw) || !Sees(acls, s.id, OnHost, req, draw);
    assert [Unless(s, OnNormalize), Unless(s, OnBeta)] == [Unless(s, OnNormalize)] + [Unless(s, OnBeta)];
    PassesOne(acls, s, OnNormalize, false, req, draw);
    PassesOne(acls, s, OnBeta, false, req, draw);
    PassesBoth(acls, [Unless(s, OnNormalize)], [Unless(s, OnBeta)], req, draw);
    PassesOne(acls, s, CookieLive, false, req, draw);
    PassesOne(acls, s, CookieCandidate, false, req, draw);
  }

  lemma NoOverrideTest(acls: seq<Acl>, s: Service, req: Request, v: View, draw: int)
    requires Tells(acls, s, req, v)
    ensures Passes(acls, NoOverride(s), req, draw) <==> NotOverridden(s, v)
  {
    hide Holds, AclName, Tells, Base, NoQuery;
    BaseTest(acls, s, req, v, draw);
    NoQueryTest(acls, s, req, v, draw);
    Unlesses(acls, s, req, v, draw);
    var sticky := [Unless(s, OnNormalize), Unless(s, OnBeta)];
    var last := if s.Percent() > 0 then [Unless(s, CookieCandidate)] else [];
    assert Passes(acls, [], req, draw);
    hide Passes;
    PassesBoth(acls, Base(s), sticky, req, draw);
    PassesBoth(acls, Base(s) + sticky, NoQuery(s), req, draw);
    PassesBoth(acls, Base(s) + sticky + NoQuery(s), [Unless(s, CookieLive)], req, draw);
    PassesBoth(acls, Base(s) + sticky + NoQuery(s) + [Unless(s, CookieLive)], last, req, draw);
  }

  // ---------------------------------------------------------------- rules of a service

  // The first of two outcomes.
  function Or(a: Option<string>, b: Option<string>): Option<string> {
    if a.Some? then a else b
  }

  function When(test: bool, backend: string): Option<string> {
    if test && backend != "" then Some(backend) else None
  }

  predicate Quiet(v: View) {
    v.serves && !v.queryLive && !v.queryCandidate
  }

  function StickyOutcome(s: Service, v: View): Option<string> {
    Or(Or(Or(Or(Or(
      When(s.LiveRelease() != "" && v.serves && v.atNormalize, NORMALIZE_BACKEND),
      When(v.serves && v.atBeta, NORMALIZE_BACKEND)),
      When(v.serves && v.queryCandidate, s.Candidate())),
      When(v.serves && v.queryLive, s.Live())),
      When(s.Percent() > 0 && Quiet(v) && v.cookieCandidate, s.Candidate())),
      When(Quiet(v) && v.cookieLive, s.Live()))
  }

  function SplitOutcome(s: Service, v: View, below: bool): Option<string> {
    if s.Live() == "" then When(NotOverridden(s, v), s.Candidate())
    else if s.Candidate() == "" then When(NotOverridden(s, v), s.Live())
    else if s.Percent() <= 0 then
      Or(When(s.CandidateRelease() != "" && Quiet(v) && v.cookieCandidate, s.Candidate()),
         When(NotOverridden(s, v), s.Live()))
    else if s.Percent() >= 100 then When(NotOverridden(s, v), s.Candidate())
    else Or(When(NotOverridden(s, v) && below, s.Candidate()), When(NotOverridden(s, v) && !below, s.Live()))
  }

  // A rule, or nothing, tests what `test` says.
  ghost predicate Yields(acls: seq<Acl>, rules: seq<Rule>, req: Request, draws: nat -> int, outcome: Option<string>) {
    forall n: nat :: FirstRule(acls, rules, req, draws, n) == outcome
  }

  lemma YieldsInTurn(acls: seq<Acl>, a: seq<Rule>, b: seq<Rule>, req: Request, draws: nat -> int, x: Option<string>,
      y: Option<string>)
    requires Yields(acls, a, req, draws, x) && Yields(acls, b, req, draws, y)
    ensures Yields(acls, a + b, req, draws, Or(x, y))
  {
    hide FirstRule;
    forall n: nat ensures FirstRule(acls, a + b, req, draws, n) == Or(x, y) {
      assert FirstRule(acls, b, req, draws, n + |a|) == y;
      RulesInTurn(acls, a, b, req, draws, n);
    }
  }

  lemma YieldsRule(acls: seq<Acl>, backend: string, test: seq<Literal>, req: Request, draws: nat -> int, passes: bool)
    requires forall n: nat :: Passes(acls, test, req, draws(n)) <==> passes
    ensures Yields(acls, RuleFor(backend, test), req, draws, When(passes, backend))
    ensures backend != "" ==> Yields(acls, [Rule(backend, test)], req, draws, When(passes, backend))
  {
    hide Passes, FirstRule;
    forall n: nat
      ensures FirstRule(acls, RuleFor(backend, test), req, draws, n) == When(passes, backend)
      ensures backend != "" ==> FirstRule(acls, [Rule(backend, test)], req, draws, n) == When(passes, backend)
    {
      OneRule(acls, backend, test, req, draws, n);
    }
  }

  lemma YieldsNothing(acls: seq<Acl>, req: Request, draws: nat -> int)
    ensures Yields(acls, [], req, draws, None)
  {
  }

  lemma IfRule(acls: seq<Acl>, s: Service, x: Suffix, backend: string, req: Request, draws: nat -> int, v: View,
      holds: bool)
    requires Tells(acls, s, req, v) && forall n: nat :: Sees(acls, s.id, x, req, draws(n)) <==> holds
    ensures var test := Base(s) + [If(s, x)];
      && Yields(acls, RuleFor(backend, test), req, draws, When(v.serves && holds, backend))
      && (backend != "" ==> Yields(acls, [Rule(backend, test)], req, draws, When(v.serves && holds, backend)))
  {
    hide Sees, Passes, Base, Tells, FirstRule;
    forall n: nat { BaseAnd(acls, s, x, req, v, draws(n)); }
    YieldsRule(acls, backend, Base(s) + [If(s, x)], req, draws, v.serves && holds);
  }

  lemma CookieRule(acls: seq<Acl>, s: Service, x: Suffix, backend: string, req: Request, draws: nat -> int, v: View,
      holds: bool)
    requires Tells(acls, s, req, v) && forall n: nat :: Sees(acls, s.id, x, req, draws(n)) <==> holds
    ensures Yields(acls, RuleFor(backend, Base(s) + NoQuery(s) + [If(s, x)]), req, draws,
        When(Quiet(v) && holds, backend))
  {
    hide Sees, Passes, Base, NoQuery, Tells, FirstRule;
    forall n: nat { CookieTest(acls, s, x, req, v, draws(n)); }
    YieldsRule(acls, backend, Base(s) + NoQuery(s) + [If(s, x)], req, draws, Quiet(v) && holds);
  }

  lemma SeesView(acls: seq<Acl>, s: Service, req: Request, draws: nat -> int, v: View)
    requires Tells(acls, s, req, v)
    ensures forall n: nat :: Sees(acls, s.id, OnNormalize, req, draws(n)) <==> v.atNormalize
    ensures forall n: nat :: Sees(acls, s.id, OnBeta, req, draws(n)) <==> v.atBeta
    ensures forall n: nat :: Sees(acls, s.id, QueryLive, req, draws(n)) <==> v.queryLive
    ensures forall n: nat :: Sees(acls, s.id, QueryCandidate, req, draws(n)) <==> v.queryCandidate
    ensures forall n: nat :: Sees(acls, s.id, CookieLive, req, draws(n)) <==> v.cookieLive
    ensures forall n: nat :: Sees(acls, s.id, CookieCandidate, req, draws(n)) <==> v.cookieCandidate
  {
    hide Sees;
    forall n: nat
      ensures Sees(acls, s.id, OnNormalize, req, draws(n)) <==> v.atNormalize
      ensures Sees(acls, s.id, OnBeta, req, draws(n)) <==> v.atBeta
      ensures Sees(acls, s.id, QueryLive, req, draws(n)) <==> v.queryLive
      ensures Sees(acls, s.id, QueryCandidate, req, draws(n)) <==> v.queryCandidate
      ensures Sees(acls, s.id, CookieLive, req, draws(n)) <==> v.cookieLive
      ensures Sees(acls, s.id, CookieCandidate, req, draws(n)) <==> v.cookieCandidate
    {
      assert Sees(acls, s.id, OnHost, req, draws(n)) || !Sees(acls, s.id, OnHost, req, draws(n));
    }
  }

  // The sticky rules yield their outcome whatever is drawn.
  lemma StickyRulesYield(acls: seq<Acl>, s: Service, req: Request, draws: nat -> int, v: View)
    requires Tells(acls, s, req, v)
    ensures Yields(acls, StickyRules(s), req, draws, StickyOutcome(s, v))
  {
    hide Tells, Sees, Base, NoQuery, Yields;
    SeesView(acls, s, req, draws, v);
    YieldsNothing(acls, req, draws);
    IfRule(acls, s, OnNormalize, NORMALIZE_BACKEND, req, draws, v, v.atNormalize);
    IfRule(acls, s, OnBeta, NORMALIZE_BACKEND, req, draws, v, v.atBeta);
    IfRule(acls, s, QueryCandidate, s.Candidate(), req, draws, v, v.queryCandidate);
    IfRule(acls, s, QueryLive, s.Live(), req, draws, v, v.queryLive);
    CookieRule(acls, s, CookieCandidate, s.Candidate(), req, draws, v, v.cookieCandidate);
    CookieRule(acls, s, CookieLive, s.Live(), req, draws, v, v.cookieLive);
    hide RuleFor;
    var r1 := if s.LiveRelease() != "" then [Rule(NORMALIZE_BACKEND, Base(s) + [If(s, OnNormalize)])] else [];
    var r2 := [Rule(NORMALIZE_BACKEND, Base(s) + [If(s, OnBeta)])];
    var r3 := RuleFor(s.Candidate(), Base(s) + [If(s, QueryCandidate)]);
    var r4 := RuleFor(s.Live(), Base(s) + [If(s, QueryLive)]);
    var r5 := if s.Percent() > 0 then RuleFor(s.Candidate(), Base(s) + NoQuery(s) + [If(s, CookieCandidate)]) else [];
    var r6 := RuleFor(s.Live(), Base(s) + NoQuery(s) + [If(s, CookieLive)]);
    var o1 := When(s.LiveRelease() != "" && v.serves && v.atNormalize, NORMALIZE_BACKEND);
    var o2 := When(v.serves && v.atBeta, NORMALIZE_BACKEND);
    var o3 := When(v.serves && v.queryCandidate, s.Candidate());
    var o4 := When(v.serves && v.queryLive, s.Live());
    var o5 := When(s.Percent() > 0 && Quiet(v) && v.cookieCandidate, s.Candidate());
    var o6 := When(Quiet(v) && v.cookieLive, s.Live());
    YieldsInTurn(acls, r1, r2, req, draws, o1, o2);
    YieldsInTurn(acls, r1 + r2, r3, req, draws, Or(o1, o2), o3);
    YieldsInTurn(acls, r1 + r2 + r3, r4, req, draws, Or(Or(o1, o2), o3), o4);
    YieldsInTurn(acls, r1 + r2 + r3 + r4, r5, req, draws, Or(Or(Or(o1, o2), o3), o4), o5);
    YieldsInTurn(acls, r1 + r2 + r3 + r4 + r5, r6, req, draws, Or(Or(Or(Or(o1, o2), o3), o4), o5), o6);
  }

  lemma PlainRule(acls: seq<Acl>, s: Service, backend: string, req: Request, draws: nat -> int, v: View)
    requires Tells(acls, s, req, v)
    ensures Yields(acls, RuleFor(backend, NoOverride(s)), req, draws, When(NotOverridden(s, v), backend))
  {
    hide Tells, Passes, NoOverride, NotOverridden, FirstRule;
    forall n: nat { NoOverrideTest(acls, s, req, v, draws(n)); }
    YieldsRule(acls, backend, NoOverride(s), req, draws, NotOverridden(s, v));
  }

  lemma DrawTest(acls: seq<Acl>, s: Service, positive: bool, req: Request, draw: int, v: View)
    requires Tells(acls, s, req, v) && HasSplit(s)
    ensures Passes(acls, NoOverride(s) + [Literal(positive, AclName(s.id, Split))], req, draw) <==>
            NotOverridden(s, v) && (draw < s.Percent()) == positive
  {
    hide Sees, Passes, AclName;
    NoOverrideTest(acls, s, req, v, draw);
    PassesOne(acls, s, Split, positive, req, draw);
    PassesBoth(acls, NoOverride(s), [Literal(positive, AclName(s.id, Split))], req, draw);
    assert Sees(acls, s.id, OnHost, req, draw) || !Sees(acls, s.id, OnHost, req, draw);
  }

  lemma OverriddenRule(acls: seq<Acl>, s: Service, positive: bool, backend: string, req: Request, draws: nat -> int,
      v: View)
    requires Tells(acls, s, req, v) && HasSplit(s) && !NotOverridden(s, v)
    ensures Yields(acls, RuleFor(backend, NoOverride(s) + [Literal(positive, AclName(s.id, Split))]), req, draws, None)
  {
    hide Tells, Passes, NoOverride, NotOverridden, FirstRule, AclName;
    forall n: nat { DrawTest(acls, s, positive, req, draws(n), v); }
    YieldsRule(acls, backend, NoOverride(s) + [Literal(positive, AclName(s.id, Split))], req, draws, false);
  }

  ghost predicate OneDraw(draws: nat -> int, draw: int) {
    forall n: nat :: draws(n) == draw
  }

  // The draw decides: a split, and a request that nothing overrides.
  predicate Splits(s: Service, v: View) {
    HasSplit(s) && NotOverridden(s, v)
  }

  // Otherwise the closing rules yield their outcome whatever is drawn.
  lemma SplitRulesYield(acls: seq<Acl>, s: Service, req: Request, draws: nat -> int, v: View, below: bool)
    requires Tells(acls, s, req, v) && !Splits(s, v)
    ensures Yields(acls, SplitRules(s), req, draws, SplitOutcome(s, v, below))
  {
    hide Tells, Sees, Base, NoQuery, Yields, NoOverride, NotOverridden, AclName;
    SeesView(acls, s, req, draws, v);
    YieldsNothing(acls, req, draws);
    PlainRule(acls, s, s.Candidate(), req, draws, v);
    PlainRule(acls, s, s.Live(), req, draws, v);
    if s.Live() != "" && s.Candidate() != "" {
      if s.Percent() <= 0 {
        CookieRule(acls, s, CookieCandidate, s.Candidate(), req, draws, v, v.cookieCandidate);
        var sticky := if s.CandidateRelease() != ""
          then RuleFor(s.Candidate(), Base(s) + NoQuery(s) + [If(s, CookieCandidate)]) else [];
        YieldsInTurn(acls, sticky, RuleFor(s.Live(), NoOverride(s)), req, draws,
                     When(s.CandidateRelease() != "" && Quiet(v) && v.cookieCandidate, s.Candidate()),
                     When(NotOverridden(s, v), s.Live()));
      } else if s.Percent() < 100 {
        OverriddenRule(acls, s, true, s.Candidate(), req, draws, v);
        OverriddenRule(acls, s, false, s.Live(), req, draws, v);
        YieldsInTurn(acls, RuleFor(s.Candidate(), NoOverride(s) + [If(s, Split)]),
                     RuleFor(s.Live(), NoOverride(s) + [Unless(s, Split)]), req, draws, None, None);
      }
    }
  }
}
