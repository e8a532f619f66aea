/** Evaluating the emitted rules sends every request where it should go. */
module RouterProof {
  import opened Wrappers
  import opened Text
  import opened RouteNames
  import opened Router

  // ---------------------------------------------------------------- ACL names

  lemma {:induction false} SuffixTexts(x: Suffix, y: Suffix)
    requires x.Text() == y.Text()
    ensures x == y
  {
    assert |x.Text()| == |y.Text()|;
    if x.Text() == "host" || x.Text() == "path" {
      assert "host"[0] != "path"[0];
    } else if x == QueryCandidate || x == Split {
      assert "query_candidate"[0] != "split_candidate"[0];
    }
  }

  lemma {:induction false} UuidName(id: string)
    requires UuidLike(id)
    ensures Trim(id) == id && |NameChars(id)| == 36 && NameChars(id) != ""
  {
    TrimNoSpace(id);
  }

  lemma {:induction false} UuidNamesDiffer(a: string, b: string)
    requires UuidLike(a) && UuidLike(b) && NameChars(a) == NameChars(b)
    ensures a == b
  {
    forall i | 0 <= i < 36 ensures a[i] == b[i] {
      assert a[i] in a && b[i] in b;
      assert NameChars(a)[i] == NameChars(b)[i];
    }
  }

  // ACL names tell both the service and the purpose.
  lemma {:induction false} AclNamesDiffer(a: string, x: Suffix, b: string, y: Suffix)
    requires UuidLike(a) && UuidLike(b) && AclName(a, x) == AclName(b, y)
    ensures a == b && x == y
  {
    UuidName(a);
    UuidName(b);
    var name := AclName(a, x);
    assert name[..36] == NameChars(a) && name[37..] == x.Text();
    assert name[..36] == NameChars(b) && name[37..] == y.Text();
    UuidNamesDiffer(a, b);
    SuffixTexts(x, y);
  }

  lemma {:induction false} NotStaticAsset(id: string, x: Suffix)
    requires UuidLike(id)
    ensures AclName(id, x) != STATIC_ASSET_ACL.name
  {
    UuidName(id);
    assert |AclName(id, x)| > 36;
  }

  predicate Emitted(s: Service, x: Suffix) {
    x != Split || HasSplit(s)
  }

  lemma {:induction false} ServiceAclsAre(s: Service, a: Acl)
    ensures a in ServiceAcls(s) <==> exists x: Suffix :: Emitted(s, x) && a == AclOf(s, x)
  {
    if a in ServiceAcls(s) {
      var x :| a == AclOf(s, x) && Emitted(s, x);
    }
  }

  lemma {:induction false} AclsAre(services: seq<Service>, a: Acl)
    ensures a in AclsOf(services) <==> exists s | s in services :: a in ServiceAcls(s)
  {
    if services != [] { AclsAre(services[1..], a); }
  }

  // Within the section, an ACL name stands for exactly the criterion of its service.
  ghost predicate Resolves(acls: seq<Acl>, s: Service, req: Request) {
    forall x, draw | Emitted(s, x) ::
      Holds(acls, AclName(s.id, x), req, draw) <==> Meets(CriterionOf(s, x), req, draw)
  }

  lemma {:induction false} OneAclOfName(services: seq<Service>, s: Service, x: Suffix, a: Acl)
    requires (forall t | t in services :: UuidLike(t.id)) && DistinctIds(services) && s in services
    requires a in Compiled(services).acls && a.name == AclName(s.id, x)
    ensures a == AclOf(s, x)
  {
    hide AclName;
    hide CriterionOf;
    hide ServiceAcls;
    hide UuidLike;
    NotStaticAsset(s.id, x);
    AclsAre(services, a);
    var t :| t in services && a in ServiceAcls(t);
    ServiceAclsAre(t, a);
    var y :| Emitted(t, y) && a == AclOf(t, y);
    AclNamesDiffer(s.id, x, t.id, y);
  }

  lemma {:induction false} AclIsThere(services: seq<Service>, s: Service, x: Suffix)
    requires s in services && Emitted(s, x)
    ensures AclOf(s, x) in Compiled(services).acls
  {
    hide AclOf;
    ServiceAclsAre(s, AclOf(s, x));
    AclsAre(services, AclOf(s, x));
  }

  lemma {:induction false} NamesResolve(services: seq<Service>, s: Service, req: Request)
    requires (forall t | t in services :: UuidLike(t.id)) && DistinctIds(services) && s in services
    ensures Resolves(Compiled(services).acls, s, req)
  {
    hide Meets;
    hide AclName;
    hide CriterionOf;
    var acls := Compiled(services).acls;
    forall x, draw | Emitted(s, x)
      ensures Holds(acls, AclName(s.id, x), req, draw) <==> Meets(CriterionOf(s, x), req, draw)
    {
      AclIsThere(services, s, x);
      forall a | a in acls && a.name == AclName(s.id, x) ensures a == AclOf(s, x) {
        OneAclOfName(services, s, x, a);
      }
      hide Compiled;
    }
  }

  // ---------------------------------------------------------------- hosts

  lemma RouteHostShape(s: Service, h: string)
    requires h in RouteHosts(s)
    ensures Lower(h) == h && h != "" && Fields(h) != [] && forall w | w in Fields(h) :: Lower(w) == w
  {
    hide Fields, Lower;
    AddedMeaning([], [s.routeHost] + s.routeHosts, h);
    var v :| v in [s.routeHost] + s.routeHosts && NormalizeRouteHost(v) == h;
    LowerTwice(Trim(v));
    NormalizeHostTwice(v);
    LowerWords(h);
    hide Trim;
    SomeWord(h);
  }

  // The words of a lower-case text are in lower case.
  lemma LowerWords(h: string)
    requires Lower(h) == h
    ensures forall w | w in Fields(h) :: Lower(w) == w
  {
    hide Fields;
    FieldsKeepChars(h);
    forall w | w in Fields(h) ensures Lower(w) == w {
      forall i | 0 <= i < |w| ensures LowerChar(w[i]) == w[i] {
        assert w[i] in h;
        var j :| 0 <= j < |h| && h[j] == w[i];
        assert Lower(h)[j] == h[j];
      }
    }
  }

  lemma SomeWord(h: string)
    requires h != "" && Lower(Trim(h)) == h
    ensures Fields(h) != []
  {
    TrimLengths(h);
    TrimIsSuffix(h);
    TrimRightShape(TrimLeft(h));
  }

  // ---------------------------------------------------------------- what the ACLs mean

  lemma InvalidIsLower()
    ensures Lower(INVALID) == INVALID && Fields(INVALID) == [INVALID] && Trim(INVALID) == INVALID
    ensures Patterns([INVALID]) == [INVALID]
  {
    hide Fields, Trim;
    InvalidHasNoBlank();
    FieldsOfWord(INVALID);
    TrimNoSpace(INVALID);
  }

  lemma InvalidHasNoBlank()
    ensures NoSpace(INVALID)
  {
  }

  lemma ExactValueIs(text: string)
    ensures ExactValue(text) == if Trim(text) == "" then [INVALID] else Patterns(Fields(text))
  {
    hide Patterns;
    InvalidIsLower();
    FieldsTrimmed(text);
  }

  // A single word without a leading dash is the value.
  lemma WordIsValue(text: string)
    requires text != "" && NoSpace(text) && !Flag(text)
    ensures ExactValue(text) == [text] && Patterns(Fields(text)) == [text]
  {
    hide Fields, Trim;
    ExactValueIs(text);
    TrimNoSpace(text);
    FieldsOfWord(text);
    assert Patterns([text]) == [text];
  }

  // The words of a text, less its flags, are the value of the ACL it is emitted in.
  lemma HostTextWords(s: Service)
    ensures RouteHosts(s) == [] ==> ExactValue(HostText(s)) == [INVALID]
    ensures RouteHosts(s) != [] ==> ExactValue(HostText(s)) == Patterns(AllWords(RouteHosts(s)))
  {
    hide Fields, RouteHosts, Patterns;
    ExactValueIs(HostText(s));
    if RouteHosts(s) == [] {
      assert Trim("") == "";
    } else {
      var hosts := RouteHosts(s);
      WordsOfJoined(hosts);
      RouteHostShape(s, hosts[0]);
      if Trim(HostText(s)) == "" {
        FieldsTrimmed(HostText(s));
        NoWords();
      }
    }
  }

  lemma NoWords()
    ensures Fields("") == []
  {
  }

  lemma {:induction false} PatternsAreWords(words: seq<string>)
    ensures forall w | w in Patterns(words) :: w in words
    ensures words != [] && Flag(words[0]) ==> forall w | w in Patterns(words) :: w in words[1..]
    ensures words != [] && !Flag(words[0]) ==> Patterns(words) == words
  {
    if words != [] && Flag(words[0]) { PatternsAreWords(words[1..]); }
  }

  // The host ACL of a service holds exactly for the words of its hosts that follow the flags.
  lemma HostAclMeaning(s: Service, req: Request, draw: int)
    requires Lower(req.host) != INVALID && forall h | h in RouteHosts(s) :: Unquoted(h)
    ensures Meets(CriterionOf(s, OnHost), req, draw) <==>
              RouteHosts(s) != [] && Lower(req.host) in Patterns(AllWords(RouteHosts(s)))
  {
    hide Fields, RouteHosts, Lower, AllWords, Patterns;
    InvalidIsLower();
    HostTextWords(s);
    var host, hosts := Lower(req.host), RouteHosts(s);
    if hosts != [] {
      var values := Patterns(AllWords(hosts));
      PatternsAreWords(AllWords(hosts));
      forall w | w in values ensures Lower(w) == w {
        AllWordsAre(hosts, w);
        var h :| h in hosts && w in Fields(h);
        RouteHostShape(s, h);
      }
      assert OneOf(req.host, values) <==> host in values;
    }
  }

  lemma {:induction false} WordsThemselves(hosts: seq<string>)
    requires forall h | h in hosts :: h != "" && NoSpace(h)
    ensures AllWords(hosts) == hosts
  {
    hide Fields, NoSpace;
    if hosts != [] {
      assert hosts[0] in hosts && forall h | h in hosts[1..] :: h in hosts;
      FieldsOfWord(hosts[0]);
      WordsThemselves(hosts[1..]);
      assert [hosts[0]] + hosts[1..] == hosts;
    }
  }

  lemma HostsAreWords(s: Service)
    requires forall h | h in RouteHosts(s) :: NoSpace(h)
    ensures AllWords(RouteHosts(s)) == RouteHosts(s)
  {
    hide RouteHosts, AllWords;
    forall h | h in RouteHosts(s) ensures h != "" { RouteHostShape(s, h); }
    WordsThemselves(RouteHosts(s));
  }

  predicate ExactHosts(s: Service, draw: int, req: Request) {
    Meets(CriterionOf(s, OnHost), req, draw) <==> Lower(req.host) in RouteHosts(s)
  }

  // As far as the hosts are free of quotes, backslashes and comment signs, the ACL means what they
  // say, for every request, if and only if none contains a blank and the first is not a flag.
  lemma HostAclIsExact(s: Service, draw: int)
    requires forall h | h in RouteHosts(s) :: Unquoted(h)
    ensures (forall req | NoSentinel(req) :: ExactHosts(s, draw, req)) <==> PlainHosts(RouteHosts(s))
  {
    hide RouteHosts, CriterionOf, Meets, NoSpace, Unquoted;
    var hosts := RouteHosts(s);
    if PlainHosts(hosts) {
      forall req | NoSentinel(req) ensures ExactHosts(s, draw, req) { PlainHostsAreExact(s, req, draw); }
    } else if h :| h in hosts && !NoSpace(h) {
      BlankIsMissed(s, h, draw);
      assert !ExactHosts(s, draw, Request(h, "", None, map[]));
    } else {
      FlagIsMissed(s, draw);
      assert !ExactHosts(s, draw, Request(hosts[0], "", None, map[]));
    }
  }

  lemma BlankIsMissed(s: Service, h: string, draw: int)
    requires h in RouteHosts(s) && !NoSpace(h) && forall g | g in RouteHosts(s) :: Unquoted(g)
    ensures NoSentinel(Request(h, "", None, map[])) && !ExactHosts(s, draw, Request(h, "", None, map[]))
  {
    hide Fields, RouteHosts, CriterionOf, Meets, Lower, Patterns, Unquoted, AllWords;
    RouteHostShape(s, h);
    if h == INVALID { InvalidHasNoBlank(); }
    HostAclMeaning(s, Request(h, "", None, map[]), draw);
    PatternsAreWords(AllWords(RouteHosts(s)));
    AllWordsAre(RouteHosts(s), h);
    forall g | g in RouteHosts(s) ensures h !in Fields(g) { FieldsHaveNoSpace(g); }
  }

  lemma FlagIsMissed(s: Service, draw: int)
    requires (forall h | h in RouteHosts(s) :: Unquoted(h) && NoSpace(h)) && RouteHosts(s) != []
        && Flag(RouteHosts(s)[0])
    ensures var req := Request(RouteHosts(s)[0], "", None, map[]); NoSentinel(req) && !ExactHosts(s, draw, req)
  {
    var hosts := RouteHosts(s);
    AddedOnce([], [s.routeHost] + s.routeHosts);
    hide RouteHosts, CriterionOf, Meets, Lower, Patterns, Unquoted, AllWords, NoSpace;
    RouteHostShape(s, hosts[0]);
    assert hosts[0] != INVALID;
    HostAclMeaning(s, Request(hosts[0], "", None, map[]), draw);
    HostsAreWords(s);
    PatternsAreWords(hosts);
    assert hosts[0] !in hosts[1..];
  }

  lemma PlainHostsAreExact(s: Service, req: Request, draw: int)
    requires Lower(req.host) != INVALID && PlainHosts(RouteHosts(s))
    ensures ExactHosts(s, draw, req)
  {
    hide RouteHosts, CriterionOf, Meets, Lower, Patterns, AllWords, NoSpace, Unquoted;
    HostAclMeaning(s, req, draw);
    HostsAreWords(s);
    PatternsAreWords(RouteHosts(s));
  }

  lemma HostMeaning(s: Service, req: Request, draw: int)
    requires NoSentinel(req) && Readable(s)
    ensures Meets(CriterionOf(s, OnHost), req, draw) && Meets(CriterionOf(s, OnPath), req, draw) <==> Serves(s, req)
  {
    hide NormalizeRouteHost, Lower, Fields, ExactValue, Patterns, Unquoted;
    PlainHostsAreExact(s, req, draw);
    AddedMeaning([], [s.routeHost] + s.routeHosts, Lower(req.host));
    WordIsValue(s.prefix);
    assert [s.prefix][0] == s.prefix;
  }

  lemma StickyPathMeaning(prefix: string, suffix: string, req: Request)
    requires suffix == "/__ep/normalize" || suffix == "/__ep/beta"
    requires NoSpace(prefix)
    ensures OneOf(req.path, ExactValue(StickyPath(prefix, suffix))) <==>
        Lower(req.path) == Lower(StickyPath(prefix, suffix))
  {
    var path := StickyPath(prefix, suffix);
    StickyPathIsWord(prefix, suffix);
    hide Fields, StickyPath;
    WordIsValue(path);
    hide ExactValue;
    assert ExactValue(path)[0] == path;
  }

  lemma StickyPathIsWord(prefix: string, suffix: string)
    requires suffix == "/__ep/normalize" || suffix == "/__ep/beta"
    requires NoSpace(prefix)
    ensures var path := StickyPath(prefix, suffix); path != "" && NoSpace(path) && !Flag(path)
  {
    var p, path := NormalizeRoutePathPrefix(prefix), StickyPath(prefix, suffix);
    NormalPrefixIsWord(prefix);
    hide NormalizeRoutePathPrefix;
    assert forall c | c in suffix :: c == '/' || c == '_' || 'a' <= c <= 'z';
    assert path == suffix || path == p + suffix;
    assert path[0] == '/';
    forall c | c in path ensures !IsSpace(c) { assert c in suffix || c in p; }
  }

  lemma NormalPrefixIsWord(prefix: string)
    requires NoSpace(prefix)
    ensures var p := NormalizeRoutePathPrefix(prefix); NoSpace(p) && p != "" && p[0] == '/'
  {
    TrimNoSpace(prefix);
    PrefixIs(prefix);
    hide NormalizeRoutePathPrefix, Trim;
    var p := NormalizeRoutePathPrefix(prefix);
    var full := if prefix != "" && prefix[0] == '/' then prefix else "/" + prefix;
    if p != "/" {
      assert p <= full && p[0] == full[0];
      forall c | c in p ensures !IsSpace(c) { assert c in full; }
    }
  }

  lemma PathMeaning(s: Service, req: Request, draw: int)
    requires NoSpace(s.prefix)
    ensures Meets(CriterionOf(s, OnNormalize), req, draw) <==> Lower(req.path) == Lower(NormalizePath(s.prefix))
    ensures Meets(CriterionOf(s, OnBeta), req, draw) <==> Lower(req.path) == Lower(BetaPath(s.prefix))
  {
    hide ExactValue;
    StickyPathMeaning(s.prefix, "/__ep/normalize", req);
    StickyPathMeaning(s.prefix, "/__ep/beta", req);
  }

  lemma ExactMeaning(value: string, release: string)
    requires Lower(value) != INVALID && NoSpace(Trim(release)) && !Flag(Trim(release))
    ensures OneOf(value, ExactValue(Trim(release))) <==> Trim(release) != "" && Lower(value) == Lower(Trim(release))
  {
    hide Fields, Lower, Patterns;
    TrimTwice(release);
    InvalidIsLower();
    ExactValueIs(Trim(release));
    if Trim(release) != "" { WordIsValue(Trim(release)); }
    assert ExactValue(Trim(release))[0] == if Trim(release) == "" then INVALID else Trim(release);
  }

  lemma QueryMeaning(s: Service, req: Request, draw: int)
    requires NoSentinel(req) && Readable(s)
    ensures Meets(CriterionOf(s, QueryLive), req, draw) <==> QueryNames(req, s.LiveRelease())
    ensures Meets(CriterionOf(s, QueryCandidate), req, draw) <==> QueryNames(req, s.CandidateRelease())
  {
    hide ExactValue;
    if req.query.Some? {
      ExactMeaning(req.query.value, s.liveReleaseId);
      ExactMeaning(req.query.value, s.candidateReleaseId);
    }
  }

  lemma CookieMeaning(s: Service, req: Request, draw: int)
    requires NoSentinel(req) && Readable(s)
    ensures Meets(CriterionOf(s, CookieLive), req, draw) <==> CookieNames(s, req, s.LiveRelease())
    ensures Meets(CriterionOf(s, CookieCandidate), req, draw) <==> CookieNames(s, req, s.CandidateRelease())
  {
    hide ExactValue;
    if s.Cookie() in req.cookies {
      ExactMeaning(req.cookies[s.Cookie()], s.liveReleaseId);
      ExactMeaning(req.cookies[s.Cookie()], s.candidateReleaseId);
    }
  }

  // What a request is to a service.
  datatype View = View(
    serves: bool, atNormalize: bool, atBeta: bool, queryLive: bool, queryCandidate: bool,
    cookieLive: bool, cookieCandidate: bool)

  function ViewOf(s: Service, req: Request): View {
    View(Serves(s, req), Lower(req.path) == Lower(NormalizePath(s.prefix)),
        Lower(req.path) == Lower(BetaPath(s.prefix)),
         QueryNames(req, s.LiveRelease()), QueryNames(req, s.CandidateRelease()),
         CookieNames(s, req, s.LiveRelease()), CookieNames(s, req, s.CandidateRelease()))
  }

  predicate Sees(acls: seq<Acl>, id: string, x: Suffix, req: Request, draw: int) {
    Holds(acls, AclName(id, x), req, draw)
  }

  // The ACLs of a service tell the view of it.
  ghost predicate Tells(acls: seq<Acl>, s: Service, req: Request, v: View) {
    forall draw {:trigger Sees(acls, s.id, OnHost, req, draw)} ::
      && ((Sees(acls, s.id, OnHost, req, draw) && Sees(acls, s.id, OnPath, req, draw)) <==> v.serves)
      && (Sees(acls, s.id, OnNormalize, req, draw) <==> v.atNormalize)
      && (Sees(acls, s.id, OnBeta, req, draw) <==> v.atBeta)
      && (Sees(acls, s.id, QueryLive, req, draw) <==> v.queryLive)
      && (Sees(acls, s.id, QueryCandidate, req, draw) <==> v.queryCandidate)
      && (Sees(acls, s.id, CookieLive, req, draw) <==> v.cookieLive)
      && (Sees(acls, s.id, CookieCandidate, req, draw) <==> v.cookieCandidate)
      && (HasSplit(s) ==> (Sees(acls, s.id, Split, req, draw) <==> draw < s.Percent()))
  }

  lemma SplitMeaning(s: Service, req: Request, draw: int)
    ensures Meets(CriterionOf(s, Split), req, draw) <==> draw < s.Percent()
  {
  }

  lemma AclsTell(acls: seq<Acl>, s: Service, req: Request)
    requires Resolves(acls, s, req) && NoSentinel(req) && Readable(s)
    ensures Tells(acls, s, req, ViewOf(s, req))
  {
    hide Meets, CriterionOf, Serves, QueryNames, CookieNames, NormalizePath, BetaPath, Lower, AclName, NoSentinel;
    hide Holds;
    var v := ViewOf(s, req);
    forall draw
      ensures (Sees(acls, s.id, OnHost, req, draw) && Sees(acls, s.id, OnPath, req, draw)) <==> v.serves
      ensures Sees(acls, s.id, OnNormalize, req, draw) <==> v.atNormalize
      ensures Sees(acls, s.id, OnBeta, req, draw) <==> v.atBeta
      ensures Sees(acls, s.id, QueryLive, req, draw) <==> v.queryLive
      ensures Sees(acls, s.id, QueryCandidate, req, draw) <==> v.queryCandidate
      ensures Sees(acls, s.id, CookieLive, req, draw) <==> v.cookieLive
      ensures Sees(acls, s.id, CookieCandidate, req, draw) <==> v.cookieCandidate
      ensures HasSplit(s) ==> (Sees(acls, s.id, Split, req, draw) <==> draw < s.Percent())
    {
      HostMeaning(s, req, draw);
      PathMeaning(s, req, draw);
      QueryMeaning(s, req, draw);
      CookieMeaning(s, req, draw);
      SplitMeaning(s, req, draw);
    }
  }
}
