/** Hosts the catalog accepts and the proxy reads as something else. */
module HostTexts {
  import opened Wrappers
  import opened Text
  import opened RouteNames
  import opened Catalog
  import R = Router
  import RouterProof
  import P = Publisher
  import M = ReleaseModel

  const AGENTS := map["g" := Agent(true, false, {})]

  function Asking(key: string, host: string): Request {
    Request(key, "g", 80, host, [], "/", [], [], None)
  }

  function Stored(key: string, host: string): Service {
    Service(key, "g", 80, host, [host], "/", [], [], true)
  }

  lemma {:induction false} OneHost(host: string)
    requires host != "" && NormalizeRouteHost(host) == host
    ensures Hosts(host, []) == [host] && Hosts(host, [host]) == [host]
  {
    hide NormalizeRouteHost;
    assert [host] + [] == [host] && [host] + [host] == [host, host] && [] + [host] == [host];
    assert [host][1..] == [] && [host, host][1..] == [host];
    assert Added([host], []) == [host] && Added([host], [host]) == Added([host], []);
    assert Added([], [host]) == Added([host], []) && Added([], [host, host]) == Added([host], [host]);
  }

  lemma {:induction false} Built(key: string, host: string)
    requires ValidKey(key) && Trim(key) == key && host != "" && NormalizeRouteHost(host) == host
    ensures Build(Asking(key, host)) == Ok(Stored(key, host))
    ensures HostsOf(Stored(key, host)) == [host] && HostPorts(Stored(key, host)) == []
  {
    hide NormalizeRouteHost, ValidKey, Hosts;
    assert IsRoutePrefix("/");
    PrefixNormalForm("/");
    hide NormalizeRoutePathPrefix, Trim;
    OneHost(host);
    assert WithDefaults([]) == [];
  }

  lemma {:induction false} TwoHosts()
    ensures NormalizeRouteHost("a.com b.com") == "a.com b.com" && NormalizeRouteHost("b.com") == "b.com"
    ensures ValidKey("a") && Trim("a") == "a" && ValidKey("b") && Trim("b") == "b"
  {
    TrimmedEnds("a.com b.com");
    TrimmedEnds("b.com");
    TrimmedEnds("a");
    TrimmedEnds("b");
  }

  lemma {:induction false} BothStored()
    ensures var es := [Creating("1", Asking("a", "a.com b.com"), AGENTS), Creating("2", Asking("b", "b.com"), AGENTS)];
      Run(map[], es) == map["1" := Stored("a", "a.com b.com"), "2" := Stored("b", "b.com")]
  {
    var first, second := Stored("a", "a.com b.com"), Stored("b", "b.com");
    TwoHosts();
    hide NormalizeRouteHost, ValidKey, Trim;
    Built("a", "a.com b.com");
    Built("b", "b.com");
    hide Build, HostsOf;
    AcceptedExactly(map[], AGENTS, first, "1");
    assert HostsOf(first)[0] != HostsOf(second)[0];
    assert !SharesRoute(first, second);
    AcceptedExactly(map["1" := first], AGENTS, second, "2");
    hide Check;
    assert "1" != "2" && "a" != "b";
    var e1, e2 := Creating("1", Asking("a", "a.com b.com"), AGENTS), Creating("2", Asking("b", "b.com"), AGENTS);
    assert Apply(map[], e1) == map["1" := first];
    assert Apply(map["1" := first], e2) == map["1" := first, "2" := second];
    assert [e1, e2][1..] == [e2] && [e2][1..] == [];
    assert Run(map["1" := first, "2" := second], []) == map["1" := first, "2" := second];
  }

  lemma {:induction false} SecondWord()
    ensures Fields("a.com b.com") == ["a.com", "b.com"]
  {
    hide Fields;
    assert "a.com b.com" == "a.com" + " " + "b.com";
    FieldsWord("a.com", "b.com");
    FieldsOfWord("b.com");
  }

  lemma {:induction false} PatternsOfTwo()
    ensures R.Patterns(AllWords(["a.com b.com"])) == ["a.com", "b.com"]
  {
    hide Fields;
    SecondWord();
    assert AllWords([]) == [] && ["a.com b.com"][1..] == [] && ["a.com", "b.com"] + [] == ["a.com", "b.com"];
    RouterProof.PatternsAreWords(["a.com", "b.com"]);
  }

  // The host ACL of the first service's configuration, for the second service's host.
  lemma {:induction false} SecondWordMatches(rows: Rows, s: M.State, req: R.Request, draw: int)
    requires "1" in rows && HostsOf(rows["1"]) == ["a.com b.com"] && req.host == "b.com"
    ensures R.Meets(R.CriterionOf(P.ServiceConfig(rows, s, "1"), R.OnHost), req, draw)
  {
    hide P.ServiceConfig, HostsOf, Fields, R.CriterionOf, R.Meets;
    P.ConfigHosts(rows, s, "1");
    assert Lower("b.com") == "b.com" && "b.com"[0] != R.INVALID[0];
    PatternsOfTwo();
    hide R.Patterns, AllWords;
    RouterProof.HostAclMeaning(P.ServiceConfig(rows, s, "1"), req, draw);
    assert ["a.com", "b.com"][1] == "b.com";
  }

  // The catalog accepts a service for "a.com b.com" beside one for "b.com": their claims differ as
  // texts, yet both ACLs that the first one's rules test hold for a request to the second one's
  // host.
  lemma {:induction false} TwoWordHostOverlaps(s: M.State, draw: int)
    ensures var es := [Creating("1", Asking("a", "a.com b.com"), AGENTS), Creating("2", Asking("b", "b.com"), AGENTS)];
      var rows := Run(map[], es);
      && "1" in rows && "2" in rows && rows["1"].agent == rows["2"].agent && rows["1"].prefix == rows["2"].prefix
      && "b.com" in HostsOf(rows["2"]) && "b.com" !in HostsOf(rows["1"])
      && var x, req := P.ServiceConfig(rows, s, "1"), R.Request("b.com", "/", None, map[]);
         R.Meets(R.CriterionOf(x, R.OnHost), req, draw) && R.Meets(R.CriterionOf(x, R.OnPath), req, draw)
  {
    var rows := map["1" := Stored("a", "a.com b.com"), "2" := Stored("b", "b.com")];
    BothStored();
    TwoHosts();
    hide NormalizeRouteHost, ValidKey, Trim, Run, Build, P.ServiceConfig, R.CriterionOf, R.Meets, HostsOf;
    Built("a", "a.com b.com");
    Built("b", "b.com");
    SecondWordMatches(rows, s, R.Request("b.com", "/", None, map[]), draw);
    RootPath(rows, s, R.Request("b.com", "/", None, map[]), draw);
    assert |"b.com"| != |"a.com b.com"|;
  }

  lemma RootPath(rows: Rows, s: M.State, req: R.Request, draw: int)
    requires "1" in rows && rows["1"].prefix == "/" && HasPrefix(req.path, "/")
    ensures R.Meets(R.CriterionOf(P.ServiceConfig(rows, s, "1"), R.OnPath), req, draw)
  {
    hide P.Resolve, BackendNameForRelease, Fields;
    assert IsRoutePrefix("/");
    PrefixNormalForm("/");
    RouterProof.WordIsValue("/");
    hide NormalizeRoutePathPrefix, R.Patterns;
    assert ["/"][0] == "/";
  }

  // ---------------------------------------------------------------- a leading dash

  const FLAGGED := Request("a", "g", 80, "-m", ["beg", "a"], "/", [], [], None)

  const STORED_FLAGGED := Service("a", "g", 80, "-m", ["-m", "beg", "a"], "/", [], [], true)

  lemma {:induction false} FlaggedHosts()
    ensures Hosts("-m", ["beg", "a"]) == ["-m", "beg", "a"] && HostsOf(STORED_FLAGGED) == ["-m", "beg", "a"]
    ensures NormalizeRouteHost("-m") == "-m"
  {
    TrimmedEnds("-m");
    TrimmedEnds("beg");
    TrimmedEnds("a");
    var hosts := ["-m", "beg", "a"];
    assert Lower("-m") == "-m" && Lower("beg") == "beg" && Lower("a") == "a";
    hide Trim, Lower;
    assert ["-m"] + ["beg", "a"] == hosts && |"-m"| != |"beg"| && |"beg"| != |"a"| && |"-m"| != |"a"|;
    AddedAsIs([], hosts);
    assert [] + hosts == hosts;
    AddedAgain("-m", ["beg", "a"]);
  }

  lemma {:induction false} FlaggedStored()
    ensures Run(map[], [Creating("1", FLAGGED, AGENTS)]) == map["1" := STORED_FLAGGED]
  {
    FlaggedHosts();
    TwoHosts();
    assert IsRoutePrefix("/");
    PrefixNormalForm("/");
    assert WithDefaults([]) == [];
    hide NormalizeRouteHost, ValidKey, Trim, Hosts, NormalizeRoutePathPrefix;
    assert Build(FLAGGED) == Ok(STORED_FLAGGED);
    hide Build, HostsOf;
    AcceptedExactly(map[], AGENTS, STORED_FLAGGED, "1");
    hide Check;
    assert Apply(map[], Creating("1", FLAGGED, AGENTS)) == map["1" := STORED_FLAGGED];
    assert [Creating("1", FLAGGED, AGENTS)][1..] == [];
    assert Run(map["1" := STORED_FLAGGED], []) == map["1" := STORED_FLAGGED];
  }

  lemma FlaggedWords()
    ensures R.Flag("-m") && forall h | h in ["-m", "beg", "a"] :: R.Unquoted(h) && NoSpace(h)
  {
  }

  // The catalog accepts the hosts "-m", "beg" and "a", none of which holds a blank; the proxy takes
  // the first for a flag, so the ACL does not hold for it.
  lemma {:induction false} FlagHostIsLost(s: M.State, draw: int)
    ensures var rows := Run(map[], [Creating("1", FLAGGED, AGENTS)]);
      && "1" in rows && "-m" in HostsOf(rows["1"]) && (forall h | h in HostsOf(rows["1"]) :: NoSpace(h))
      && !R.Meets(R.CriterionOf(P.ServiceConfig(rows, s, "1"), R.OnHost), R.Request("-m", "", None, map[]), draw)
  {
    FlaggedStored();
    FlaggedHosts();
    FlaggedWords();
    var rows := map["1" := STORED_FLAGGED];
    hide Run, HostsOf, Hosts, NormalizeRouteHost, P.ServiceConfig, R.CriterionOf, R.Meets, R.Flag, R.Unquoted, NoSpace;
    P.ConfigHosts(rows, s, "1");
    RouterProof.FlagIsMissed(P.ServiceConfig(rows, s, "1"), draw);
    assert Lower("-m") == "-m";
    assert ["-m", "beg", "a"][0] == "-m";
  }
}
