/** The paths and the cookie of a service as the browser sees them, letter for letter. */
module RouterPaths {
  import opened Wrappers
  import opened Text
  import opened RouteNames
  import opened Router
  import opened RouterTheorems
  import opened RouterCorrect
  import C = Catalog
  import RouterProof

  // The path below a prefix, which itself is "/" or has no slash at its end.
  function Under(prefix: string, path: string): string {
    if prefix == "/" then path else prefix + path
  }

  lemma StickyPathIs(prefix: string, suffix: string)
    requires IsRoutePrefix(prefix)
    ensures StickyPath(prefix, suffix) == Under(prefix, suffix)
  {
    PrefixNormalForm(prefix);
    hide NormalizeRoutePathPrefix;
  }

  lemma SameLength(a: string, b: string)
    requires Lower(a) == Lower(b)
    ensures |a| == |b|
  {
    assert |Lower(a)| == |a| && |Lower(b)| == |b|;
  }

  // Neither sticky path of a service is a sticky path of one with a shorter prefix, nor its own other.
  lemma PathsDiffer(s: Service, t: Service)
    requires IsRoutePrefix(s.prefix) && IsRoutePrefix(t.prefix) && |t.prefix| < |s.prefix|
    ensures var path := Lower(Under(s.prefix, "/__ep/normalize"));
      path != Lower(NormalizePath(t.prefix)) && path != Lower(BetaPath(t.prefix))
  {
    StickyPathIs(t.prefix, "/__ep/normalize");
    StickyPathIs(t.prefix, "/__ep/beta");
    hide StickyPath, Lower;
    var path := Under(s.prefix, "/__ep/normalize");
    if Lower(path) == Lower(NormalizePath(t.prefix)) { SameLength(path, NormalizePath(t.prefix)); }
    if Lower(path) == Lower(BetaPath(t.prefix)) { SameLength(path, BetaPath(t.prefix)); }
  }

  lemma BetaDecides(s: Service, req: Request, draw: int)
    requires IsRoutePrefix(s.prefix) && Serves(s, req)
    requires Lower(req.path) == Lower(Under(s.prefix, "/__ep/beta"))
    ensures Decision(s, req, draw) == Some("ep_normalize")
  {
    StickyPathIs(s.prefix, "/__ep/beta");
    hide StickyPath, Lower, Trim, StickyCookieName, Serves;
  }

  lemma NormalizeDecides(s: Service, req: Request, draw: int)
    requires IsRoutePrefix(s.prefix) && Serves(s, req) && s.Candidate() != "ep_normalize" && Consistent(s)
    requires Lower(req.path) == Lower(Under(s.prefix, "/__ep/normalize"))
    ensures Decision(s, req, draw) == Some("ep_normalize") <==> s.Live() != ""
  {
    StickyPathIs(s.prefix, "/__ep/normalize");
    StickyPathIs(s.prefix, "/__ep/beta");
    hide Lower, Trim, StickyCookieName, Serves;
    if Lower(req.path) == Lower(BetaPath(s.prefix)) {
      hide StickyPath;
      SameLength(req.path, BetaPath(s.prefix));
      SameLength(req.path, Under(s.prefix, "/__ep/normalize"));
      assert false;
    }
    hide StickyPath, NormalizeRoutePathPrefix;
  }

  // The snapshot's services have prefixes in normal form, and none has the normalizing backend or the
  // default for its own.
  predicate Ordinary(snapshot: seq<Service>) {
    forall s | s in snapshot ::
      && IsRoutePrefix(s.prefix)
      && s.Live() !in {"ep_normalize", "ep_default"} && s.Candidate() !in {"ep_normalize", "ep_default"}
  }

  // A request to a service for "/__ep/beta" below its prefix is normalized, whether or not there is a
  // live release, unless a service with a longer prefix serves it.
  lemma BetaIsNormalized(
    snapshot: seq<Service>, order: seq<Service>, s: Service, req: Request, draws: nat -> int, draw: int)
    requires GoodSnapshot(snapshot) && Ordinary(snapshot) && NoSentinel(req) && OneDraw(draws, draw)
    requires multiset(order) == multiset(snapshot) && LongestFirst(order)
    requires LongestMatch(snapshot, s, req) && Serves(s, req)
    requires Lower(req.path) == Lower(Under(s.prefix, "/__ep/beta"))
    ensures Evaluate(Compiled(order), req, draws, "ep_default") == "ep_normalize"
  {
    assert IsRoutePrefix(s.prefix);
    BetaDecides(s, req, draw);
    hide Serves, Decision, LongestMatch, Lower;
    LongestRoutes(snapshot, s, req, draw, "ep_normalize");
    CompilerIsCorrect(snapshot, order, req, draws, draw, "ep_normalize");
  }

  // A request for "/__ep/normalize" is normalized exactly if the service has a live release.
  lemma NormalizeNeedsLive(
    snapshot: seq<Service>, order: seq<Service>, s: Service, req: Request, draws: nat -> int, draw: int)
    requires GoodSnapshot(snapshot) && Ordinary(snapshot) && NoSentinel(req) && OneDraw(draws, draw)
    requires multiset(order) == multiset(snapshot) && LongestFirst(order)
    requires LongestMatch(snapshot, s, req) && Serves(s, req)
    requires Lower(req.path) == Lower(Under(s.prefix, "/__ep/normalize"))
    ensures Evaluate(Compiled(order), req, draws, "ep_default") == "ep_normalize" <==> s.Live() != ""
  {
    assert Consistent(s) && IsRoutePrefix(s.prefix) && s.Candidate() != "ep_normalize";
    NormalizeDecides(s, req, draw);
    var backend := Evaluate(Compiled(order), req, draws, "ep_default");
    CompilerIsCorrect(snapshot, order, req, draws, draw, backend);
    hide Evaluate, Compiled, NoSentinel;
    if s.Live() != "" {
      hide Serves, Decision, LongestMatch, Lower, Routes;
      LongestRoutes(snapshot, s, req, draw, "ep_normalize");
      CompilerIsCorrect(snapshot, order, req, draws, draw, "ep_normalize");
    } else if backend == "ep_normalize" {
      var t :| t in snapshot && Decision(t, req, draw) == Some(backend);
      OtherNormalizes(snapshot, s, t, req, draw);
    }
  }

  lemma OtherNormalizes(snapshot: seq<Service>, s: Service, t: Service, req: Request, draw: int)
    requires GoodSnapshot(snapshot) && Ordinary(snapshot) && LongestMatch(snapshot, s, req) && Serves(s, req)
    requires t in snapshot && Lower(req.path) == Lower(Under(s.prefix, "/__ep/normalize"))
    requires Decision(t, req, draw) == Some("ep_normalize")
    ensures t == s
  {
    DecidesIfServes(t, req, draw, "ep_normalize");
    if t != s {
      OtherServer(snapshot, s, t, req);
      PathsDiffer(s, t);
      hide Lower, Trim, StickyCookieName, Serves, NormalizePath, BetaPath, UniqueRoutes, WellNamed;
    }
  }

  // ---------------------------------------------------------------- nothing to match

  // What a service without hosts, or without the release in question, asks of a request is a text that
  // no request is taken to carry.
  lemma NothingMatches(s: Service, req: Request, draw: int)
    ensures RouteHosts(s) == [] ==>
              (Meets(CriterionOf(s, OnHost), req, draw) <==> Lower(req.host) == "__edge_pilot_invalid__")
    ensures s.LiveRelease() == "" ==>
              (Meets(CriterionOf(s, QueryLive), req, draw) <==>
                 req.query.Some? && Lower(req.query.value) == "__edge_pilot_invalid__")
    ensures NoSentinel(req) ==> Lower(req.host) != "__edge_pilot_invalid__"
  {
    EmptyIsInvalid();
    hide Fields, Lower, RouteHosts, Trim, ExactValue, OneOf;
    OneInvalid(req.host);
    if req.query.Some? { OneInvalid(req.query.value); }
  }

  lemma EmptyIsInvalid()
    ensures Trim("") == "" && ExactValue("") == ["__edge_pilot_invalid__"]
  {
    hide Fields, Trim;
    RouterProof.InvalidIsLower();
    RouterProof.ExactValueIs("");
    TrimNoSpace("");
  }

  lemma OneInvalid(value: string)
    ensures OneOf(value, ["__edge_pilot_invalid__"]) <==> Lower(value) == "__edge_pilot_invalid__"
  {
    hide Fields, Trim, Lower;
    RouterProof.InvalidIsLower();
    assert ["__edge_pilot_invalid__"][0] == "__edge_pilot_invalid__";
  }

  // ---------------------------------------------------------------- names and assets

  function Underscored(id: string): string {
    seq(|id|, i requires 0 <= i < |id| => if id[i] == '-' then '_' else id[i])
  }

  // An ACL is named by the id of its service, with underscores for dashes, and what it tests.
  function Tested(x: Suffix): string {
    match x
    case OnHost => "host"
    case OnPath => "path"
    case OnNormalize => "normalize_path"
    case OnBeta => "beta_path"
    case QueryLive => "query_live"
    case QueryCandidate => "query_candidate"
    case CookieLive => "cookie_live"
    case CookieCandidate => "cookie_candidate"
    case Split => "split_candidate"
  }

  lemma AclNameIs(id: string, x: Suffix)
    requires UuidLike(id)
    ensures AclName(id, x) == Underscored(id) + "_" + Tested(x)
  {
    NameCharsAre(id);
    assert Tested(x) == x.Text();
    hide NameChars, Trim, Underscored, Tested, Suffix.Text;
  }

  lemma NameCharsAre(id: string)
    requires UuidLike(id)
    ensures NameChars(Trim(id)) == Underscored(id) != ""
  {
    assert forall i | 0 <= i < |id| :: id[i] in id;
    TrimNoSpace(id);
    hide Trim;
  }

  // The file endings that a section's first ACL, "ep_static_asset_path", stands for.
  const ENDINGS := [
    ".avif", ".bmp", ".css", ".eot", ".gif", ".ico", ".jpeg", ".jpg", ".js", ".m4a", ".map", ".mjs", ".mp3", ".mp4",
    ".ogg", ".otf", ".png", ".svg", ".ttf", ".wasm", ".wav", ".webm", ".webmanifest", ".webp", ".woff", ".woff2"]

  lemma {:induction false} EndingsAre(i: nat)
    requires i < 26
    ensures |ENDINGS| == |ASSET_SUFFIXES| == 26 && ENDINGS[i] == "." + ASSET_SUFFIXES[i]
  {
  }

  lemma AssetsAre(services: seq<Service>, req: Request, draw: int)
    ensures var acls := Compiled(services).acls;
      && acls != [] && acls[0].name == "ep_static_asset_path"
      && (Meets(acls[0].criterion, req, draw) <==>
            exists i | 0 <= i < |ENDINGS| :: exists head :: Lower(req.path) == head + ENDINGS[i])
  {
    EndingsAre(0);
    var path := Lower(req.path);
    hide Lower;
    forall i | 0 <= i < 26
      ensures EndsWith(path, "." + ASSET_SUFFIXES[i]) <==> exists head :: path == head + ENDINGS[i]
    {
      EndingsAre(i);
      if EndsWith(path, ENDINGS[i]) { assert path == path[..|path| - |ENDINGS[i]|] + ENDINGS[i]; }
    }
    hide EndsWith;
  }

  // ---------------------------------------------------------------- cookies

  function CookieChar(c: char): char {
    if c == '-' then '_' else c
  }

  lemma {:induction false} CookieCharsAre(key: string)
    requires forall c | c in key :: C.KeyChar(c)
    ensures |CookieChars(key)| == |key| && forall i | 0 <= i < |key| :: CookieChars(key)[i] == CookieChar(key[i])
  {
    if key != "" {
      assert key[0] in key && forall c | c in key[1..] :: c in key;
      CookieCharsAre(key[1..]);
    }
  }

  lemma NothingTrimmed(s: string, c: char)
    requires s != "" && s[0] != c && s[|s| - 1] != c
    ensures TrimRightOf(TrimLeftOf(s, c), c) == s
  {
  }

  lemma {:induction false} KeyIsLower(key: string)
    requires C.ValidKey(key)
    ensures Lower(Trim(key)) == key
  {
    assert key[0] in key && key[|key| - 1] in key;
    TrimmedEnds(key);
    assert forall i | 0 <= i < |key| :: key[i] in key;
  }

  function CookieOf(key: string): string {
    "ep_release_id_" + seq(|key|, i requires 0 <= i < |key| => CookieChar(key[i]))
  }

  // The cookie of a service is named by its key, with underscores for dashes.
  lemma CookieNameIs(key: string)
    requires C.ValidKey(key)
    ensures StickyCookieName(key) == CookieOf(key)
  {
    KeyIsLower(key);
    CookieCharsAre(key);
    assert key[0] in key && key[|key| - 1] in key;
    NothingTrimmed(CookieChars(key), '_');
    hide CookieChars, Trim, Lower, TrimLeftOf, TrimRightOf;
  }

  // So no two services of a catalog share a cookie.
  lemma CookiesDiffer(a: string, b: string)
    requires C.ValidKey(a) && C.ValidKey(b) && StickyCookieName(a) == StickyCookieName(b)
    ensures a == b
  {
    CookieNameIs(a);
    CookieNameIs(b);
    hide StickyCookieName;
    assert |CookieOf(a)| == 14 + |a| && |CookieOf(b)| == 14 + |b|;
    forall i | 0 <= i < |a| ensures a[i] == b[i] {
      assert CookieOf(a)[14 + i] == CookieChar(a[i]) && CookieOf(b)[14 + i] == CookieChar(b[i]);
      assert a[i] in a && b[i] in b;
    }
  }
}
