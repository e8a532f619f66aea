/** The shared HTTP frontend: the ACLs and switching rules emitted for a snapshot, what the proxy
    does with them, and where a request should go. */
module Router {
  import opened Wrappers
  import opened Text
  import opened RouteNames
  import M = ReleaseModel

  // ---------------------------------------------------------------- snapshots and requests

  datatype TcpPort = TcpPort(
    listenPort: int, containerPort: int, idleTimeoutSecond: int,
    liveBackendName: string, candidateBackendName: string)

  datatype Service = Service(
    id: string, key: string, routeHost: string, routeHosts: seq<string>, prefix: string,
    liveReleaseId: string, liveBackendName: string,
    candidateReleaseId: string, candidateBackendName: string, percent: int,
    liveSlot: M.Slot, containerPort: int, tcpPorts: seq<TcpPort>)
  {
    function LiveRelease(): string { Trim(liveReleaseId) }
    function CandidateRelease(): string { Trim(candidateReleaseId) }
    function Live(): string { Trim(liveBackendName) }
    function Candidate(): string { Trim(candidateBackendName) }
    function Percent(): int { Clamp(percent) }
    function Cookie(): string { StickyCookieName(key) }
  }

  function Clamp(percent: int): (p: int)
    ensures 0 <= p <= 100
  {
    if percent < 0 then 0 else if percent > 100 then 100 else percent
  }

  // The nearest percentage.
  lemma ClampIsNearest(percent: int, p: int)
    requires 0 <= p <= 100
    ensures (if percent < Clamp(percent) then Clamp(percent) - percent else percent - Clamp(percent))
            <= (if percent < p then p - percent else percent - p)
  {
  }

  // The first value of the preview parameter, and the cookies by name.
  datatype Request = Request(host: string, path: string, query: Option<string>, cookies: map<string, string>)

  function RouteHosts(s: Service): seq<string> {
    Added([], [s.routeHost] + s.routeHosts)
  }

  // ---------------------------------------------------------------- ACLs and rules

  datatype Criterion =
    | StaticAsset
    | HostIs(hosts: seq<string>)
    | PathBegins(prefixes: seq<string>)
    | PathIs(values: seq<string>)
    | QueryIs(values: seq<string>)
    | CookieIs(cookie: string, values: seq<string>)
    | DrawBelow(limit: int)

  datatype Acl = Acl(name: string, criterion: Criterion)

  datatype Literal = Literal(positive: bool, acl: string)

  datatype Rule = Rule(backend: string, test: seq<Literal>)

  datatype Section = Section(acls: seq<Acl>, rules: seq<Rule>)

  const ASSET_SUFFIXES := [
    "avif", "bmp", "css", "eot", "gif", "ico", "jpeg", "jpg", "js", "m4a", "map", "mjs", "mp3", "mp4",
    "ogg", "otf", "png", "svg", "ttf", "wasm", "wav", "webm", "webmanifest", "webp", "woff", "woff2"]

  predicate EndsWith(s: string, suffix: string) {
    |suffix| <= |s| && s[|s| - |suffix|..] == suffix
  }

  // Equal to one of the values, letter case aside.
  predicate OneOf(value: string, values: seq<string>) {
    exists i | 0 <= i < |values| :: Lower(value) == Lower(values[i])
  }

  predicate Meets(c: Criterion, req: Request, draw: int) {
    match c
    case StaticAsset => exists i | 0 <= i < |ASSET_SUFFIXES| :: EndsWith(Lower(req.path), "." + ASSET_SUFFIXES[i])
    case HostIs(hosts) => OneOf(req.host, hosts)
    case PathBegins(prefixes) => exists i | 0 <= i < |prefixes| :: HasPrefix(req.path, prefixes[i])
    case PathIs(values) => OneOf(req.path, values)
    case QueryIs(values) => req.query.Some? && OneOf(req.query.value, values)
    case CookieIs(cookie, values) => cookie in req.cookies && OneOf(req.cookies[cookie], values)
    case DrawBelow(limit) => draw < limit
  }

  // ACLs of one name are alternatives.
  predicate Holds(acls: seq<Acl>, name: string, req: Request, draw: int) {
    exists a | a in acls :: a.name == name && Meets(a.criterion, req, draw)
  }

  predicate Passes(acls: seq<Acl>, test: seq<Literal>, req: Request, draw: int) {
    forall i | 0 <= i < |test| :: Holds(acls, test[i].acl, req, draw) == test[i].positive
  }

  // The first rule whose test passes; every rule draws its own number.
  function FirstRule(acls: seq<Acl>, rules: seq<Rule>, req: Request, draws: nat -> int, n: nat): Option<string> {
    if rules == [] then None
    else if Passes(acls, rules[0].test, req, draws(n)) then Some(rules[0].backend)
    else FirstRule(acls, rules[1..], req, draws, n + 1)
  }

  function Evaluate(section: Section, req: Request, draws: nat -> int, default: string): string {
    match FirstRule(section.acls, section.rules, req, draws, 0)
    case Some(backend) => backend
    case None => default
  }

  // ---------------------------------------------------------------- the compiler

  datatype Suffix =
    | OnHost | OnPath | OnNormalize | OnBeta | QueryLive | QueryCandidate | CookieLive | CookieCandidate | Split
  {
    function Text(): string {
      match this
      case OnHost => "host"
      case OnPath => "path"
      case OnNormalize => "normalize_path"
      case OnBeta => "beta_path"
      case QueryLive => "query_live"
      case QueryCandidate => "query_candidate"
      case CookieLive => "cookie_live"
      case CookieCandidate => "cookie_candidate"
      case Split => "split_candidate"
    }
  }

  function NameChar(c: char): char {
    if c == '/' || c == '-' || c == '.' || c == ' ' then '_' else c
  }

  function NameChars(s: string): string {
    seq(|s|, i requires 0 <= i < |s| => NameChar(s[i]))
  }

  function AclName(id: string, suffix: Suffix): string {
    var name := NameChars(Trim(id));
    (if name == "" then "service" else name) + "_" + suffix.Text()
  }

  const STATIC_ASSET_ACL := Acl("ep_static_asset_path", StaticAsset)

  // No request carries this value.
  const INVALID := "__edge_pilot_invalid__"

  // A word with a leading dash is a flag to the proxy.
  predicate Flag(w: string) {
    w != "" && w[0] == '-'
  }

  // The values among the words of an ACL: what follows its flags.
  function Patterns(words: seq<string>): seq<string> {
    if words != [] && Flag(words[0]) then Patterns(words[1..]) else words
  }

  // The values the proxy reads in the text it is given.
  function ExactValue(text: string): seq<string> {
    Patterns(Fields(if Trim(text) == "" then INVALID else Trim(text)))
  }

  function HostText(s: Service): string {
    if RouteHosts(s) == [] then "" else Join(RouteHosts(s), ' ')
  }

  function CriterionOf(s: Service, suffix: Suffix): Criterion {
    match suffix
    case OnHost => HostIs(ExactValue(HostText(s)))
    case OnPath => PathBegins(Patterns(Fields(s.prefix)))
    case OnNormalize => PathIs(ExactValue(NormalizePath(s.prefix)))
    case OnBeta => PathIs(ExactValue(BetaPath(s.prefix)))
    case QueryLive => QueryIs(ExactValue(s.LiveRelease()))
    case QueryCandidate => QueryIs(ExactValue(s.CandidateRelease()))
    case CookieLive => CookieIs(s.Cookie(), ExactValue(s.LiveRelease()))
    case CookieCandidate => CookieIs(s.Cookie(), ExactValue(s.CandidateRelease()))
    case Split => DrawBelow(s.Percent())
  }

  function AclOf(s: Service, suffix: Suffix): Acl {
    Acl(AclName(s.id, suffix), CriterionOf(s, suffix))
  }

  predicate HasSplit(s: Service) {
    s.Live() != "" && s.Candidate() != "" && 0 < s.Percent() < 100
  }

  function ServiceAcls(s: Service): seq<Acl> {
    [AclOf(s, OnHost), AclOf(s, OnPath), AclOf(s, OnNormalize), AclOf(s, OnBeta),
     AclOf(s, QueryLive), AclOf(s, QueryCandidate), AclOf(s, CookieLive), AclOf(s, CookieCandidate)]
    + if HasSplit(s) then [AclOf(s, Split)] else []
  }

  function If(s: Service, suffix: Suffix): Literal { Literal(true, AclName(s.id, suffix)) }

  function Unless(s: Service, suffix: Suffix): Literal { Literal(false, AclName(s.id, suffix)) }

  // A rule without a backend is not emitted.
  function RuleFor(backend: string, test: seq<Literal>): seq<Rule> {
    if backend == "" then [] else [Rule(backend, test)]
  }

  function Base(s: Service): seq<Literal> {
    [If(s, OnHost), If(s, OnPath)]
  }

  function NoQuery(s: Service): seq<Literal> {
    [Unless(s, QueryLive), Unless(s, QueryCandidate)]
  }

  function NoOverride(s: Service): seq<Literal> {
    Base(s) + [Unless(s, OnNormalize), Unless(s, OnBeta)] + NoQuery(s) + [Unless(s, CookieLive)]
    + if s.Percent() > 0 then [Unless(s, CookieCandidate)] else []
  }

  function StickyRules(s: Service): seq<Rule> {
    (if s.LiveRelease() != "" then [Rule(NORMALIZE_BACKEND, Base(s) + [If(s, OnNormalize)])] else [])
    + [Rule(NORMALIZE_BACKEND, Base(s) + [If(s, OnBeta)])]
    + RuleFor(s.Candidate(), Base(s) + [If(s, QueryCandidate)])
    + RuleFor(s.Live(), Base(s) + [If(s, QueryLive)])
    + (if s.Percent() > 0 then RuleFor(s.Candidate(), Base(s) + NoQuery(s) + [If(s, CookieCandidate)]) else [])
    + RuleFor(s.Live(), Base(s) + NoQuery(s) + [If(s, CookieLive)])
  }

  function SplitRules(s: Service): seq<Rule> {
    if s.Live() == "" then RuleFor(s.Candidate(), NoOverride(s))
    else if s.Candidate() == "" then RuleFor(s.Live(), NoOverride(s))
    else if s.Percent() <= 0 then
      (if s.CandidateRelease() == "" then []
       else RuleFor(s.Candidate(), Base(s) + NoQuery(s) + [If(s, CookieCandidate)]))
      + RuleFor(s.Live(), NoOverride(s))
    else if s.Percent() >= 100 then RuleFor(s.Candidate(), NoOverride(s))
    else
      RuleFor(s.Candidate(), NoOverride(s) + [If(s, Split)]) + RuleFor(s.Live(), NoOverride(s) + [Unless(s, Split)])
  }

  function ServiceRules(s: Service): seq<Rule> {
    StickyRules(s) + SplitRules(s)
  }

  function AclsOf(services: seq<Service>): seq<Acl> {
    if services == [] then [] else ServiceAcls(services[0]) + AclsOf(services[1..])
  }

  function RulesOf(services: seq<Service>): seq<Rule> {
    if services == [] then [] else ServiceRules(services[0]) + RulesOf(services[1..])
  }

  // The section for services in the order given.
  function Compiled(services: seq<Service>): Section {
    Section([STATIC_ASSET_ACL] + AclsOf(services), RulesOf(services))
  }

  // Longer prefixes first, then by host and key.
  predicate Precedes(n1: nat, host1: string, key1: string, n2: nat, host2: string, key2: string) {
    if n1 != n2 then n1 > n2
    else if host1 != host2 then LexLeq(host1, host2)
    else LexLeq(key1, key2)
  }

  // The order of emission.
  predicate Before(a: Service, b: Service) {
    Precedes(|a.prefix|, HostKey(a), a.key, |b.prefix|, HostKey(b), b.key)
  }

  function HostKey(s: Service): string {
    if RouteHosts(s) == [] then "" else RouteHosts(s)[0]
  }

  // ---------------------------------------------------------------- where a request should go

  predicate Serves(s: Service, req: Request) {
    (exists h | h in [s.routeHost] + s.routeHosts :: NormalizeRouteHost(h) != ""
        && NormalizeRouteHost(h) == Lower(req.host))
    && HasPrefix(req.path, s.prefix)
  }

  predicate QueryNames(req: Request, release: string) {
    release != "" && req.query.Some? && Lower(req.query.value) == Lower(release)
  }

  predicate CookieNames(s: Service, req: Request, release: string) {
    release != "" && s.Cookie() in req.cookies && Lower(req.cookies[s.Cookie()]) == Lower(release)
  }

  // Where a service sends a request it serves, if anywhere: its own paths, then the release the
  // query asks for, then the release the cookie remembers, then the split.
  function Choose(s: Service, req: Request, draw: int): Option<string> {
    var atNormalize := Lower(req.path) == Lower(NormalizePath(s.prefix));
    var remembersLive := CookieNames(s, req, s.LiveRelease());
    if Lower(req.path) == Lower(BetaPath(s.prefix)) || (atNormalize && s.Live() != "") then Some(NORMALIZE_BACKEND)
    else if QueryNames(req, s.CandidateRelease()) then Some(s.Candidate())
    else if QueryNames(req, s.LiveRelease()) then Some(s.Live())
    else if CookieNames(s, req, s.CandidateRelease()) && (s.Percent() > 0 || (s.Live() != "" && !remembersLive)) then
      Some(s.Candidate())
    else if remembersLive then Some(s.Live())
    else if s.Live() == "" then
      if s.Candidate() == "" || atNormalize then None else Some(s.Candidate())
    else if s.Candidate() == "" || s.Percent() == 0 then Some(s.Live())
    else if s.Percent() == 100 || draw < s.Percent() then Some(s.Candidate())
    else Some(s.Live())
  }

  function Decision(s: Service, req: Request, draw: int): Option<string> {
    if Serves(s, req) then Choose(s, req, draw) else None
  }

  // The service with the longest prefix among those that send the request anywhere decides.
  ghost predicate Routes(services: multiset<Service>, req: Request, draw: int, backend: string) {
    || (backend == DEFAULT_BACKEND && forall s | s in services :: Decision(s, req, draw).None?)
    || exists s | s in services ::
         && Decision(s, req, draw) == Some(backend)
         && forall t | t in services && Decision(t, req, draw).Some? :: |t.prefix| <= |s.prefix|
  }

  // ---------------------------------------------------------------- assumptions on a snapshot

  // A backend is named exactly when its release is.
  predicate Consistent(s: Service) {
    && (s.Live() == "" <==> s.LiveRelease() == "")
    && (s.Candidate() == "" <==> s.CandidateRelease() == "")
  }

  predicate UuidLike(id: string) {
    |id| == 36 && forall c | c in id :: c == '-' || '0' <= c <= '9' || 'a' <= c <= 'f'
  }

  // No two services claim the same prefix of the same host.
  predicate UniqueRoutes(services: seq<Service>) {
    forall i, j | 0 <= i < j < |services| ::
      services[i].prefix == services[j].prefix ==>
        forall h | h in RouteHosts(services[i]) :: h !in RouteHosts(services[j])
  }

  predicate DistinctIds(services: seq<Service>) {
    forall i, j | 0 <= i < j < |services| :: services[i].id != services[j].id
  }

  // Without the quotes, backslashes and comment signs of the proxy's language.
  predicate Unquoted(w: string) {
    forall c | c in w :: c != '"' && c != '\'' && c != '\\' && c != '#'
  }

  // One word that stands for itself.
  predicate Plain(w: string) {
    NoSpace(w) && Unquoted(w)
  }

  predicate PlainHosts(hosts: seq<string>) {
    (forall h | h in hosts :: Plain(h)) && (hosts != [] ==> !Flag(hosts[0]))
  }

  // What is emitted for the service is read back as it was meant.
  predicate Readable(s: Service) {
    && PlainHosts(RouteHosts(s))
    && s.prefix != "" && Plain(s.prefix) && !Flag(s.prefix)
    && Plain(s.LiveRelease()) && !Flag(s.LiveRelease())
    && Plain(s.CandidateRelease()) && !Flag(s.CandidateRelease())
  }

  // Ids that make ACL names, backends named with their releases, and texts the proxy reads as meant.
  predicate WellNamed(services: seq<Service>) {
    (forall s | s in services :: UuidLike(s.id) && Consistent(s) && Readable(s)) && DistinctIds(services)
  }

  predicate GoodSnapshot(services: seq<Service>) {
    WellNamed(services) && UniqueRoutes(services)
  }

  predicate NoSentinel(req: Request) {
    && Lower(req.host) != INVALID
    && (req.query.Some? ==> Lower(req.query.value) != INVALID)
    && forall k | k in req.cookies :: Lower(req.cookies[k]) != INVALID
  }
}
