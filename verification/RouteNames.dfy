/** The names and paths the catalog, the publisher and the proxy agree on. */
module RouteNames {
  import opened Text

  function NormalizeRouteHost(value: string): string {
    Lower(Trim(value))
  }

  // Hosts collected in order: normalized, without blanks and repetitions.
  function Added(hosts: seq<string>, values: seq<string>): seq<string>
    decreases |values|
  {
    if values == [] then hosts
    else
      var host := NormalizeRouteHost(values[0]);
      Added(if host == "" || host in hosts then hosts else hosts + [host], values[1..])
  }

  lemma {:induction false} AddedMeaning(hosts: seq<string>, values: seq<string>, h: string)
    ensures h in Added(hosts, values) <==>
            h in hosts || exists v | v in values :: NormalizeRouteHost(v) == h && h != ""
    decreases |values|
  {
    hide NormalizeRouteHost;
    if values != [] {
      var host := NormalizeRouteHost(values[0]);
      AddedMeaning(if host == "" || host in hosts then hosts else hosts + [host], values[1..], h);
    }
  }

  predicate NoRepeats(hosts: seq<string>) {
    forall i, j | 0 <= i < j < |hosts| :: hosts[i] != hosts[j]
  }

  lemma {:induction false} AddedOnce(hosts: seq<string>, values: seq<string>)
    requires NoRepeats(hosts)
    ensures NoRepeats(Added(hosts, values)) && hosts <= Added(hosts, values)
    decreases |values|
  {
    hide NormalizeRouteHost;
    if values != [] {
      var host := NormalizeRouteHost(values[0]);
      AddedOnce(if host == "" || host in hosts then hosts else hosts + [host], values[1..]);
    }
  }

  // Collecting what is normal and new adds it as it is.
  lemma {:induction false} AddedAsIs(hosts: seq<string>, values: seq<string>)
    requires NoRepeats(values) && forall v | v in values :: v != "" && NormalizeRouteHost(v) == v && v !in hosts
    ensures Added(hosts, values) == hosts + values
    decreases |values|
  {
    hide NormalizeRouteHost;
    if values != [] {
      var v, rest := values[0], values[1..];
      assert v in values && forall w | w in rest :: w in values && w != v;
      AddedAsIs(hosts + [v], rest);
      assert hosts + [v] + rest == hosts + values;
    }
  }

  lemma AddedAreNormal(values: seq<string>)
    ensures forall v | v in Added([], values) :: v != "" && NormalizeRouteHost(v) == v
  {
    hide NormalizeRouteHost, Added;
    forall v | v in Added([], values) ensures v != "" && NormalizeRouteHost(v) == v {
      AddedMeaning([], values, v);
      var w :| w in values && NormalizeRouteHost(w) == v;
      NormalizeHostTwice(w);
    }
  }

  lemma AddedFirst(hosts: seq<string>, v: string, rest: seq<string>)
    ensures var host := NormalizeRouteHost(v);
      Added(hosts, [v] + rest) == Added(if host == "" || host in hosts then hosts else hosts + [host], rest)
  {
    hide NormalizeRouteHost;
    assert ([v] + rest)[1..] == rest;
  }

  // Collecting a list of hosts again, with its first one in front, changes nothing.
  lemma {:induction false} AddedAgain(primary: string, hosts: seq<string>)
    ensures var all := Added([], [primary] + hosts); Added([], [NormalizeRouteHost(primary)] + all) == all
  {
    hide NormalizeRouteHost, Added;
    var first, all := NormalizeRouteHost(primary), Added([], [primary] + hosts);
    NormalizeHostTwice(primary);
    AddedOnce([], [primary] + hosts);
    AddedAreNormal([primary] + hosts);
    AddedFirst([], first, all);
    AddedFirst([], primary, hosts);
    assert [] + [first] == [first] && [] + all == all;
    if first == "" {
      AddedAsIs([], all);
    } else {
      AddedOnce([first], hosts);
      var rest := all[1..];
      assert all == [first] + rest;
      NormalizeHostTwice(first);
      AddedFirst([first], first, rest);
      assert forall v | v in rest :: v in all;
      AddedAsIs([first], rest);
    }
  }

  // Collects hosts in a loop, remembering the ones seen.
  method CollectHosts(values: seq<string>) returns (hosts: seq<string>)
    ensures hosts == Added([], values)
  {
    hide NormalizeRouteHost;
    var seen: set<string> := {};
    hosts := [];
    assert values[0..] == values;
    for i := 0 to |values|
      invariant Added([], values) == Added(hosts, values[i..])
      invariant forall h :: h in seen <==> h in hosts
    {
      assert values[i..][0] == values[i] && values[i..][1..] == values[i + 1..];
      var host := NormalizeRouteHost(values[i]);
      if host == "" || host in seen { continue; }
      seen := seen + {host};
      hosts := hosts + [host];
    }
    assert values[|values|..] == [];
  }

  lemma {:induction false} NormalizeHostTwice(v: string)
    ensures NormalizeRouteHost(NormalizeRouteHost(v)) == NormalizeRouteHost(v)
  {
    var t := Trim(v);
    TrimIsSuffix(v);
    TrimRightShape(TrimLeft(v));
    if t != "" {
      assert t[0] == TrimLeft(v)[0];
      TrimmedEnds(Lower(t));
    }
    LowerTwice(t);
  }

  function TrimRightOf(s: string, c: char): string {
    if s != "" && s[|s| - 1] == c then TrimRightOf(s[..|s| - 1], c) else s
  }

  function TrimLeftOf(s: string, c: char): string {
    if s != "" && s[0] == c then TrimLeftOf(s[1..], c) else s
  }

  function NormalizeRoutePathPrefix(value: string): string {
    var trimmed := Trim(value);
    if trimmed == "" then "/"
    else
      var path := if HasPrefix(trimmed, "/") then trimmed else "/" + trimmed;
      if |path| > 1 && TrimRightOf(path, '/') == "" then "/"
      else if |path| > 1 then TrimRightOf(path, '/')
      else path
  }

  // A route prefix in normal form: from the root, and no slash or blank at the end.
  predicate IsRoutePrefix(p: string) {
    p == "/" || (|p| > 1 && p[0] == '/' && p[|p| - 1] != '/' && !IsSpace(p[|p| - 1]))
  }

  lemma {:induction false} TrimRightOfShape(s: string, c: char)
    ensures TrimRightOf(s, c) <= s
    ensures TrimRightOf(s, c) != "" ==> TrimRightOf(s, c)[|TrimRightOf(s, c)| - 1] != c
  {
    if s != "" && s[|s| - 1] == c { TrimRightOfShape(s[..|s| - 1], c); }
  }

  // Normal forms are exactly the prefixes that normalizing leaves alone.
  lemma {:induction false} PrefixNormalForm(p: string)
    ensures NormalizeRoutePathPrefix(p) == p <==> IsRoutePrefix(p)
  {
    var path := NormalizeRoutePathPrefix(p);
    TrimIsSuffix(p);
    TrimRightShape(TrimLeft(p));
    if IsRoutePrefix(p) {
      TrimmedEnds(p);
    } else if path == p {
      var t := Trim(p);
      var full := if HasPrefix(t, "/") then t else "/" + t;
      TrimRightOfShape(full, '/');
      TrimLengths(p);
    }
  }

  lemma {:induction false} TrimLengths(s: string)
    ensures |Trim(s)| <= |s|
    ensures |Trim(s)| == |s| ==> Trim(s) == s
  {
    TrimLeftLengths(s);
    TrimRightShape(TrimLeft(s));
  }

  lemma {:induction false} TrimLeftLengths(s: string)
    ensures |TrimLeft(s)| <= |s|
    ensures |TrimLeft(s)| == |s| ==> TrimLeft(s) == s
  {
    if s != "" && IsSpace(s[0]) { TrimLeftLengths(s[1..]); }
  }

  // A prefix is normalized by trimming it, starting it at the root, and cutting the slashes at its
  // end; only slashes make the root.
  lemma {:induction false} PrefixIs(value: string)
    ensures var p, t := NormalizeRoutePathPrefix(value), Trim(value);
      var full := if t != "" && t[0] == '/' then t else "/" + t;
      if forall c | c in full :: c == '/' then p == "/"
      else p != "" && p <= full && p[|p| - 1] != '/' && forall i | |p| <= i < |full| :: full[i] == '/'
  {
    var t := Trim(value);
    var full := if t != "" && t[0] == '/' then t else "/" + t;
    SlashesCut(full);
    hide Trim;
  }

  lemma {:induction false} SlashesCut(s: string)
    ensures TrimRightOf(s, '/') <= s && forall i | |TrimRightOf(s, '/')| <= i < |s| :: s[i] == '/'
    ensures TrimRightOf(s, '/') != "" ==> TrimRightOf(s, '/')[|TrimRightOf(s, '/')| - 1] != '/'
    ensures TrimRightOf(s, '/') == "" <==> forall c | c in s :: c == '/'
  {
    if s != "" && s[|s| - 1] == '/' {
      SlashesCut(s[..|s| - 1]);
      var init := s[..|s| - 1];
      forall c | c in s ensures c in init || c == '/' {
        var i :| 0 <= i < |s| && s[i] == c;
        if i < |init| { assert init[i] == c; }
      }
      assert forall c | c in init :: c in s;
    } else if s != "" {
      assert s[|s| - 1] in s;
    }
  }

  function StickyPath(prefix: string, suffix: string): string {
    var p := NormalizeRoutePathPrefix(prefix);
    if p == "/" then suffix else p + suffix
  }

  function NormalizePath(prefix: string): string {
    StickyPath(prefix, "/__ep/normalize")
  }

  function BetaPath(prefix: string): string {
    StickyPath(prefix, "/__ep/beta")
  }

  function CookieChars(s: string): string {
    if s == "" then ""
    else [if 'a' <= s[0] <= 'z' || '0' <= s[0] <= '9' then s[0] else '_'] + CookieChars(s[1..])
  }

  function StickyCookieName(key: string): string {
    var normalized := Lower(Trim(key));
    var chars := CookieChars(if normalized == "" then "service" else normalized);
    "ep_release_id_" + TrimRightOf(TrimLeftOf(chars, '_'), '_')
  }

  function BackendNameForRelease(service: string, release: string): string {
    var svc, rel := Without(service, '-'), Without(Trim(release), '-');
    if svc == "" || rel == "" then "" else "be_" + svc + "_" + rel
  }

  function TcpBackendNameForRelease(service: string, release: string, port: int): string {
    var svc, rel := Without(service, '-'), Without(Trim(release), '-');
    if svc == "" || rel == "" || port <= 0 then "" else "tcp_" + svc + "_" + rel + "_" + Itoa(port)
  }

  // A backend has a name exactly if its service and its release have, and a port if it needs one.
  lemma NamelessBackends(service: string, release: string, port: int)
    ensures BackendNameForRelease(service, release) == "" <==>
              Without(service, '-') == "" || Without(Trim(release), '-') == ""
    ensures TcpBackendNameForRelease(service, release, port) == "" <==>
              Without(service, '-') == "" || Without(Trim(release), '-') == "" || port <= 0
  {
    hide Without, Trim, Itoa;
  }

  function TcpFrontendName(port: nat): string {
    "ep_tcp_" + Itoa(port)
  }

  function TcpUnavailableBackendName(port: nat): string {
    "ep_tcp_unavailable_" + Itoa(port)
  }

  const DEFAULT_BACKEND := "ep_default"
  const NORMALIZE_BACKEND := "ep_normalize"
}
