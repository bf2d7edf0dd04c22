/** Host selection of src/modules/router-http.js: the routes of a listener are
    grouped by full host name and by wildcard suffix, and a request goes to the
    most specific group. */
module Hosts {
  import opened Sequences
  import opened Matching

  /** A route resource, with its `spec.hostnames`. */
  datatype Route = Route(id: nat, hostnames: Option<seq<string>>)

  predicate IsSpace(c: char) {
    c == ' ' || c == '\t' || c == '\n' || c == '\r' || c == '\U{0B}' || c == '\U{0C}'
  }

  function TrimLeft(s: string): string {
    if s != "" && IsSpace(s[0]) then TrimLeft(s[1..]) else s
  }

  function TrimRight(s: string): string {
    if s != "" && IsSpace(s[|s| - 1]) then TrimRight(s[..|s| - 1]) else s
  }

  /** `name.trim().toLowerCase()`. */
  function Normal(name: string): string {
    Lower(TrimRight(TrimLeft(name)))
  }

  /** What a host name stands for: a full name, or every name with a suffix. */
  datatype Pattern = Full(name: string) | Suffix(postfix: string)

  function PatternOf(name: string): Pattern {
    var n := Normal(name);
    if n != "" && n[0] == '*' then Suffix(n[1..]) else Full(n)
  }

  /** `r.spec.hostnames || ['*']`. */
  function HostnamesOf(r: Route): seq<string> {
    if r.hostnames.Some? then r.hostnames.value else ["*"]
  }

  /** The route once for each of these host names that spells the pattern. */
  function ClaimsOf(r: Route, names: seq<string>, p: Pattern): seq<Route> {
    if names == [] then []
    else ClaimsOf(r, names[..|names| - 1], p) + if PatternOf(names[|names| - 1]) == p then [r] else []
  }

  /** All routes naming the pattern, in declaration order. */
  function Claims(routes: seq<Route>, p: Pattern): seq<Route> {
    if routes == [] then []
    else Claims(routes[..|routes| - 1], p) + ClaimsOf(routes[|routes| - 1], HostnamesOf(routes[|routes| - 1]), p)
  }

  // ---------------------------------------------------------------- reference

  /** Some route claims every host with the suffix that starts at i. */
  predicate Claimed(routes: seq<Route>, host: string, i: nat)
    requires i <= |host|
  {
    Claims(routes, Suffix(host[i..])) != []
  }

  /** Where the longest claimed suffix of the host that starts at k or later
      begins; past the end if there is none. */
  function LongestClaimed(routes: seq<Route>, host: string, k: nat): (i: nat)
    requires k <= |host|
    ensures k <= i <= |host| + 1
    ensures i <= |host| ==> Claimed(routes, host, i)
    ensures forall j :: k <= j < i && j <= |host| ==> !Claimed(routes, host, j)
    decreases |host| - k
  {
    if Claimed(routes, host, k) then k
    else if k == |host| then |host| + 1
    else LongestClaimed(routes, host, k + 1)
  }

  /** The most specific group for a host: the routes naming it in full, else
      those claiming its longest claimed suffix. */
  function MostSpecific(routes: seq<Route>, host: string): Option<seq<Route>> {
    var i := LongestClaimed(routes, host, 0);
    if Claims(routes, Full(host)) != [] then Some(Claims(routes, Full(host)))
    else if i <= |host| then Some(Claims(routes, Suffix(host[i..])))
    else None
  }

  // ------------------------------------------------------------------- tables

  type Groups = map<string, seq<Route>>

  /** The two dictionaries `hostFullnames` and `hostPostfixes`. */
  datatype HostTables = HostTables(full: Groups, postfixes: Groups)

  function DictOf(t: HostTables, p: Pattern): Groups {
    match p
    case Full(_) => t.full
    case Suffix(_) => t.postfixes
  }

  function NameOf(p: Pattern): string {
    match p
    case Full(name) => name
    case Suffix(postfix) => postfix
  }

  /** The routes collected for a pattern. */
  function GroupAt(t: HostTables, p: Pattern): seq<Route> {
    if NameOf(p) in DictOf(t, p) then DictOf(t, p)[NameOf(p)] else []
  }

  /** The tables hold exactly the claims, and no empty group. */
  ghost predicate TablesOf(routes: seq<Route>, t: HostTables) {
    && (forall p :: GroupAt(t, p) == Claims(routes, p))
    && (forall p :: NameOf(p) in DictOf(t, p) ==> GroupAt(t, p) != [])
  }

  /** The tables while the host names of one more route are being added. */
  ghost predicate TablesWith(routes: seq<Route>, r: Route, names: seq<string>, t: HostTables) {
    && (forall p :: GroupAt(t, p) == Claims(routes, p) + ClaimsOf(r, names, p))
    && (forall p :: NameOf(p) in DictOf(t, p) ==> GroupAt(t, p) != [])
  }

  /** `(dict[name] ??= []).push(r)`. */
  function Joined(g: Groups, name: string, r: Route): Groups {
    g[name := (if name in g then g[name] else []) + [r]]
  }

  lemma JoinedAt(t: HostTables, t': HostTables, p: Pattern, r: Route, q: Pattern)
    requires t' == if p.Full? then t.(full := Joined(t.full, NameOf(p), r))
      else t.(postfixes := Joined(t.postfixes, NameOf(p), r))
    ensures GroupAt(t', q) == GroupAt(t, q) + if q == p then [r] else []
    ensures NameOf(q) in DictOf(t', q) <==> NameOf(q) in DictOf(t, q) || q == p
  {
  }

  lemma OneMoreClaim(r: Route, names: seq<string>, name: string, q: Pattern)
    ensures ClaimsOf(r, names + [name], q) == ClaimsOf(r, names, q) + if q == PatternOf(name) then [r] else []
  {
    assert (names + [name])[..|names|] == names;
  }

  lemma OneMoreGroup(
      routes: seq<Route>, r: Route, names: seq<string>, names': seq<string>, p: Pattern, t: HostTables, t': HostTables)
    requires TablesWith(routes, r, names, t)
    requires forall q :: ClaimsOf(r, names', q) == ClaimsOf(r, names, q) + if q == p then [r] else []
    requires t' == if p.Full? then t.(full := Joined(t.full, NameOf(p), r))
      else t.(postfixes := Joined(t.postfixes, NameOf(p), r))
    ensures TablesWith(routes, r, names', t')
  {
    forall q
      ensures GroupAt(t', q) == Claims(routes, q) + ClaimsOf(r, names', q)
      ensures NameOf(q) in DictOf(t', q) ==> GroupAt(t', q) != []
    {
      JoinedAt(t, t', p, r, q);
    }
  }

  lemma OneMoreName(routes: seq<Route>, r: Route, names: seq<string>, name: string, t: HostTables, t': HostTables)
    requires TablesWith(routes, r, names, t)
    requires var p := PatternOf(name);
      t' == if p.Full? then t.(full := Joined(t.full, NameOf(p), r))
        else t.(postfixes := Joined(t.postfixes, NameOf(p), r))
    ensures TablesWith(routes, r, names + [name], t')
  {
    forall q
      ensures ClaimsOf(r, names + [name], q) == ClaimsOf(r, names, q) + if q == PatternOf(name) then [r] else []
    {
      OneMoreClaim(r, names, name, q);
    }
    OneMoreGroup(routes, r, names, names + [name], PatternOf(name), t, t');
  }

  method AddRoute(routes: seq<Route>, r: Route, t: HostTables) returns (t': HostTables)
    requires TablesOf(routes, t)
    ensures TablesWith(routes, r, HostnamesOf(r), t')
  {
    t' := t;
    var names := HostnamesOf(r);
    assert TablesWith(routes, r, names[..0], t');
    for i := 0 to |names|
      invariant TablesWith(routes, r, names[..i], t')
    {
      ghost var t0 := t';
      var name := Normal(names[i]);
      if name != "" && name[0] == '*' {
        t' := t'.(postfixes := Joined(t'.postfixes, name[1..], r));
      } else {
        t' := t'.(full := Joined(t'.full, name, r));
      }
      OneMoreName(routes, r, names[..i], names[i], t0, t');
      assert names[..i] + [names[i]] == names[..i + 1];
    }
    assert names[..|names|] == names;
  }

  lemma RouteAdded(routes: seq<Route>, r: Route, t: HostTables)
    requires TablesWith(routes, r, HostnamesOf(r), t)
    ensures TablesOf(routes + [r], t)
  {
    assert (routes + [r])[..|routes|] == routes;
  }

  method BuildTables(routes: seq<Route>) returns (t: HostTables)
    ensures TablesOf(routes, t)
  {
    t := HostTables(map[], map[]);
    for i := 0 to |routes|
      invariant TablesOf(routes[..i], t)
    {
      t := AddRoute(routes[..i], routes[i], t);
      RouteAdded(routes[..i], routes[i], t);
      assert routes[..i] + [routes[i]] == routes[..i + 1];
    }
    assert routes[..|routes|] == routes;
  }

  datatype PostfixEntry = PostfixEntry(postfix: string, routes: seq<Route>)

  /** The entries of the suffix groups, longest suffix first. */
  ghost predicate LongestFirst(list: seq<PostfixEntry>, postfixes: Groups) {
    && (forall i, j :: 0 <= i < j < |list| ==> |list[i].postfix| >= |list[j].postfix|)
    && (forall e :: e in list ==> e.postfix in postfixes && e.routes == postfixes[e.postfix])
    && (forall name :: name in postfixes ==> PostfixEntry(name, postfixes[name]) in list)
  }

  /** `Object.entries(hostPostfixes).sort(...)`, whatever order the entries come in. */
  method SortPostfixes(postfixes: Groups) returns (list: seq<PostfixEntry>)
    ensures LongestFirst(list, postfixes)
  {
    list := [];
    var names := postfixes.Keys;
    ghost var done: Groups := map[];
    while names != {}
      invariant names !! done.Keys && names + done.Keys == postfixes.Keys
      invariant forall name :: name in done ==> done[name] == postfixes[name]
      invariant LongestFirst(list, done)
      decreases names
    {
      var name :| name in names;
      var e := PostfixEntry(name, postfixes[name]);
      var k := PositionFor(list, name);
      InsertedLongestFirst(list, done, e, k);
      list := Insert(list, k, e);
      done := done[name := postfixes[name]];
      names := names - {name};
    }
    assert done == postfixes;
  }

  method PositionFor(list: seq<PostfixEntry>, name: string) returns (k: nat)
    ensures k <= |list|
    ensures forall j :: 0 <= j < k ==> |list[j].postfix| >= |name|
    ensures k < |list| ==> |list[k].postfix| < |name|
  {
    k := 0;
    while k < |list| && |list[k].postfix| >= |name|
      invariant k <= |list|
      invariant forall j :: 0 <= j < k ==> |list[j].postfix| >= |name|
    {
      k := k + 1;
    }
  }

  lemma InsertedLongestFirst(list: seq<PostfixEntry>, postfixes: Groups, e: PostfixEntry, k: nat)
    requires LongestFirst(list, postfixes) && e.postfix !in postfixes && k <= |list|
    requires forall j :: 0 <= j < k ==> |list[j].postfix| >= |e.postfix|
    requires k < |list| ==> |list[k].postfix| < |e.postfix|
    ensures LongestFirst(Insert(list, k, e), postfixes[e.postfix := e.routes])
  {
    var postfixes' := postfixes[e.postfix := e.routes];
    forall name | name in postfixes'
      ensures PostfixEntry(name, postfixes'[name]) in Insert(list, k, e)
    {
      if name != e.postfix { assert PostfixEntry(name, postfixes[name]) in list; }
    }
  }

  /** The first entry whose suffix the host ends with. */
  function FindPostfix(list: seq<PostfixEntry>, host: string): Option<PostfixEntry> {
    First(list, (e: PostfixEntry) => EndsWith(host, e.postfix))
  }

  /** Any other entry whose suffix the host ends with has a shorter suffix. */
  lemma {:induction false} FoundPostfixIsLongest(list: seq<PostfixEntry>, host: string, name: string)
    requires (forall i, j :: 0 <= i < j < |list| ==> |list[i].postfix| >= |list[j].postfix|)
    requires exists e :: e in list && e.postfix == name
    requires EndsWith(host, name)
    ensures FindPostfix(list, host).Some? && |FindPostfix(list, host).value.postfix| >= |name|
  {
    var e :| e in list && e.postfix == name;
    if !EndsWith(host, list[0].postfix) {
      assert e in list[1..];
      FoundPostfixIsLongest(list[1..], host, name);
    }
  }

  /** An entry found for the host claims a suffix of it. */
  lemma FoundPostfixIsClaimed(routes: seq<Route>, t: HostTables, list: seq<PostfixEntry>, host: string)
    requires TablesOf(routes, t) && LongestFirst(list, t.postfixes) && FindPostfix(list, host).Some?
    ensures var e := FindPostfix(list, host).value;
      |e.postfix| <= |host| && Claimed(routes, host, |host| - |e.postfix|) &&
      Claims(routes, Suffix(host[|host| - |e.postfix|..])) == e.routes
  {
    var e := FindPostfix(list, host).value;
    var p := Suffix(e.postfix);
    assert NameOf(p) in DictOf(t, p) && GroupAt(t, p) == e.routes && GroupAt(t, p) == Claims(routes, p);
    assert host[|host| - |e.postfix|..] == e.postfix;
  }

  lemma ClaimedSuffixIsFound(routes: seq<Route>, t: HostTables, list: seq<PostfixEntry>, host: string, k: nat)
    requires TablesOf(routes, t) && LongestFirst(list, t.postfixes)
    requires k <= |host| && Claimed(routes, host, k)
    ensures FindPostfix(list, host).Some? && |FindPostfix(list, host).value.postfix| >= |host| - k
  {
    var p := Suffix(host[k..]);
    assert GroupAt(t, p) == Claims(routes, p);
    assert PostfixEntry(NameOf(p), t.postfixes[NameOf(p)]) in list;
    FoundPostfixIsLongest(list, host, host[k..]);
  }

  lemma LongestClaimedIs(routes: seq<Route>, host: string, i: nat)
    requires i <= |host| && Claimed(routes, host, i)
    requires forall k :: 0 <= k <= |host| && Claimed(routes, host, k) ==> i <= k
    ensures LongestClaimed(routes, host, 0) == i
  {
    var k := LongestClaimed(routes, host, 0);
    assert k <= |host| ==> Claimed(routes, host, k);
  }

  /** An entry that claims a suffix of the host, no shorter than any claimed
      suffix, carries the routes of the longest one. */
  lemma PickIsLongest(routes: seq<Route>, host: string, found: Option<PostfixEntry>)
    requires found.Some? ==> |found.value.postfix| <= |host| && Claimed(routes, host, |host| - |found.value.postfix|)
    requires forall k :: 0 <= k <= |host| && Claimed(routes, host, k) ==>
      found.Some? && |host| - |found.value.postfix| <= k
    ensures var k := LongestClaimed(routes, host, 0);
      if found.Some? then k == |host| - |found.value.postfix| else k == |host| + 1
  {
    var k := LongestClaimed(routes, host, 0);
    if found.Some? { LongestClaimedIs(routes, host, |host| - |found.value.postfix|); }
    assert k <= |host| ==> Claimed(routes, host, k);
  }

  /** The suffix lookup picks the longest claimed suffix of the host. */
  lemma SuffixLookup(
      routes: seq<Route>, t: HostTables, list: seq<PostfixEntry>, host: string, found: Option<PostfixEntry>)
    requires TablesOf(routes, t) && LongestFirst(list, t.postfixes) && found == FindPostfix(list, host)
    ensures var k := LongestClaimed(routes, host, 0);
      if found.Some? then k == |host| - |found.value.postfix| else k == |host| + 1
  {
    if found.Some? { FoundPostfixIsClaimed(routes, t, list, host); }
    forall k | 0 <= k <= |host| && Claimed(routes, host, k)
      ensures found.Some? && |host| - |found.value.postfix| <= k
    {
      ClaimedSuffixIsFound(routes, t, list, host, k);
    }
    PickIsLongest(routes, host, found);
  }

  /** The lookup picks the group of the most specific pattern of the host. */
  lemma LookupIsMostSpecific(routes: seq<Route>, t: HostTables, list: seq<PostfixEntry>, host: string)
    requires TablesOf(routes, t) && LongestFirst(list, t.postfixes)
    ensures MostSpecific(routes, host) ==
      if host in t.full then Some(t.full[host])
      else if FindPostfix(list, host).Some? then Some(FindPostfix(list, host).value.routes) else None
  {
    var found := FindPostfix(list, host);
    assert GroupAt(t, Full(host)) == Claims(routes, Full(host));
    assert NameOf(Full(host)) in DictOf(t, Full(host)) ==> GroupAt(t, Full(host)) != [];
    SuffixLookup(routes, t, list, host, found);
    if found.Some? { FoundPostfixIsClaimed(routes, t, list, host); }
  }

  // ----------------------------------------------------------------- requests

  /** `lastIndexOf`, or -1. */
  function LastIndexOf(s: string, c: char): (i: int)
    ensures -1 <= i < |s|
    ensures i >= 0 ==> s[i] == c
    ensures forall j :: i < j < |s| ==> s[j] != c
  {
    if s == "" then -1 else if s[|s| - 1] == c then |s| - 1 else LastIndexOf(s[..|s| - 1], c)
  }

  /** The host header in lower case, cut before its last colon. */
  function HostOf(header: string): string {
    var h := Lower(header);
    if LastIndexOf(h, ':') >= 0 then h[..LastIndexOf(h, ':')] else h
  }

  /** A host name followed by a port loses exactly the port. */
  lemma PortIsCut(name: string, port: string)
    requires ':' !in Lower(port)
    ensures HostOf(name + ":" + port) == Lower(name)
  {
    var h := Lower(name + ":" + port);
    forall j | |name| < j < |h|
      ensures h[j] != ':'
    {
      assert h[j] == Lower(port)[j - |name| - 1];
    }
    assert h[|name|] == ':';
    assert LastIndexOf(h, ':') == |name|;
    assert h[..|name|] == Lower(name);
  }

  /** The function that makeRouter returns: the routes whose selector a request
      gets, if any. */
  method SelectRoutes(ghost routes: seq<Route>, t: HostTables, list: seq<PostfixEntry>, header: string)
    returns (selected: Option<seq<Route>>)
    requires TablesOf(routes, t) && LongestFirst(list, t.postfixes)
    ensures selected == if header == "" then None else MostSpecific(routes, HostOf(header))
  {
    selected := None;
    if header != "" {
      var host := Lower(header);
      var i := LastIndexOf(host, ':');
      if i >= 0 { host := host[..i]; }
      LookupIsMostSpecific(routes, t, list, host);
      if host in t.full {
        selected := Some(t.full[host]);
      } else {
        var e := FindPostfix(list, host);
        if e.Some? { selected := Some(e.value.routes); }
      }
    }
  }
}
