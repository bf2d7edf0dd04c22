/** Which routes claim a host, in terms of the host names as they are written. */
module HostLaws {
  import opened Sequences
  import opened Matching
  import opened MatchLaws
  import opened Hosts

  predicate Space(c: char) {
    c in {' ', '\t', '\n', '\r', '\U{0B}', '\U{0C}'}
  }

  predicate Blank(s: string) {
    forall i :: 0 <= i < |s| ==> Space(s[i])
  }

  /** No white space at either end. */
  predicate Trimmed(s: string) {
    s == "" || (!Space(s[0]) && !Space(s[|s| - 1]))
  }

  /** The pattern that a name stands for once it is trimmed and in small letters. */
  ghost predicate Shapes(small: string, p: Pattern) {
    match p
    case Full(full) => small == full && (full == "" || full[0] != '*')
    case Suffix(postfix) => small == "*" + postfix
  }

  /** The name, with white space around it and in any casing, spells a full host name
      or, with a star in front, a suffix. */
  ghost predicate Spells(name: string, p: Pattern) {
    exists a, core, b, small ::
      name == a + core + b && Blank(a) && Blank(b) && Trimmed(core) && SmallCopy(small, core) && Shapes(small, p)
  }

  lemma {:induction false} TrimLeftSplits(s: string) returns (a: string)
    ensures s == a + TrimLeft(s) && Blank(a) && (TrimLeft(s) == "" || !Space(TrimLeft(s)[0]))
  {
    a := "";
    if s != "" && Hosts.IsSpace(s[0]) {
      var a' := TrimLeftSplits(s[1..]);
      a := [s[0]] + a';
      assert s == [s[0]] + s[1..];
    }
  }

  lemma {:induction false} TrimRightSplits(s: string) returns (b: string)
    ensures s == TrimRight(s) + b && Blank(b) && (TrimRight(s) == "" || !Space(TrimRight(s)[|TrimRight(s)| - 1]))
    ensures TrimRight(s) == "" || s[0] == TrimRight(s)[0]
  {
    b := "";
    if s != "" && Hosts.IsSpace(s[|s| - 1]) {
      var b' := TrimRightSplits(s[..|s| - 1]);
      b := b' + [s[|s| - 1]];
      assert s == s[..|s| - 1] + [s[|s| - 1]];
    }
  }

  lemma {:induction false} TrimLeftDrops(a: string, t: string)
    requires Blank(a) && (t == "" || !Space(t[0]))
    ensures TrimLeft(a + t) == t
  {
    if a == "" {
      assert a + t == t;
    } else {
      assert (a + t)[0] == a[0] && (a + t)[1..] == a[1..] + t;
      TrimLeftDrops(a[1..], t);
    }
  }

  lemma {:induction false} TrimRightDrops(t: string, b: string)
    requires Blank(b) && (t == "" || !Space(t[|t| - 1]))
    ensures TrimRight(t + b) == t
  {
    if b == "" {
      assert t + b == t;
    } else {
      assert (t + b)[|t + b| - 1] == b[|b| - 1] && (t + b)[..|t + b| - 1] == t + b[..|b| - 1];
      TrimRightDrops(t, b[..|b| - 1]);
    }
  }

  lemma {:induction false} TrimLeftBlank(s: string)
    requires Blank(s)
    ensures TrimLeft(s) == ""
  {
    if s != "" { TrimLeftBlank(s[1..]); }
  }

  /** Trimming takes off the white space at both ends. */
  lemma TrimExactly(a: string, core: string, b: string)
    requires Blank(a) && Blank(b) && Trimmed(core)
    ensures TrimRight(TrimLeft(a + core + b)) == core
  {
    if core == "" {
      assert a + core + b == a + b;
      TrimLeftBlank(a + b);
    } else {
      assert a + core + b == a + (core + b);
      TrimLeftDrops(a, core + b);
      TrimRightDrops(core, b);
    }
  }

  lemma TrimSplits(name: string) returns (a: string, b: string)
    ensures var core := TrimRight(TrimLeft(name)); name == a + core + b && Blank(a) && Blank(b) && Trimmed(core)
  {
    a := TrimLeftSplits(name);
    b := TrimRightSplits(TrimLeft(name));
  }

  lemma ShapesExactly(name: string, p: Pattern)
    ensures PatternOf(name) == p <==> Shapes(Normal(name), p)
  {
  }

  /** A host name is read as the pattern that it spells. */
  lemma PatternExactly(name: string, p: Pattern)
    ensures PatternOf(name) == p <==> Spells(name, p)
  {
    ShapesExactly(name, p);
    var a, b := TrimSplits(name);
    var core := TrimRight(TrimLeft(name));
    LowerIsSmallCopy(core, Lower(core));
    if Spells(name, p) {
      var a', core', b', small :| name == a' + core' + b' && Blank(a') && Blank(b') && Trimmed(core') &&
        SmallCopy(small, core') && Shapes(small, p);
      TrimExactly(a', core', b');
      LowerIsSmallCopy(core', small);
    }
  }

  /** One of the route's host names spells the pattern; a route without host names
      claims the empty suffix. */
  ghost predicate ClaimsPattern(r: Route, p: Pattern) {
    match r.hostnames
    case None => p == Suffix("")
    case Some(names) => exists name :: name in names && Spells(name, p)
  }

  lemma {:induction false} ClaimsOfMember(r: Route, names: seq<string>, p: Pattern, x: Route)
    ensures x in ClaimsOf(r, names, p) <==> x == r && exists name :: name in names && PatternOf(name) == p
  {
    if names != [] {
      var init, last := names[..|names| - 1], names[|names| - 1];
      ClaimsOfMember(r, init, p, x);
      assert forall name :: name in names <==> name in init || name == last;
    }
  }

  lemma DefaultName(p: Pattern)
    ensures PatternOf("*") == p <==> p == Suffix("")
  {
    TrimExactly("", "*", "");
    assert "" + "*" + "" == "*";
    LowerIsSmallCopy("*", "*");
  }

  lemma RouteClaims(r: Route, p: Pattern, x: Route)
    ensures x in ClaimsOf(r, HostnamesOf(r), p) <==> x == r && ClaimsPattern(r, p)
  {
    ClaimsOfMember(r, HostnamesOf(r), p, x);
    DefaultName(p);
    if r.hostnames.Some? {
      forall name
        ensures PatternOf(name) == p <==> Spells(name, p)
      {
        PatternExactly(name, p);
      }
    }
  }

  /** The group of a pattern holds exactly the routes that claim it. */
  lemma {:induction false} GroupExactly(routes: seq<Route>, p: Pattern, r: Route)
    ensures r in Claims(routes, p) <==> r in routes && ClaimsPattern(r, p)
  {
    if routes != [] {
      var init, last := routes[..|routes| - 1], routes[|routes| - 1];
      GroupExactly(init, p, r);
      RouteClaims(last, p, r);
      assert r in routes <==> r in init || r == last;
    }
  }

  /** A route without host names is selected for every host that nothing more
      specific claims: every host has a group. */
  lemma DefaultClaimsEveryHost(routes: seq<Route>, r: Route, host: string)
    requires r in routes && r.hostnames == None
    ensures MostSpecific(routes, host).Some?
  {
    GroupExactly(routes, Suffix(""), r);
    assert host[|host|..] == "" && Claimed(routes, host, |host|);
  }

  ghost predicate SomeClaims(routes: seq<Route>, p: Pattern) {
    exists r :: r in routes && ClaimsPattern(r, p)
  }

  lemma GroupNotEmpty(routes: seq<Route>, p: Pattern)
    ensures Claims(routes, p) != [] <==> SomeClaims(routes, p)
  {
    if Claims(routes, p) != [] { GroupExactly(routes, p, Claims(routes, p)[0]); }
    if SomeClaims(routes, p) {
      var r :| r in routes && ClaimsPattern(r, p);
      GroupExactly(routes, p, r);
    }
  }

  /** A host that some route names in full gets the routes that name it. */
  lemma NamedHostExactly(routes: seq<Route>, host: string, r: Route)
    requires SomeClaims(routes, Full(host))
    ensures var selected := MostSpecific(routes, host);
      selected.Some? && (r in selected.value <==> r in routes && ClaimsPattern(r, Full(host)))
  {
    GroupNotEmpty(routes, Full(host));
    GroupExactly(routes, Full(host), r);
  }

  /** Another host gets the routes that claim its longest suffix that is claimed. */
  lemma SuffixHostExactly(routes: seq<Route>, host: string, i: nat, r: Route)
    requires !SomeClaims(routes, Full(host))
    requires i <= |host| && SomeClaims(routes, Suffix(host[i..]))
    requires forall j :: 0 <= j < i ==> !SomeClaims(routes, Suffix(host[j..]))
    ensures var selected := MostSpecific(routes, host);
      selected.Some? && (r in selected.value <==> r in routes && ClaimsPattern(r, Suffix(host[i..])))
  {
    GroupNotEmpty(routes, Full(host));
    forall j: nat | j <= |host|
      ensures Claimed(routes, host, j) <==> SomeClaims(routes, Suffix(host[j..]))
    {
      GroupNotEmpty(routes, Suffix(host[j..]));
    }
    LongestClaimedIs(routes, host, i);
    GroupExactly(routes, Suffix(host[i..]), r);
  }

  /** A host gets nothing exactly when no route claims it or one of its suffixes. */
  lemma UnclaimedHostExactly(routes: seq<Route>, host: string)
    ensures MostSpecific(routes, host) == None <==>
      !SomeClaims(routes, Full(host)) && forall i :: 0 <= i <= |host| ==> !SomeClaims(routes, Suffix(host[i..]))
  {
    GroupNotEmpty(routes, Full(host));
    forall i: nat | i <= |host|
      ensures Claimed(routes, host, i) <==> SomeClaims(routes, Suffix(host[i..]))
    {
      GroupNotEmpty(routes, Suffix(host[i..]));
    }
  }
}
