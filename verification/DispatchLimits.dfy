/** Concrete tables on which dispatch departs from the linear scan, or returns a
    match whose own conditions do not hold. Each holds for whatever tables the
    compiler builds from the sorted list. */
module DispatchLimits {
  import opened Sequences
  import opened Matching
  import opened Dispatch
  import opened DispatchProofs

  const NO_CONDITIONS := Match(None, "", [], [])

  lemma StripPlain(path: string)
    requires '?' !in path
    ensures StripQuery(path) == path
  {
    if path != "" { StripPlain(path[1..]); }
  }

  lemma TwoEntriesRanked(a: Entry, b: Entry)
    requires Fits(a) && Fits(b) && Before(a, b)
    ensures Ranked([a, b])
  {
  }

  /** The linear scan of a list of two. */
  lemma LinearOfTwo(n: Natives, a: Entry, b: Entry, head: Head)
    ensures Linear(n, [a, b], head) ==
      if Satisfies(n, a.m, head) then Some(a) else if Satisfies(n, b.m, head) then Some(b) else None
  {
    var p := Satisfied(n, head);
    assert [a, b][1..] == [b] && [b][1..] == [];
    assert First([b], p) == if p(b) then Some(b) else First([], p);
  }

  const GET_WITH_HEADER := Entry(Match(Some(PathMatch(PathPrefix, "/a")), "GET", [Item(ExactItem, "x", "1")], []), 0)
  const ANY_METHOD := Entry(Match(Some(PathMatch(PathPrefix, "/a")), "", [], []), 1)

  const GET_A := Head("GET", "/a", map[])

  lemma HeaderIsMissing(n: Natives)
    ensures !Satisfies(n, GET_WITH_HEADER.m, GET_A) && !RestAccepts(n, GET_WITH_HEADER.m, GET_A)
    ensures Satisfies(n, ANY_METHOD.m, GET_A)
  {
    StripPlain("/a");
    assert !ItemAccepts(n, GET_WITH_HEADER.m.headers[0], GET_A.headers);
  }

  /** The GET bucket is selected, and nothing in it accepts the request. */
  lemma NoPathHit(n: Natives, t: Tables)
    requires TablesOf([GET_WITH_HEADER, ANY_METHOD], t)
    ensures PathHit(n, t, GET_A).None?
  {
    var s := [GET_WITH_HEADER, ANY_METHOD];
    HeaderIsMissing(n);
    if PathHit(n, t, GET_A).Some? {
      var e := PathHit(n, t, GET_A).value;
      InSelectedBucket(s, t, GET_A, e);
      SelectedBucketHas(s, t, GET_A, GET_WITH_HEADER);
    }
  }

  /** Both matches are in the path table, so the fallbacks hold nothing. */
  lemma NothingDispatched(n: Natives, s: seq<Entry>, t: Tables, head: Head)
    requires TablesOf(s, t) && PathHit(n, t, head).None? && forall e :: e in s ==> PathKeyed(e.m)
    ensures Dispatched(n, t, head) == None
  {
    if Dispatched(n, t, head).Some? {
      FallbackIsNotKeyed(n, s, t, head);
      DispatchSoundExactly(n, s, t, head);
    }
  }

  /** A GET bucket hides the any-method bucket of the same prefix even when none
      of its matches accepts the request: the request is answered with 404. */
  lemma PassedOverBucket(n: Natives, t: Tables)
    requires TablesOf([GET_WITH_HEADER, ANY_METHOD], t)
    ensures Linear(n, [GET_WITH_HEADER, ANY_METHOD], GET_A) == Some(ANY_METHOD) && Dispatched(n, t, GET_A) == None
  {
    HeaderIsMissing(n);
    LinearOfTwo(n, GET_WITH_HEADER, ANY_METHOD, GET_A);
    NoPathHit(n, t);
    NothingDispatched(n, [GET_WITH_HEADER, ANY_METHOD], t, GET_A);
  }

  const WITHOUT_SLASH := Entry(Match(Some(PathMatch(PathPrefix, "/a")), "GET", [], []), 0)
  const WITH_SLASH := Entry(Match(Some(PathMatch(PathPrefix, "/a/")), "", [], []), 1)

  /** Every match sits under one key, which covers the request. */
  ghost predicate UnderOneKey(s: seq<Entry>, only: string, head: Head) {
    s != [] && (forall e :: e in s ==> PathKeyed(e.m) && TableKey(e.m) == only) && Covers(only, StripQuery(head.path))
  }

  lemma OneKeySelected(s: seq<Entry>, t: Tables, only: string, head: Head)
    requires TablesOf(s, t) && UnderOneKey(s, only, head)
    ensures FindKey(t.paths.Keys, head.path) == Some(only)
  {
    assert s[0] in s;
    KeyInTable(s, t, s[0]);
    FindKeyIsMostSpecific(t.paths.Keys, head.path);
    OnlyKey(s, t, only, FindKey(t.paths.Keys, head.path).value);
  }

  /** With one key, the hit is a match of the request's method if there is any. */
  lemma OneKeyHit(n: Natives, s: seq<Entry>, t: Tables, only: string, head: Head, e: Entry)
    requires TablesOf(s, t) && UnderOneKey(s, only, head) && e in s && Rest(n, head)(e)
    requires MethodKey(e.m) == head.verb ||
      (MethodKey(e.m) == "*" && forall x :: x in s ==> MethodKey(x.m) != head.verb)
    ensures PathHit(n, t, head).Some? && PathHit(n, t, head).value in s
    ensures MethodKey(PathHit(n, t, head).value.m) == MethodKey(e.m)
  {
    OneKeySelected(s, t, only, head);
    if head.verb in t.paths[only] && MethodKey(e.m) != head.verb {
      var x := PathBucket(t, only, head.verb)[0];
      FilterMember(s, KeyedUnder(only, head.verb), x);
    }
    SelectedBucketHas(s, t, head, e);
    InSelectedBucket(s, t, head, PathHit(n, t, head).value);
  }

  /** The same prefix spelled with and without its slash: the longer spelling
      ranks first, the bucket of the request's method is tried first. */
  lemma TwoSpellings(n: Natives, t: Tables)
    requires TablesOf([WITH_SLASH, WITHOUT_SLASH], t)
    ensures var s, head := [WITH_SLASH, WITHOUT_SLASH], Head("GET", "/a", map[]);
      Ranked(s) && Linear(n, s, head) == Some(WITH_SLASH) && PathHit(n, t, head) == Some(WITHOUT_SLASH)
  {
    var s, head := [WITH_SLASH, WITHOUT_SLASH], Head("GET", "/a", map[]);
    StripPlain("/a");
    TwoEntriesRanked(WITH_SLASH, WITHOUT_SLASH);
    assert Base("/a/") == "/a" && Base("/a") == "/a";
    LinearOfTwo(n, WITH_SLASH, WITHOUT_SLASH, head);
    KeyCoversIsPathCheck(n, WITHOUT_SLASH.m, "/a");
    OneKeyHit(n, s, t, "/a" + "/*", head, WITHOUT_SLASH);
  }

  lemma OnlyKey(s: seq<Entry>, t: Tables, only: string, key: string)
    requires TablesOf(s, t) && key in t.paths
    requires forall e :: e in s ==> PathKeyed(e.m) && TableKey(e.m) == only
    ensures key == only
  {
    var mk :| PathBucket(t, key, mk) != [];
    var e := PathBucket(t, key, mk)[0];
    FilterMember(s, KeyedUnder(key, mk), e);
  }

  const UNTYPED := Entry(NO_CONDITIONS.(path := Some(PathMatch(Untyped, "/x"))), 0)

  /** A path that names no type is never checked. */
  lemma UntypedPathMatchesAnything(n: Natives, t: Tables)
    requires TablesOf([UNTYPED], t)
    ensures var head := Head("GET", "/y", map[]);
      Dispatched(n, t, head) == Some(UNTYPED) && !Satisfies(n, UNTYPED.m, head)
  {
    var s, head := [UNTYPED], Head("GET", "/y", map[]);
    StripPlain("/y");
    assert UNTYPED in s && InSlow(UNTYPED);
    FilterMember(s, InSlow, UNTYPED);
    assert Rest(n, head)(UNTYPED);
    DispatchSoundExactly(n, s, t, head);
  }

  const STARRED := Entry(NO_CONDITIONS.(path := Some(PathMatch(Exact, "/a/*"))), 0)

  /** An exact path that ends in a star segment is looked up as a wildcard. */
  lemma StarredExactPathIsWildcard(n: Natives, t: Tables)
    requires TablesOf([STARRED], t)
    ensures var head := Head("GET", "/a/b", map[]);
      Dispatched(n, t, head) == Some(STARRED) && !Satisfies(n, STARRED.m, head)
  {
    var s, head := [STARRED], Head("GET", "/a/b", map[]);
    StripPlain("/a/b");
    assert STARRED in s && TableKey(STARRED.m) == "/a/*";
    assert "/a/*"[..2] == "/a" && "/a/*"[2..] == "/*" && "/a/b"[..2] == "/a";
    OneKeyHit(n, s, t, "/a/*", head, STARRED);
    DispatchSoundExactly(n, s, t, head);
  }

  const REGEX := Entry(NO_CONDITIONS.(path := Some(PathMatch(RegularExpression, "/b"))), 0)
  const GET_ONLY := Entry(NO_CONDITIONS.(verb := "GET"), 1)

  /** A regular expression without a method ranks above a match of the method
      alone, but is tried after it. */
  lemma SlowRegexTriedLate(n: Natives, t: Tables)
    requires TablesOf([REGEX, GET_ONLY], t) && n.test("/b", "/b")
    ensures var s, head := [REGEX, GET_ONLY], Head("GET", "/b", map[]);
      Ranked(s) && Linear(n, s, head) == Some(REGEX) && Dispatched(n, t, head) == Some(GET_ONLY)
  {
    var s, head := [REGEX, GET_ONLY], Head("GET", "/b", map[]);
    TwoEntriesRanked(REGEX, GET_ONLY);
    LinearOfTwo(n, REGEX, GET_ONLY, head);
    if PathHit(n, t, head).Some? {
      InSelectedBucket(s, t, head, PathHit(n, t, head).value);
      assert false;
    }
    FilterMember(s, WithMethod("GET"), GET_ONLY);
    assert Rest(n, head)(GET_ONLY);
    FilterMember(s, WithMethod("GET"), MethodHit(n, t, head).value);
  }
}
