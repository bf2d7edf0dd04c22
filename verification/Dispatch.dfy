/** The dispatcher of src/modules/router-http.js: sorted matches are split into
    a path table, a method table and a slow list, the checks that the tables are
    supposed to imply are dropped, and requests are looked up instead of scanned. */
module Dispatch {
  import opened Sequences
  import opened Priorities
  import opened Matching

  // ------------------------------------------------------------------ tables

  predicate PathKeyed(m: Match) {
    m.path.Some? && (m.path.value.ptype == Exact || m.path.value.ptype == PathPrefix)
  }

  /** The path-table key; `os.path.join(value, '*')` for a prefix. */
  function TableKey(m: Match): string
    requires PathKeyed(m)
  {
    if m.path.value.ptype == Exact then m.path.value.value else Base(m.path.value.value) + "/*"
  }

  /** `m.method || '*'`. */
  function MethodKey(m: Match): string {
    if m.verb == "" then "*" else m.verb
  }

  datatype Tables = Tables(
    paths: map<string, map<string, seq<Entry>>>,
    methods: map<string, seq<Entry>>,
    slow: seq<Entry>)

  predicate InPaths(e: Entry, key: string, methodKey: string) {
    PathKeyed(e.m) && TableKey(e.m) == key && MethodKey(e.m) == methodKey
  }

  function KeyedUnder(key: string, methodKey: string): Entry -> bool {
    e => InPaths(e, key, methodKey)
  }

  predicate InMethods(e: Entry, verb: string) {
    !PathKeyed(e.m) && e.m.verb != "" && e.m.verb == verb
  }

  function WithMethod(verb: string): Entry -> bool {
    e => InMethods(e, verb)
  }

  predicate InSlow(e: Entry) {
    !PathKeyed(e.m) && e.m.verb == ""
  }

  function PathBucket(t: Tables, key: string, methodKey: string): seq<Entry> {
    if key in t.paths && methodKey in t.paths[key] then t.paths[key][methodKey] else []
  }

  function MethodBucket(t: Tables, verb: string): seq<Entry> {
    if verb in t.methods then t.methods[verb] else []
  }

  ghost predicate PathsOf(s: seq<Entry>, t: Tables) {
    forall key, mk :: PathBucket(t, key, mk) == Filter(s, KeyedUnder(key, mk))
  }

  ghost predicate NoEmptyBucket(t: Tables) {
    && (forall key :: key in t.paths ==> exists mk :: PathBucket(t, key, mk) != [])
    && (forall key, mk :: key in t.paths && mk in t.paths[key] ==> t.paths[key][mk] != [])
  }

  ghost predicate MethodsOf(s: seq<Entry>, t: Tables) {
    forall verb :: MethodBucket(t, verb) == Filter(s, WithMethod(verb))
  }

  /** The tables hold exactly the sorted matches, each in its one bucket and in
      sorted order, and no empty bucket. */
  ghost predicate TablesOf(s: seq<Entry>, t: Tables) {
    PathsOf(s, t) && NoEmptyBucket(t) && MethodsOf(s, t) && t.slow == Filter(s, InSlow)
  }

  function Inserted(t: Tables, e: Entry): Tables {
    if PathKeyed(e.m) then
      var key, mk := TableKey(e.m), MethodKey(e.m);
      var methods := if key in t.paths then t.paths[key] else map[];
      t.(paths := t.paths[key := methods[mk := PathBucket(t, key, mk) + [e]]])
    else if e.m.verb != "" then t.(methods := t.methods[e.m.verb := MethodBucket(t, e.m.verb) + [e]])
    else t.(slow := t.slow + [e])
  }

  lemma FilterSnoc(s: seq<Entry>, e: Entry, p: Entry -> bool)
    ensures Filter(s + [e], p) == Filter(s, p) + if p(e) then [e] else []
  {
    assert (s + [e])[..|s|] == s;
  }

  lemma InsertedBucket(t: Tables, e: Entry, key: string, mk: string)
    ensures PathBucket(Inserted(t, e), key, mk) == PathBucket(t, key, mk) + if InPaths(e, key, mk) then [e] else []
  {
  }

  lemma InsertedPaths(s: seq<Entry>, t: Tables, e: Entry)
    requires PathsOf(s, t)
    ensures PathsOf(s + [e], Inserted(t, e))
  {
    forall key, mk
      ensures PathBucket(Inserted(t, e), key, mk) == Filter(s + [e], KeyedUnder(key, mk))
    {
      FilterSnoc(s, e, KeyedUnder(key, mk));
      InsertedBucket(t, e, key, mk);
    }
  }

  lemma InsertedNotEmpty(t: Tables, e: Entry)
    requires NoEmptyBucket(t)
    ensures NoEmptyBucket(Inserted(t, e))
  {
    var t' := Inserted(t, e);
    forall key | key in t'.paths
      ensures exists mk :: PathBucket(t', key, mk) != []
    {
      if PathKeyed(e.m) && key == TableKey(e.m) {
        assert PathBucket(t', key, MethodKey(e.m)) != [];
      } else {
        var mk :| PathBucket(t, key, mk) != [];
        assert PathBucket(t', key, mk) == PathBucket(t, key, mk);
      }
    }
  }

  lemma InsertedMethods(s: seq<Entry>, t: Tables, e: Entry)
    requires MethodsOf(s, t)
    ensures MethodsOf(s + [e], Inserted(t, e))
  {
    var t' := Inserted(t, e);
    forall verb
      ensures MethodBucket(t', verb) == Filter(s + [e], WithMethod(verb))
    {
      FilterSnoc(s, e, WithMethod(verb));
      assert MethodBucket(t', verb) == MethodBucket(t, verb) + if InMethods(e, verb) then [e] else [];
    }
  }

  lemma InsertedTables(s: seq<Entry>, t: Tables, e: Entry)
    requires TablesOf(s, t)
    ensures TablesOf(s + [e], Inserted(t, e))
  {
    InsertedPaths(s, t, e);
    InsertedNotEmpty(t, e);
    InsertedMethods(s, t, e);
    FilterSnoc(s, e, InSlow);
  }

  /** Rank and sort the declared matches. */
  method SortMatches(matches: seq<Match>) returns (s: seq<Entry>)
    requires forall e :: e in Declared(matches) ==> Fits(e)
    ensures multiset(s) == multiset(Declared(matches)) && Sorted(s, Priority) && Ranked(s)
  {
    var entries := Declared(matches);
    forall i, j | 0 <= i < j < |entries|
      ensures Priority(entries[i]) != Priority(entries[j])
    {
      DeclaredPrioritiesDiffer(matches, i, j);
    }
    s := Sort(entries, Priority);
    forall e | e in s
      ensures Fits(e)
    {
      assert e in multiset(entries);
    }
    SortedIsRanked(s);
  }

  lemma DeclaredPrioritiesDiffer(matches: seq<Match>, i: nat, j: nat)
    requires i < j < |matches| && forall e :: e in Declared(matches) ==> Fits(e)
    ensures Priority(Declared(matches)[i]) != Priority(Declared(matches)[j])
  {
    var a, b := Declared(matches)[i], Declared(matches)[j];
    assert a in Declared(matches) && b in Declared(matches);
    PriorityEmbedsPrecedence(a, b);
    PriorityEmbedsPrecedence(b, a);
    LessIsTotal(Priority(a), Priority(b));
  }

  /** One round of `matches.forEach`: put a match into its table. */
  method AddToTables(e: Entry, t: Tables) returns (t': Tables)
    ensures t' == Inserted(t, e)
    ensures forall key, mk ::
      PathBucket(t', key, mk) == PathBucket(t, key, mk) + if InPaths(e, key, mk) then [e] else []
    ensures forall verb :: MethodBucket(t', verb) == MethodBucket(t, verb) + if InMethods(e, verb) then [e] else []
    ensures t'.slow == t.slow + if InSlow(e) then [e] else []
  {
    var m := e.m;
    if m.path.Some? && (m.path.value.ptype == Exact || m.path.value.ptype == PathPrefix) {
      var key := TableKey(m);
      var methods := if key in t.paths then t.paths[key] else map[];
      var checks := if MethodKey(m) in methods then methods[MethodKey(m)] else [];
      methods := methods[MethodKey(m) := checks + [e]];
      t' := t.(paths := t.paths[key := methods]);
    } else if m.verb != "" {
      var checks := if m.verb in t.methods then t.methods[m.verb] else [];
      t' := t.(methods := t.methods[m.verb := checks + [e]]);
    } else {
      t' := t.(slow := t.slow + [e]);
    }
  }

  /** Split the sorted matches into the three tables. */
  method Split(s: seq<Entry>) returns (t: Tables)
    ensures TablesOf(s, t)
  {
    t := Tables(map[], map[], []);
    for i := 0 to |s|
      invariant TablesOf(s[..i], t)
    {
      ghost var done := s[..i];
      assert s[..i + 1] == done + [s[i]];
      InsertedTables(done, t, s[i]);
      t := AddToTables(s[i], t);
      assert TablesOf(s[..i + 1], t);
    }
    assert s[..|s|] == s;
  }

  /** makeRuleSelector: rank, sort and split the declared matches. */
  method Compile(matches: seq<Match>) returns (s: seq<Entry>, t: Tables)
    requires forall e :: e in Declared(matches) ==> Fits(e)
    ensures multiset(s) == multiset(Declared(matches)) && Sorted(s, Priority) && Ranked(s)
    ensures TablesOf(s, t)
  {
    s := SortMatches(matches);
    t := Split(s);
  }

  // ----------------------------------------------------------------- URLRouter

  predicate IsWildcard(key: string) {
    EndsWith(key, "/*")
  }

  /** The longest wildcard among the keys whose base is one of the first k
      characters' segments of the path, or shorter. */
  function LongestWildcard(keys: set<string>, p: string, k: nat): (f: Option<string>)
    requires k <= |p|
    ensures f.Some? ==> f.value in keys
  {
    if (k == |p| || p[k] == '/') && p[..k] + "/*" in keys then Some(p[..k] + "/*")
    else if k == 0 then None
    else LongestWildcard(keys, p, k - 1)
  }

  /** `URLRouter.find`: the key whose value it returns. */
  function FindKey(keys: set<string>, path: string): (f: Option<string>)
    ensures f.Some? ==> f.value in keys
  {
    var p := StripQuery(path);
    if p in keys && !IsWildcard(p) then Some(p) else LongestWildcard(keys, p, |p|)
  }

  predicate Covers(key: string, p: string) {
    if IsWildcard(key) then Under(p, key[..|key| - 2]) else p == key
  }

  lemma {:induction false} LongestWildcardIsLongest(keys: set<string>, p: string, k: nat)
    requires k <= |p|
    ensures var f := LongestWildcard(keys, p, k);
      && (f.Some? ==> f.value in keys && IsWildcard(f.value) && Covers(f.value, p) && |f.value| <= k + 2)
      && (forall key :: key in keys && IsWildcard(key) && Covers(key, p) && |key| <= k + 2 ==>
            f.Some? && (key == f.value || |key| < |f.value|))
  {
    var w := p[..k] + "/*";
    assert w[|w| - 2..] == "/*" && w[..|w| - 2] == p[..k];
    forall key | key in keys && IsWildcard(key) && Covers(key, p) && |key| == k + 2
      ensures key == w && (k == |p| || p[k] == '/')
    {
      assert key == key[..k] + key[k..];
    }
    if k > 0 { LongestWildcardIsLongest(keys, p, k - 1); }
  }

  /** The lookup finds the most specific covering key: an exact one before any
      wildcard, a longer wildcard before a shorter one. */
  lemma {:induction false} FindKeyIsMostSpecific(keys: set<string>, path: string)
    ensures var p, f := StripQuery(path), FindKey(keys, path);
      && (f.Some? ==> f.value in keys && Covers(f.value, p))
      && (forall key :: key in keys && Covers(key, p) ==>
            f.Some? && (key == f.value || (IsWildcard(key) && (!IsWildcard(f.value) || |key| < |f.value|))))
  {
    var p := StripQuery(path);
    LongestWildcardIsLongest(keys, p, |p|);
    forall key | key in keys && IsWildcard(key) && Covers(key, p)
      ensures |key| <= |p| + 2
    {
    }
  }

  // ----------------------------------------------------------------- dispatch

  /** What is left of a match's checks: makeMethodMatcher and the Exact and
      PathPrefix cases of makePathMatcher test nothing. */
  predicate RestAccepts(n: Natives, m: Match, head: Head) {
    && (m.path.Some? && m.path.value.ptype == RegularExpression ==> n.test(m.path.value.value, head.path))
    && (m.path.Some? ==> m.path.value.ptype != UnknownType)
    && ItemsAccept(n, m.headers, head.headers)
    && ItemsAccept(n, m.queryParams, n.query(head.path))
  }

  /** A match's compiled function, as a test on entries. */
  function Rest(n: Natives, head: Head): Entry -> bool {
    (e: Entry) => RestAccepts(n, e.m, head)
  }

  function FirstAccepted(n: Natives, bucket: seq<Entry>, head: Head): Option<Entry> {
    First(bucket, Rest(n, head))
  }

  /** The bucket of the path table that a request is checked against:
      `pm[method] || pm['*']` under the most specific key. */
  function SelectedBucket(t: Tables, head: Head): seq<Entry> {
    var key := FindKey(t.paths.Keys, head.path);
    if key.None? then []
    else if head.verb in t.paths[key.value] then t.paths[key.value][head.verb]
    else if "*" in t.paths[key.value] then t.paths[key.value]["*"]
    else []
  }

  function PathHit(n: Natives, t: Tables, head: Head): Option<Entry> {
    FirstAccepted(n, SelectedBucket(t, head), head)
  }

  function MethodHit(n: Natives, t: Tables, head: Head): Option<Entry> {
    FirstAccepted(n, MethodBucket(t, head.verb), head)
  }

  function SlowHit(n: Natives, t: Tables, head: Head): Option<Entry> {
    FirstAccepted(n, t.slow, head)
  }

  /** The selector that makeRuleSelector returns. */
  function Dispatched(n: Natives, t: Tables, head: Head): Option<Entry> {
    if PathHit(n, t, head).Some? then PathHit(n, t, head)
    else if MethodHit(n, t, head).Some? then MethodHit(n, t, head)
    else SlowHit(n, t, head)
  }

  /** The reference: the first of the sorted matches all of whose own conditions
      hold. */
  function Linear(n: Natives, s: seq<Entry>, head: Head): Option<Entry> {
    First(s, Satisfied(n, head))
  }

  function Satisfied(n: Natives, head: Head): Entry -> bool {
    (e: Entry) => Satisfies(n, e.m, head)
  }
}
