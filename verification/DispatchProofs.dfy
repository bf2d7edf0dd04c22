/** What table dispatch keeps of the linear scan, and exactly where it departs. */
module DispatchProofs {
  import opened Sequences
  import opened Matching
  import opened Dispatch

  // ----------------------------------------------------- buckets and members

  lemma InSelectedBucket(s: seq<Entry>, t: Tables, head: Head, e: Entry)
    requires TablesOf(s, t) && e in SelectedBucket(t, head)
    ensures var key := FindKey(t.paths.Keys, head.path);
      && key.Some? && e in s && PathKeyed(e.m) && TableKey(e.m) == key.value
      && (MethodKey(e.m) == head.verb || (MethodKey(e.m) == "*" && head.verb !in t.paths[key.value]))
  {
    var key := FindKey(t.paths.Keys, head.path).value;
    var mk := if head.verb in t.paths[key] then head.verb else "*";
    assert SelectedBucket(t, head) == PathBucket(t, key, mk);
    FilterMember(s, KeyedUnder(key, mk), e);
  }

  /** A keyed match under the selected key for the request's method, or for any
      method when the key has none for the request's, is in the selected bucket. */
  lemma SelectedBucketHas(s: seq<Entry>, t: Tables, head: Head, e: Entry)
    requires TablesOf(s, t) && e in s && PathKeyed(e.m) && FindKey(t.paths.Keys, head.path) == Some(TableKey(e.m))
    ensures MethodKey(e.m) == head.verb ==> e in SelectedBucket(t, head) && head.verb in t.paths[TableKey(e.m)]
    ensures MethodKey(e.m) == "*" && head.verb !in t.paths[TableKey(e.m)] ==> e in SelectedBucket(t, head)
  {
    var key, mk := TableKey(e.m), MethodKey(e.m);
    FilterMember(s, KeyedUnder(key, mk), e);
    assert e in PathBucket(t, key, mk);
  }

  /** The key of every keyed match is in the table. */
  lemma KeyInTable(s: seq<Entry>, t: Tables, e: Entry)
    requires TablesOf(s, t) && e in s && PathKeyed(e.m)
    ensures TableKey(e.m) in t.paths
  {
    var key, mk := TableKey(e.m), MethodKey(e.m);
    FilterMember(s, KeyedUnder(key, mk), e);
    assert e in PathBucket(t, key, mk);
  }

  // ---------------------------------------------------------------- soundness

  /** The match's path check is the one its table key stands for. */
  lemma KeyCoversIsPathCheck(n: Natives, m: Match, path: string)
    requires PathKeyed(m) && (m.path.value.ptype == Exact ==> !IsWildcard(m.path.value.value))
    ensures Covers(TableKey(m), StripQuery(path)) <==> PathAccepts(n, m.path.value, path)
  {
    if m.path.value.ptype == PathPrefix {
      var base := Base(m.path.value.value);
      assert (base + "/*")[|base|..] == "/*" && (base + "/*")[..|base|] == base;
    }
  }

  /** The conditions that neither a table nor a remaining check enforces: the path
      of a match that names no path type, the path of an Exact match whose value
      reads as a wildcard key, and a method spelled "*". */
  predicate DroppedChecksHold(m: Match, head: Head) {
    && (m.path.Some? && m.path.value.ptype == Untyped ==> StripQuery(head.path) == m.path.value.value)
    && (m.path.Some? && m.path.value.ptype == Exact && IsWildcard(m.path.value.value) ==>
      StripQuery(head.path) == m.path.value.value)
    && (m.verb == "*" ==> head.verb == "*")
  }

  /** Whatever the dispatcher returns satisfies all of its own conditions exactly
      when the dropped checks happen to hold. */
  lemma DispatchSoundExactly(n: Natives, s: seq<Entry>, t: Tables, head: Head)
    requires TablesOf(s, t) && Dispatched(n, t, head).Some?
    ensures var e := Dispatched(n, t, head).value;
      e in s && (Satisfies(n, e.m, head) <==> DroppedChecksHold(e.m, head))
  {
    var e := Dispatched(n, t, head).value;
    if PathHit(n, t, head).Some? {
      InSelectedBucket(s, t, head, e);
      FindKeyIsMostSpecific(t.paths.Keys, head.path);
      if e.m.path.value.ptype == PathPrefix || !IsWildcard(e.m.path.value.value) {
        KeyCoversIsPathCheck(n, e.m, head.path);
      }
    } else if MethodHit(n, t, head).Some? {
      FilterMember(s, WithMethod(head.verb), e);
    } else {
      FilterMember(s, InSlow, e);
    }
  }

  /** The match names its path type, its exact path does not end in a wildcard,
      and its method is not "*". */
  predicate Plain(m: Match) {
    && (m.path.Some? ==> m.path.value.ptype != Untyped)
    && (m.path.Some? && m.path.value.ptype == Exact ==> !IsWildcard(m.path.value.value))
    && m.verb != "*"
  }

  /** Dropping the checks is sound for plain matches. */
  lemma DispatchSound(n: Natives, s: seq<Entry>, t: Tables, head: Head)
    requires TablesOf(s, t) && Dispatched(n, t, head).Some? && forall e :: e in s ==> Plain(e.m)
    ensures var e := Dispatched(n, t, head).value; e in s && Satisfies(n, e.m, head)
  {
    DispatchSoundExactly(n, s, t, head);
  }

  // ------------------------------------------------------- the first in rank

  lemma BeforeIsStrict(a: Entry, b: Entry)
    ensures !(Before(a, b) && Before(b, a)) && !Before(a, a)
  {
  }

  /** In a ranked list, `find` returns the accepted entry before all others. */
  lemma {:induction false} RankedFirst(s: seq<Entry>, p: Entry -> bool, e: Entry)
    requires Ranked(s)
    ensures First(s, p) == Some(e) <==> e in s && p(e) && forall x :: x in s && p(x) && x != e ==> Before(e, x)
  {
    if s != [] {
      assert Ranked(s[1..]);
      RankedFirst(s[1..], p, e);
      assert forall x :: x in s <==> x == s[0] || x in s[1..];
      assert forall x :: x in s[1..] ==> Before(s[0], x);
    }
  }

  lemma RankedIsTotal(s: seq<Entry>, a: Entry, b: Entry)
    requires Ranked(s) && a in s && b in s && a != b
    ensures Before(a, b) || Before(b, a)
  {
    var i :| 0 <= i < |s| && s[i] == a;
    var j :| 0 <= j < |s| && s[j] == b;
    if i < j { assert Before(s[i], s[j]); } else { assert Before(s[j], s[i]); }
  }

  // -------------------------------------------------------------- refinement

  /** A shorter base of the same path comes from a strictly shorter value. */
  lemma ShorterBaseShorterValue(v: string, w: string, p: string)
    requires Under(p, Base(v)) && Under(p, Base(w)) && |Base(v)| < |Base(w)|
    ensures |v| < |w|
  {
    if |Base(w)| == |Base(v)| + 1 {
      assert Base(w)[|Base(v)|] == p[|Base(v)|] == '/';
      assert Base(w)[|Base(w)| - 1..] == "/";
      assert EndsWith(Base(w), "/");
    }
  }

  /** Covering the same path under a less specific key means ranking lower. */
  lemma LessSpecificRanksLower(n: Natives, e: Match, x: Match, path: string)
    requires PathKeyed(e) && PathKeyed(x) && Plain(e) && Plain(x)
    requires PathAccepts(n, e.path.value, path) && PathAccepts(n, x.path.value, path)
    requires IsWildcard(TableKey(x)) && (!IsWildcard(TableKey(e)) || |TableKey(x)| < |TableKey(e)|)
    ensures TypeRank(x) < TypeRank(e) || (TypeRank(x) == TypeRank(e) && LengthRank(x) < LengthRank(e))
  {
    WildcardKeyIsPrefix(e);
    WildcardKeyIsPrefix(x);
    if IsWildcard(TableKey(e)) {
      ShorterBaseShorterValue(x.path.value.value, e.path.value.value, StripQuery(path));
    }
  }

  /** Any satisfied match that ranks above a match of the selected bucket whose
      path check holds has the selected key too. */
  lemma RivalHasSameKey(n: Natives, s: seq<Entry>, t: Tables, head: Head, e: Entry, x: Entry)
    requires TablesOf(s, t) && x in s && Plain(x.m) && Plain(e.m)
    requires e in SelectedBucket(t, head) && Satisfies(n, x.m, head) && Before(x, e)
    ensures PathKeyed(e.m) && PathKeyed(x.m) && TableKey(x.m) == TableKey(e.m) &&
      x.m.path.value.ptype == e.m.path.value.ptype
  {
    InSelectedBucket(s, t, head, e);
    FindKeyIsMostSpecific(t.paths.Keys, head.path);
    KeyCoversIsPathCheck(n, e.m, head.path);
    assert PathKeyed(x.m);
    KeyInTable(s, t, x);
    KeyCoversIsPathCheck(n, x.m, head.path);
    if TableKey(x.m) != TableKey(e.m) {
      LessSpecificRanksLower(n, e.m, x.m, head.path);
    }
    WildcardKeyIsPrefix(e.m);
    WildcardKeyIsPrefix(x.m);
  }

  lemma WildcardKeyIsPrefix(m: Match)
    requires PathKeyed(m) && Plain(m)
    ensures IsWildcard(TableKey(m)) <==> m.path.value.ptype == PathPrefix
  {
    if m.path.value.ptype == PathPrefix {
      var base := Base(m.path.value.value);
      assert (base + "/*")[|base|..] == "/*";
    }
  }

  lemma FirstOfRankedBucket(s: seq<Entry>, q: Entry -> bool, p: Entry -> bool, e: Entry, x: Entry)
    requires Ranked(s) && First(Filter(s, q), p) == Some(e) && x in Filter(s, q) && p(x) && x != e
    ensures Before(e, x)
  {
    FilterMember(s, q, x);
    FirstOfFilter(s, q, p);
    RankedFirst(s, Both(q, p), e);
    assert Both(q, p)(x);
  }

  lemma BucketHitIsFirst(n: Natives, s: seq<Entry>, t: Tables, head: Head, e: Entry, x: Entry)
    requires TablesOf(s, t) && Ranked(s) && PathHit(n, t, head) == Some(e)
    requires x in SelectedBucket(t, head) && RestAccepts(n, x.m, head) && x != e
    ensures Before(e, x)
  {
    InSelectedBucket(s, t, head, e);
    var key := TableKey(e.m);
    var mk := if head.verb in t.paths[key] then head.verb else "*";
    assert SelectedBucket(t, head) == PathBucket(t, key, mk) == Filter(s, KeyedUnder(key, mk));
    FirstOfRankedBucket(s, KeyedUnder(key, mk), Rest(n, head), e, x);
  }

  /** A match of the same key with a longer value, so the same prefix with its
      trailing slash, in the other of the key's two buckets that could have served
      the request, and satisfied by it. */
  ghost predicate LongerSpellingLost(n: Natives, s: seq<Entry>, head: Head, e: Entry)
    requires PathKeyed(e.m)
  {
    exists x :: x in s && PathKeyed(x.m) && TableKey(x.m) == TableKey(e.m) && MethodKey(x.m) != MethodKey(e.m)
      && |x.m.path.value.value| > |e.m.path.value.value| && Satisfies(n, x.m, head)
  }

  /** Only such a match can rank above the hit of the path table. */
  lemma RivalIsLongerSpelling(n: Natives, s: seq<Entry>, t: Tables, head: Head, e: Entry, x: Entry)
    requires TablesOf(s, t) && Ranked(s) && Plain(e.m) && Plain(x.m)
    requires PathHit(n, t, head) == Some(e) && x in s && Satisfies(n, x.m, head) && Before(x, e)
    ensures PathKeyed(e.m) && PathKeyed(x.m) && TableKey(x.m) == TableKey(e.m) && MethodKey(x.m) != MethodKey(e.m)
    ensures |x.m.path.value.value| > |e.m.path.value.value|
  {
    InSelectedBucket(s, t, head, e);
    RivalHasSameKey(n, s, t, head, e, x);
    SelectedBucketHas(s, t, head, x);
    if x in SelectedBucket(t, head) {
      BucketHitIsFirst(n, s, t, head, e, x);
      BeforeIsStrict(e, x);
    }
  }

  lemma LongerSpellingRanksFirst(e: Entry, x: Entry)
    requires PathKeyed(e.m) && PathKeyed(x.m) && Plain(e.m) && Plain(x.m) && TableKey(x.m) == TableKey(e.m)
    requires |x.m.path.value.value| > |e.m.path.value.value|
    ensures Before(x, e)
  {
    WildcardKeyIsPrefix(e.m);
    WildcardKeyIsPrefix(x.m);
  }

  /** A hit through the path table is the first hit of the linear scan if and only
      if no longer spelling of its prefix is lost. */
  lemma PathHitIsFirstExactly(n: Natives, s: seq<Entry>, t: Tables, head: Head)
    requires TablesOf(s, t) && Ranked(s) && forall e :: e in s ==> Plain(e.m)
    requires PathHit(n, t, head).Some?
    ensures PathKeyed(PathHit(n, t, head).value.m)
    ensures Linear(n, s, head) == PathHit(n, t, head) <==> !LongerSpellingLost(n, s, head, PathHit(n, t, head).value)
  {
    var e := PathHit(n, t, head).value;
    InSelectedBucket(s, t, head, e);
    DispatchSound(n, s, t, head);
    RankedFirst(s, Satisfied(n, head), e);
    if LongerSpellingLost(n, s, head, e) {
      var x :| x in s && PathKeyed(x.m) && TableKey(x.m) == TableKey(e.m) && MethodKey(x.m) != MethodKey(e.m)
        && |x.m.path.value.value| > |e.m.path.value.value| && Satisfies(n, x.m, head);
      LongerSpellingRanksFirst(e, x);
      BeforeIsStrict(e, x);
      assert Satisfied(n, head)(x);
    } else {
      forall x | x in s && Satisfies(n, x.m, head) && x != e
        ensures Before(e, x)
      {
        RankedIsTotal(s, e, x);
        if Before(x, e) { RivalIsLongerSpelling(n, s, t, head, e, x); }
      }
    }
  }

  /** Prefixes that differ only in a trailing slash do not occur together. */
  ghost predicate OneSpelling(s: seq<Entry>) {
    forall a, b ::
      (a in s && b in s && PathKeyed(a.m) && PathKeyed(b.m)
       && a.m.path.value.ptype == b.m.path.value.ptype && TableKey(a.m) == TableKey(b.m)) ==>
        a.m.path.value == b.m.path.value
  }

  /** In particular with one spelling for each prefix. */
  lemma PathHitIsFirst(n: Natives, s: seq<Entry>, t: Tables, head: Head)
    requires TablesOf(s, t) && Ranked(s) && OneSpelling(s) && forall e :: e in s ==> Plain(e.m)
    ensures PathHit(n, t, head).Some? ==> Linear(n, s, head) == PathHit(n, t, head)
  {
    if PathHit(n, t, head).Some? {
      var e := PathHit(n, t, head).value;
      PathHitIsFirstExactly(n, s, t, head);
      InSelectedBucket(s, t, head, e);
      WildcardKeyIsPrefix(e.m);
      forall x | x in s && PathKeyed(x.m) && TableKey(x.m) == TableKey(e.m)
        ensures x.m.path.value == e.m.path.value
      {
        WildcardKeyIsPrefix(x.m);
      }
    }
  }

  // ------------------------------------------------- where dispatch departs

  lemma MethodHitIsFirst(n: Natives, s: seq<Entry>, t: Tables, head: Head)
    requires TablesOf(s, t)
    ensures MethodHit(n, t, head) == First(s, Both(WithMethod(head.verb), Rest(n, head)))
    ensures SlowHit(n, t, head) == First(s, Both(InSlow, Rest(n, head)))
  {
    FirstOfFilter(s, WithMethod(head.verb), Rest(n, head));
    FirstOfFilter(s, InSlow, Rest(n, head));
  }

  /** A plain match outside the path table is satisfied exactly when it sits in
      the request's method bucket or in the slow list and its rest accepts. */
  lemma LeftoverSatisfied(n: Natives, e: Entry, head: Head)
    requires !PathKeyed(e.m) && Plain(e.m)
    ensures Satisfies(n, e.m, head) <==> (InMethods(e, head.verb) || InSlow(e)) && RestAccepts(n, e.m, head)
  {
  }

  lemma KeyedRanksFirst(a: Entry, b: Entry)
    requires PathKeyed(a.m) && !PathKeyed(b.m)
    ensures Before(a, b)
  {
  }

  /** A keyed match that accepts the request, though no hit came through the path
      table: it sits under a less specific key or in the bucket passed over. */
  ghost predicate KeyedMatchLost(n: Natives, s: seq<Entry>, head: Head) {
    exists e :: e in s && PathKeyed(e.m) && Satisfies(n, e.m, head)
  }

  /** Both fallback lists have a hit, and the one of the slow list, which is tried
      last, ranks above the one of the method table. */
  predicate SlowOutranksMethod(n: Natives, t: Tables, head: Head) {
    && MethodHit(n, t, head).Some? && SlowHit(n, t, head).Some?
    && Before(SlowHit(n, t, head).value, MethodHit(n, t, head).value)
  }

  lemma LostMatchIsLinear(n: Natives, s: seq<Entry>, head: Head)
    requires Ranked(s) && KeyedMatchLost(n, s, head)
    ensures Linear(n, s, head).Some? && PathKeyed(Linear(n, s, head).value.m)
  {
    var e :| e in s && PathKeyed(e.m) && Satisfies(n, e.m, head);
    assert Satisfied(n, head)(e);
    var f := Linear(n, s, head).value;
    RankedFirst(s, Satisfied(n, head), f);
    if !PathKeyed(f.m) { KeyedRanksFirst(e, f); BeforeIsStrict(e, f); }
  }

  lemma BeforeIsTransitive(a: Entry, b: Entry, c: Entry)
    requires Before(a, b) && Before(b, c)
    ensures Before(a, c)
  {
  }

  /** The one of two hits that ranks first. */
  function Higher(a: Option<Entry>, b: Option<Entry>): Option<Entry> {
    if a.None? then b else if b.None? then a else if Before(b.value, a.value) then b else a
  }

  /** A search for either of two conditions finds the higher of their two hits. */
  lemma FirstOfEither(s: seq<Entry>, p: Entry -> bool, q: Entry -> bool, either: Entry -> bool)
    requires Ranked(s) && forall x :: x in s ==> (either(x) <==> p(x) || q(x))
    ensures First(s, either) == Higher(First(s, p), First(s, q))
  {
    var a, b := First(s, p), First(s, q);
    if Higher(a, b).Some? {
      var e := Higher(a, b).value;
      forall x | x in s && either(x) && x != e
        ensures Before(e, x)
      {
        var hit := if p(x) then a.value else b.value;
        RankedFirst(s, if p(x) then p else q, hit);
        if hit != e {
          RankedIsTotal(s, e, hit);
          if x != hit { BeforeIsTransitive(e, hit, x); }
        }
      }
      RankedFirst(s, either, e);
    }
  }

  lemma FallbackIsHigher(n: Natives, s: seq<Entry>, t: Tables, head: Head)
    requires TablesOf(s, t) && Ranked(s) && !KeyedMatchLost(n, s, head) && forall x :: x in s ==> Plain(x.m)
    ensures Linear(n, s, head) == Higher(MethodHit(n, t, head), SlowHit(n, t, head))
  {
    var p, q := Both(WithMethod(head.verb), Rest(n, head)), Both(InSlow, Rest(n, head));
    MethodHitIsFirst(n, s, t, head);
    forall x | x in s
      ensures Satisfied(n, head)(x) <==> p(x) || q(x)
    {
      if !PathKeyed(x.m) { LeftoverSatisfied(n, x, head); }
    }
    FirstOfEither(s, p, q, Satisfied(n, head));
  }

  lemma FallbackIsNotKeyed(n: Natives, s: seq<Entry>, t: Tables, head: Head)
    requires TablesOf(s, t) && PathHit(n, t, head).None? && Dispatched(n, t, head).Some?
    ensures !PathKeyed(Dispatched(n, t, head).value.m)
  {
    var e := Dispatched(n, t, head).value;
    FilterMember(s, WithMethod(head.verb), e);
    FilterMember(s, InSlow, e);
  }

  /** The dispatcher agrees with the linear scan on a request exactly when, with a
      hit through the path table, no longer spelling of its prefix is lost, and
      without one, no keyed match is lost and the slow list holds no hit that
      outranks the method table's. */
  lemma AgreesExactly(n: Natives, s: seq<Entry>, t: Tables, head: Head)
    requires TablesOf(s, t) && Ranked(s) && forall e :: e in s ==> Plain(e.m)
    ensures var hit := PathHit(n, t, head);
      Dispatched(n, t, head) == Linear(n, s, head) <==>
        if hit.Some? then PathKeyed(hit.value.m) && !LongerSpellingLost(n, s, head, hit.value)
        else !KeyedMatchLost(n, s, head) && !SlowOutranksMethod(n, t, head)
  {
    if PathHit(n, t, head).Some? {
      PathHitIsFirstExactly(n, s, t, head);
    } else if KeyedMatchLost(n, s, head) {
      LostMatchIsLinear(n, s, head);
      if Dispatched(n, t, head).Some? { FallbackIsNotKeyed(n, s, t, head); }
    } else {
      FallbackIsHigher(n, s, t, head);
      if MethodHit(n, t, head).Some? && SlowHit(n, t, head).Some? {
        BeforeIsStrict(MethodHit(n, t, head).value, SlowHit(n, t, head).value);
      }
    }
  }

  /** When no key of the path table covers the request and the method-less
      leftovers hold no regular expression, dispatcher and scan agree. */
  lemma AgreesWithoutCover(n: Natives, s: seq<Entry>, t: Tables, head: Head)
    requires TablesOf(s, t) && Ranked(s) && forall e :: e in s ==> Plain(e.m)
    requires FindKey(t.paths.Keys, head.path).None?
    requires forall e :: e in t.slow ==> TypeRank(e.m) != 1
    ensures Dispatched(n, t, head) == Linear(n, s, head)
  {
    FindKeyIsMostSpecific(t.paths.Keys, head.path);
    forall e | e in s && PathKeyed(e.m)
      ensures !Satisfies(n, e.m, head)
    {
      KeyInTable(s, t, e);
      KeyCoversIsPathCheck(n, e.m, head.path);
    }
    if SlowOutranksMethod(n, t, head) {
      FilterMember(s, InSlow, SlowHit(n, t, head).value);
      FilterMember(s, WithMethod(head.verb), MethodHit(n, t, head).value);
    }
    AgreesExactly(n, s, t, head);
  }
}
