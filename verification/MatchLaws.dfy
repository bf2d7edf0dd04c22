/** What a match asks of a request and when it is tried, in terms of the texts
    themselves: letters, header values, path segments and lengths. */
module MatchLaws {
  import opened Sequences
  import opened Priorities
  import opened Matching
  import opened Dispatch
  import opened DispatchProofs
  import opened DispatchLimits

  // ------------------------------------------------------------- conditions

  /** The first text is the second with its capital letters made small. */
  ghost predicate SmallCopy(k: string, s: string) {
    && |k| == |s|
    && forall i :: 0 <= i < |s| ==> k[i] as int == s[i] as int + if 'A' <= s[i] <= 'Z' then 32 else 0
  }

  lemma LowerIsSmallCopy(s: string, k: string)
    ensures k == Lower(s) <==> SmallCopy(k, s)
  {
  }

  /** A value is what the item asks for, or passes its pattern. */
  ghost predicate Fulfils(n: Natives, item: Item, v: string) {
    && (item.itype == ExactItem || item.itype == UntypedItem ==> v == item.value)
    && (item.itype == RegexItem ==> n.test(item.value, v))
  }

  /** The header or parameter that the item names, in small letters, is what it asks
      for; one that is absent counts as empty. */
  ghost predicate Met(n: Natives, item: Item, obj: map<string, string>) {
    exists k :: SmallCopy(k, item.name) && Fulfils(n, item, if k in obj then obj[k] else "")
  }

  lemma ItemAcceptsExactly(n: Natives, item: Item, obj: map<string, string>)
    ensures ItemAccepts(n, item, obj) <==> Met(n, item, obj)
  {
    var k := Lower(item.name);
    LowerIsSmallCopy(item.name, k);
    forall k' | SmallCopy(k', item.name)
      ensures k' == k
    {
      LowerIsSmallCopy(item.name, k');
    }
  }

  /** For an item named in small letters it is the entry of that very name. */
  lemma SmallNameIsRead(n: Natives, item: Item, obj: map<string, string>)
    requires forall c :: c in item.name ==> !('A' <= c <= 'Z')
    ensures var v := if item.name in obj then obj[item.name] else "";
      match item.itype
      case ExactItem | UntypedItem => ItemAccepts(n, item, obj) <==> v == item.value
      case RegexItem => ItemAccepts(n, item, obj) <==> n.test(item.value, v)
      case UnknownItem => ItemAccepts(n, item, obj)
  {
    assert forall i :: 0 <= i < |item.name| ==> item.name[i] in item.name;
    LowerIsSmallCopy(item.name, item.name);
  }

  /** Casing of the name makes no difference. */
  lemma RecasedName(n: Natives, item: Item, name: string, obj: map<string, string>)
    requires |name| == |item.name|
    requires forall i :: 0 <= i < |name| ==>
      || name[i] == item.name[i]
      || ('A' <= name[i] <= 'Z' && item.name[i] as int == name[i] as int + 32)
      || ('a' <= name[i] <= 'z' && item.name[i] as int == name[i] as int - 32)
    ensures ItemAccepts(n, item.(name := name), obj) <==> ItemAccepts(n, item, obj)
  {
    LowerIsSmallCopy(name, Lower(item.name));
  }

  ghost predicate AllMet(n: Natives, items: seq<Item>, obj: map<string, string>) {
    forall i :: 0 <= i < |items| ==> Met(n, items[i], obj)
  }

  lemma ItemsAcceptExactly(n: Natives, items: seq<Item>, obj: map<string, string>)
    ensures ItemsAccept(n, items, obj) <==> AllMet(n, items, obj)
  {
    forall i | 0 <= i < |items|
      ensures ItemAccepts(n, items[i], obj) <==> Met(n, items[i], obj)
    {
      ItemAcceptsExactly(n, items[i], obj);
    }
  }

  // ------------------------------------------------------------------- paths

  /** The bare path ends before the first question mark. */
  ghost predicate BareOf(bare: string, path: string) {
    bare <= path && '?' !in bare && (|bare| < |path| ==> path[|bare|] == '?')
  }

  lemma {:induction false} StripQueryExactly(path: string, bare: string)
    ensures bare == StripQuery(path) <==> BareOf(bare, path)
  {
    if path != "" && path[0] != '?' {
      StripQueryExactly(path[1..], StripQuery(path)[1..]);
      if bare != "" {
        StripQueryExactly(path[1..], bare[1..]);
        assert bare[0] == path[0] && bare[1..] <= path[1..] ==> bare <= path;
        assert bare == [bare[0]] + bare[1..];
      }
    }
  }

  /** What the path type asks of the path, segment by segment. */
  ghost predicate PathMet(n: Natives, m: PathMatch, path: string) {
    match m.ptype
    case Exact | Untyped => BareOf(m.value, path)
    case PathPrefix =>
      exists bare, base ::
        && BareOf(bare, path)
        && (m.value == base + "/" || (m.value == base && (base == "" || base[|base| - 1] != '/')))
        && (bare == base || base + "/" <= bare)
    case RegularExpression => n.test(m.value, path)
    case UnknownType => false
  }

  lemma UnderExactly(bare: string, base: string)
    ensures Under(bare, base) <==> bare == base || base + "/" <= bare
  {
    if Under(bare, base) && bare != base {
      assert bare[..|base| + 1] == base + "/";
    }
  }

  lemma BaseExactly(value: string, base: string)
    ensures base == Base(value) <==>
      value == base + "/" || (value == base && (base == "" || base[|base| - 1] != '/'))
  {
    if EndsWith(value, "/") { assert value == value[..|value| - 1] + "/"; }
    if value == base + "/" { assert value[..|value| - 1] == base && EndsWith(value, "/"); }
  }

  /** A way to read the path and the prefix is the way the matcher reads them. */
  lemma PrefixRead(value: string, path: string, bare: string, base: string)
    requires BareOf(bare, path)
    requires value == base + "/" || (value == base && (base == "" || base[|base| - 1] != '/'))
    ensures Under(StripQuery(path), Base(value)) <==> bare == base || base + "/" <= bare
  {
    StripQueryExactly(path, bare);
    BaseExactly(value, base);
    UnderExactly(bare, base);
  }

  lemma PrefixAcceptsExactly(n: Natives, m: PathMatch, path: string)
    requires m.ptype == PathPrefix
    ensures PathAccepts(n, m, path) <==> PathMet(n, m, path)
  {
    var bare, base := StripQuery(path), Base(m.value);
    StripQueryExactly(path, bare);
    BaseExactly(m.value, base);
    PrefixRead(m.value, path, bare, base);
    if PathMet(n, m, path) {
      var bare', base' :|
        && BareOf(bare', path)
        && (m.value == base' + "/" || (m.value == base' && (base' == "" || base'[|base'| - 1] != '/')))
        && (bare' == base' || base' + "/" <= bare');
      PrefixRead(m.value, path, bare', base');
    }
  }

  lemma PathAcceptsExactly(n: Natives, m: PathMatch, path: string)
    ensures PathAccepts(n, m, path) <==> PathMet(n, m, path)
  {
    if m.ptype == PathPrefix {
      PrefixAcceptsExactly(n, m, path);
    } else {
      StripQueryExactly(path, m.value);
    }
  }

  /** All conditions of a match, in these terms. */
  ghost predicate Asks(n: Natives, m: Match, head: Head) {
    && (m.verb != "" ==> head.verb == m.verb)
    && (m.path.Some? ==> PathMet(n, m.path.value, head.path))
    && AllMet(n, m.headers, head.headers)
    && AllMet(n, m.queryParams, n.query(head.path))
  }

  lemma SatisfiesExactly(n: Natives, m: Match, head: Head)
    ensures Satisfies(n, m, head) <==> Asks(n, m, head)
  {
    if m.path.Some? { PathAcceptsExactly(n, m.path.value, head.path); }
    ItemsAcceptExactly(n, m.headers, head.headers);
    ItemsAcceptExactly(n, m.queryParams, n.query(head.path));
  }

  /** Whatever is dispatched has its header and query conditions met, and all its
      conditions if the matches are plain. */
  lemma DispatchedIsAskedFor(n: Natives, s: seq<Entry>, t: Tables, head: Head)
    requires TablesOf(s, t) && Dispatched(n, t, head).Some?
    ensures var m := Dispatched(n, t, head).value.m;
      && AllMet(n, m.headers, head.headers) && AllMet(n, m.queryParams, n.query(head.path))
      && ((forall e :: e in s ==> Plain(e.m)) ==> Asks(n, m, head))
  {
    var e := Dispatched(n, t, head).value;
    assert Rest(n, head)(e);
    ItemsAcceptExactly(n, e.m.headers, head.headers);
    ItemsAcceptExactly(n, e.m.queryParams, n.query(head.path));
    DispatchSoundExactly(n, s, t, head);
    SatisfiesExactly(n, e.m, head);
  }

  const MIXED_CASE := Entry(Match(Some(PathMatch(PathPrefix, "/a")), "", [Item(ExactItem, "X-V", "1")], []), 0)

  /** A header condition in mixed case is met by the header in small letters. */
  lemma MixedCaseHeaderIsMet(n: Natives, t: Tables)
    requires TablesOf([MIXED_CASE], t)
    ensures Dispatched(n, t, Head("GET", "/a", map["x-v" := "1"])) == Some(MIXED_CASE)
  {
    var s, head, item := [MIXED_CASE], Head("GET", "/a", map["x-v" := "1"]), MIXED_CASE.m.headers[0];
    LowerIsSmallCopy("X-V", "x-v");
    StripPlain("/a");
    assert ItemAccepts(n, item, head.headers);
    KeyCoversIsPathCheck(n, MIXED_CASE.m, "/a");
    assert Base("/a") == "/a";
    OneKeyHit(n, s, t, "/a" + "/*", head, MIXED_CASE);
  }

  const MIXED_CASE_QUERY := Entry(NO_CONDITIONS.(queryParams := [Item(ExactItem, "userId", "1")]), 0)

  /** A query condition in mixed case is not met by the parameter of that name. */
  lemma MixedCaseParameterIsNotMet(n: Natives, t: Tables, head: Head)
    requires TablesOf([MIXED_CASE_QUERY], t) && n.query(head.path) == map["userId" := "1"]
    ensures Dispatched(n, t, head) == None
  {
    LowerIsSmallCopy("userId", "userid");
    assert !ItemAccepts(n, MIXED_CASE_QUERY.m.queryParams[0], map["userId" := "1"]);
    if Dispatched(n, t, head).Some? {
      DispatchSoundExactly(n, [MIXED_CASE_QUERY], t, head);
    }
  }

  // ------------------------------------------------------------------- order

  predicate HasType(m: Match, ptype: PathType) {
    m.path.Some? && m.path.value.ptype == ptype
  }

  /** Exact paths are tried before prefixes, those before regular expressions, and
      these before paths of no known type. */
  lemma PathTypesInOrder(a: Entry, b: Entry)
    requires Fits(a) && Fits(b)
    ensures HasType(a.m, Exact) && !HasType(b.m, Exact) ==> Less(Priority(b), Priority(a))
    ensures HasType(a.m, PathPrefix) && !HasType(b.m, Exact) && !HasType(b.m, PathPrefix) ==>
      Less(Priority(b), Priority(a))
    ensures HasType(a.m, RegularExpression) && !HasType(b.m, Exact) && !HasType(b.m, PathPrefix) ==>
      HasType(b.m, RegularExpression) || Less(Priority(b), Priority(a))
  {
    PriorityEmbedsPrecedence(a, b);
  }

  /** Of two prefixes, or two regular expressions, the longer is tried first. */
  lemma LongerPathFirst(a: Entry, b: Entry)
    requires Fits(a) && Fits(b)
    requires a.m.path.Some? && b.m.path.Some? && |a.m.path.value.value| > |b.m.path.value.value|
    requires (HasType(a.m, PathPrefix) && HasType(b.m, PathPrefix)) ||
      (HasType(a.m, RegularExpression) && HasType(b.m, RegularExpression))
    ensures Less(Priority(b), Priority(a))
  {
    PriorityEmbedsPrecedence(a, b);
  }

  /** Between paths of one type and length, or exact ones of any length, a match of
      a method is tried first, then one with more header conditions, then one with
      more query conditions, and then the one declared later. */
  lemma ThenMethodHeadersQuery(a: Entry, b: Entry)
    requires Fits(a) && Fits(b) && a.m.path.Some? && b.m.path.Some? && a.m.path.value.ptype == b.m.path.value.ptype
    requires |a.m.path.value.value| == |b.m.path.value.value| || HasType(a.m, Exact)
    ensures var same := a.m.verb == "" <==> b.m.verb == "";
      && (a.m.verb != "" && b.m.verb == "" ==> Less(Priority(b), Priority(a)))
      && (same && |a.m.headers| > |b.m.headers| ==> Less(Priority(b), Priority(a)))
      && (same && |a.m.headers| == |b.m.headers| ==>
        && (|a.m.queryParams| > |b.m.queryParams| ==> Less(Priority(b), Priority(a)))
        && (|a.m.queryParams| == |b.m.queryParams| && a.index > b.index ==> Less(Priority(b), Priority(a))))
  {
    PriorityEmbedsPrecedence(a, b);
  }
}
