/** HTTP route matches of src/modules/router-http.js: what a match asks of a
    request, how matches are ranked, and the order in which they are tried. */
module Matching {
  import opened Sequences
  import opened Decimal
  import opened Priorities

  // ------------------------------------------------------------------ model

  /** `match.path.type`; Untyped when the field is absent, UnknownType for any
      other spelling. */
  datatype PathType = Exact | PathPrefix | RegularExpression | Untyped | UnknownType

  datatype PathMatch = PathMatch(ptype: PathType, value: string)

  datatype ItemType = ExactItem | RegexItem | UntypedItem | UnknownItem

  /** An entry of `match.headers` or `match.queryParams`. */
  datatype Item = Item(itype: ItemType, name: string, value: string)

  /** A match; the HTTP method is its verb, empty when absent. */
  datatype Match = Match(path: Option<PathMatch>, verb: string, headers: seq<Item>, queryParams: seq<Item>)

  /** The head of a request. */
  datatype Head = Head(verb: string, path: string, headers: map<string, string>)

  /** What the runtime supplies: the regular-expression test of a pattern on a
      text, and the parsed query of a path. */
  datatype Natives = Natives(test: (string, string) -> bool, query: string -> map<string, string>)

  function LowerChar(c: char): char {
    if 'A' <= c <= 'Z' then c - 'A' + 'a' else c
  }

  function Lower(s: string): string {
    seq(|s|, i requires 0 <= i < |s| => LowerChar(s[i]))
  }

  /** `obj[k] || ''`. */
  function Field(obj: map<string, string>, k: string): string {
    if k in obj then obj[k] else ""
  }

  predicate ItemAccepts(n: Natives, item: Item, obj: map<string, string>) {
    match item.itype
    case ExactItem | UntypedItem => item.value == Field(obj, Lower(item.name))
    case RegexItem => n.test(item.value, Field(obj, Lower(item.name)))
    case UnknownItem => true
  }

  /** makeObjectMatcher. */
  predicate ItemsAccept(n: Natives, items: seq<Item>, obj: map<string, string>) {
    forall i :: 0 <= i < |items| ==> ItemAccepts(n, items[i], obj)
  }

  // ------------------------------------------------------------------- paths

  /** The path without its query. */
  function StripQuery(path: string): string {
    if path == "" then "" else if path[0] == '?' then "" else [path[0]] + StripQuery(path[1..])
  }

  predicate EndsWith(s: string, t: string) {
    |s| >= |t| && s[|s| - |t|..] == t
  }

  /** A prefix without its trailing slash. */
  function Base(value: string): string {
    if EndsWith(value, "/") then value[..|value| - 1] else value
  }

  /** The path is the base itself or lies below it. */
  predicate Under(path: string, base: string) {
    base <= path && (|path| == |base| || path[|base|] == '/')
  }

  predicate PathAccepts(n: Natives, m: PathMatch, path: string) {
    match m.ptype
    case Exact | Untyped => StripQuery(path) == m.value
    case PathPrefix => Under(StripQuery(path), Base(m.value))
    case RegularExpression => n.test(m.value, path)
    case UnknownType => false
  }

  /** All of the match's own conditions: what the linear scan tests. */
  predicate Satisfies(n: Natives, m: Match, head: Head) {
    && (m.verb != "" ==> head.verb == m.verb)
    && (m.path.Some? ==> PathAccepts(n, m.path.value, head.path))
    && ItemsAccept(n, m.headers, head.headers)
    && ItemsAccept(n, m.queryParams, n.query(head.path))
  }

  // -------------------------------------------------------------- priorities

  function TypeRank(m: Match): nat {
    if m.path.None? then 0
    else match m.path.value.ptype
      case Exact => 3
      case PathPrefix => 2
      case RegularExpression => 1
      case Untyped | UnknownType => 0
  }

  function LengthRank(m: Match): nat {
    if TypeRank(m) == 1 || TypeRank(m) == 2 then |m.path.value.value| else 0
  }

  function MethodRank(m: Match): nat {
    if m.verb != "" then 1 else 0
  }

  /** A match with its position in the declaration order, which also names its
      backend selector, rule and resource. */
  datatype Entry = Entry(m: Match, index: nat)

  /** The last three fields of the priority. */
  function MinorPriority(e: Entry): string {
    Padded(|e.m.headers|, 3) + "/" + (Padded(|e.m.queryParams|, 3) + "/" + Padded(e.index, 6))
  }

  /** getMatchPriority: the six fields joined with slashes. */
  function Priority(e: Entry): string {
    Numeral(TypeRank(e.m)) + "/" +
      (Padded(LengthRank(e.m), 3) + "/" + (Numeral(MethodRank(e.m)) + "/" + MinorPriority(e)))
  }

  predicate MinorBefore(a: Entry, b: Entry) {
    if |a.m.headers| != |b.m.headers| then |a.m.headers| > |b.m.headers|
    else if |a.m.queryParams| != |b.m.queryParams| then |a.m.queryParams| > |b.m.queryParams|
    else a.index > b.index
  }

  /** The precedence the ranks stand for: path type, path length, method, number
      of header conditions, number of query conditions, and, on ties, the later
      declaration. */
  predicate Before(a: Entry, b: Entry) {
    if TypeRank(a.m) != TypeRank(b.m) then TypeRank(a.m) > TypeRank(b.m)
    else if LengthRank(a.m) != LengthRank(b.m) then LengthRank(a.m) > LengthRank(b.m)
    else if MethodRank(a.m) != MethodRank(b.m) then MethodRank(a.m) > MethodRank(b.m)
    else MinorBefore(a, b)
  }

  /** The numbers fit the widths they are padded to. */
  predicate Fits(e: Entry) {
    LengthRank(e.m) < 1000 && |e.m.headers| < 1000 && |e.m.queryParams| < 1000 && e.index < 1000000
  }

  /** One field and its separator. */
  lemma LessByField(a: string, b: string, c: string, d: string)
    requires |a| == |b|
    ensures Less(a + "/" + c, b + "/" + d) <==> Less(a, b) || (a == b && Less(c, d))
  {
    LessByFields(a + "/", b + "/", c, d);
    LessByFields(a, b, "/", "/");
    LessIsTotal("/", "/");
    assert (a + "/")[..|a|] == a && (b + "/")[..|b|] == b;
  }

  lemma NumeralOrder(m: nat, n: nat)
    requires m < 10 && n < 10
    ensures |Numeral(m)| == |Numeral(n)| && (Less(Numeral(m), Numeral(n)) <==> m < n) &&
      (Numeral(m) == Numeral(n) <==> m == n)
  {
    assert Numeral(m)[1..] == "" && Numeral(n)[1..] == "";
    assert DigitValue(Numeral(m)[0]) == m && DigitValue(Numeral(n)[0]) == n;
  }

  lemma MinorPriorityEmbeds(a: Entry, b: Entry)
    requires Fits(a) && Fits(b)
    ensures Less(MinorPriority(b), MinorPriority(a)) <==> MinorBefore(a, b)
  {
    assert Pow10(1) == 10 && Pow10(2) == 100 && Pow10(3) == 1000 && Pow10(4) == 10000 && Pow10(5) == 100000 &&
      Pow10(6) == 1000000;
    PaddedOrder(b.index, a.index, 6);
    PaddedOrder(|b.m.queryParams|, |a.m.queryParams|, 3);
    LessByField(Padded(|b.m.queryParams|, 3), Padded(|a.m.queryParams|, 3), Padded(b.index, 6), Padded(a.index, 6));
    PaddedOrder(|b.m.headers|, |a.m.headers|, 3);
    LessByField(Padded(|b.m.headers|, 3), Padded(|a.m.headers|, 3),
      Padded(|b.m.queryParams|, 3) + "/" + Padded(b.index, 6), Padded(|a.m.queryParams|, 3) + "/" + Padded(a.index, 6));
  }

  /** Comparing priority strings is comparing precedence. */
  lemma PriorityEmbedsPrecedence(a: Entry, b: Entry)
    requires Fits(a) && Fits(b)
    ensures Less(Priority(b), Priority(a)) <==> Before(a, b)
  {
    assert Pow10(1) == 10 && Pow10(2) == 100 && Pow10(3) == 1000;
    var a3, b3 := MinorPriority(a), MinorPriority(b);
    MinorPriorityEmbeds(a, b);
    NumeralOrder(MethodRank(b.m), MethodRank(a.m));
    LessByField(Numeral(MethodRank(b.m)), Numeral(MethodRank(a.m)), b3, a3);
    PaddedOrder(LengthRank(b.m), LengthRank(a.m), 3);
    LessByField(Padded(LengthRank(b.m), 3), Padded(LengthRank(a.m), 3),
      Numeral(MethodRank(b.m)) + "/" + b3, Numeral(MethodRank(a.m)) + "/" + a3);
    NumeralOrder(TypeRank(b.m), TypeRank(a.m));
    LessByField(Numeral(TypeRank(b.m)), Numeral(TypeRank(a.m)),
      Padded(LengthRank(b.m), 3) + "/" + (Numeral(MethodRank(b.m)) + "/" + b3),
      Padded(LengthRank(a.m), 3) + "/" + (Numeral(MethodRank(a.m)) + "/" + a3));
  }

  /** The five fields before the index put the first match before the second. */
  predicate Outranks(a: Match, b: Match) {
    if TypeRank(a) != TypeRank(b) then TypeRank(a) > TypeRank(b)
    else if LengthRank(a) != LengthRank(b) then LengthRank(a) > LengthRank(b)
    else if MethodRank(a) != MethodRank(b) then MethodRank(a) > MethodRank(b)
    else if |a.headers| != |b.headers| then |a.headers| > |b.headers|
    else |a.queryParams| > |b.queryParams|
  }

  /** Of two matches the later-declared one is tried first, if and only if those
      fields do not put the earlier one first; so on a tie it is the later one. */
  lemma LaterFirstUnlessOutranked(a: Entry, b: Entry)
    requires Fits(a) && Fits(b) && a.index < b.index
    ensures Less(Priority(a), Priority(b)) <==> !Outranks(a.m, b.m)
  {
    PriorityEmbedsPrecedence(b, a);
  }

  /** A four-digit number without its last digit is padded as it is written. */
  lemma FourDigits(m: nat)
    requires 1000 <= m < 10000
    ensures Padded(m, 3) == Padded(m / 10, 3) + [Digit(m % 10)]
  {
    assert Pow10(2) == 100 && Pow10(3) == 1000;
    NumeralLength(m / 10, 2);
    NumeralLength(m / 10, 3);
  }

  /** Behind a four-digit length that starts with the three digits of another, a
      digit stands where the other has its slash. */
  lemma FourDigitsCompare(m: nat, n: nat, x: string, y: string)
    requires 1000 <= m < 10000 && n < 1000
    ensures Less(Padded(m, 3) + "/" + x, Padded(n, 3) + "/" + y) <==> m / 10 < n
  {
    var d := [Digit(m % 10)];
    assert Pow10(3) == 1000;
    FourDigits(m);
    PaddedOrder(m / 10, n, 3);
    assert Padded(m, 3) + "/" + x == Padded(m / 10, 3) + (d + "/" + x);
    assert Padded(n, 3) + "/" + y == Padded(n, 3) + ("/" + y);
    LessByFields(Padded(m / 10, 3), Padded(n, 3), d + "/" + x, "/" + y);
  }

  /** A pattern whose length needs four digits should be tried before a shorter one
      of the same type. It is tried behind it exactly when its length without the
      last digit is the smaller number. */
  lemma LongLengthLosesExactly(a: Entry, b: Entry)
    requires TypeRank(a.m) == TypeRank(b.m) && 1000 <= LengthRank(a.m) < 10000 && LengthRank(b.m) < 1000
    ensures Before(a, b) && (Less(Priority(a), Priority(b)) <==> LengthRank(a.m) / 10 < LengthRank(b.m))
  {
    var x, y := Numeral(MethodRank(a.m)) + "/" + MinorPriority(a), Numeral(MethodRank(b.m)) + "/" + MinorPriority(b);
    var m, n, t := LengthRank(a.m), LengthRank(b.m), Numeral(TypeRank(a.m));
    FourDigitsCompare(m, n, x, y);
    LessByField(t, t, Padded(m, 3) + "/" + x, Padded(n, 3) + "/" + y);
    assert Priority(a) == t + "/" + (Padded(m, 3) + "/" + x) && Priority(b) == t + "/" + (Padded(n, 3) + "/" + y);
    LessIsTotal(t, t);
  }

  // ------------------------------------------------------- the sorted matches

  /** The matches of a host in declaration order. */
  function Declared(matches: seq<Match>): seq<Entry> {
    seq(|matches|, i requires 0 <= i < |matches| => Entry(matches[i], i))
  }

  /** Every entry fits, and the list is in order of precedence. */
  ghost predicate Ranked(s: seq<Entry>) {
    && (forall e :: e in s ==> Fits(e))
    && forall i, j :: 0 <= i < j < |s| ==> Before(s[i], s[j])
  }

  lemma SortedIsRanked(s: seq<Entry>)
    requires Sorted(s, Priority) && forall e :: e in s ==> Fits(e)
    ensures Ranked(s)
  {
    forall i, j | 0 <= i < j < |s|
      ensures Before(s[i], s[j])
    {
      PriorityEmbedsPrecedence(s[i], s[j]);
    }
  }
}
