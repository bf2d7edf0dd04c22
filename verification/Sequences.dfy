/** Options and the sequence operations that JavaScript has built in. */
module Sequences {

  datatype Option<+T> = None | Some(value: T)

  function Filter<T>(s: seq<T>, p: T -> bool): seq<T> {
    if s == [] then []
    else Filter(s[..|s| - 1], p) + if p(s[|s| - 1]) then [s[|s| - 1]] else []
  }

  /** `find`: the first element that passes. */
  function First<T>(s: seq<T>, p: T -> bool): (r: Option<T>)
    ensures r.Some? ==> r.value in s && p(r.value)
    ensures r.None? ==> forall x :: x in s ==> !p(x)
  {
    if s == [] then None else if p(s[0]) then Some(s[0]) else First(s[1..], p)
  }

  function IndexOf<T(==)>(s: seq<T>, x: T): (i: int)
    ensures -1 <= i < |s|
    ensures i >= 0 ==> s[i] == x && x !in s[..i]
    ensures i < 0 ==> x !in s
  {
    if s == [] then -1
    else if s[0] == x then 0
    else
      var i := IndexOf(s[1..], x);
      if i < 0 then -1 else assert s[..i + 1] == [s[0]] + s[1..][..i]; i + 1
  }

  /** `splice` of the first occurrence. */
  function Without<T(==)>(s: seq<T>, x: T): seq<T> {
    var i := IndexOf(s, x);
    if i < 0 then s else s[..i] + s[i + 1..]
  }

  /** The sequence with an element put in at position k. */
  function Insert<T(!new)>(s: seq<T>, k: nat, x: T): (r: seq<T>)
    requires k <= |s|
    ensures |r| == |s| + 1
    ensures forall i :: 0 <= i < |r| ==> r[i] == if i < k then s[i] else if i == k then x else s[i - 1]
    ensures forall y :: y in r <==> y == x || y in s
  {
    assert s == s[..k] + s[k..];
    s[..k] + [x] + s[k..]
  }

  lemma {:induction false} IndexOfSnoc<T>(s: seq<T>, last: T, x: T)
    ensures IndexOf(s + [last], x) == if x in s then IndexOf(s, x) else if x == last then |s| else -1
  {
    if s != [] {
      IndexOfSnoc(s[1..], last, x);
      assert (s + [last])[1..] == s[1..] + [last];
    }
  }

  lemma WithoutSnoc<T>(s: seq<T>, last: T, x: T)
    ensures Without(s + [last], x) == if x in s then Without(s, x) + [last] else if x == last then s else s + [last]
  {
    IndexOfSnoc(s, last, x);
    var i := IndexOf(s, x);
    if i >= 0 {
      assert (s + [last])[..i] == s[..i] && (s + [last])[i + 1..] == s[i + 1..] + [last];
      assert s[..i] + (s[i + 1..] + [last]) == (s[..i] + s[i + 1..]) + [last];
    } else if x == last {
      assert (s + [last])[..|s|] == s && (s + [last])[|s| + 1..] == [];
    }
  }

  lemma WithoutConcat<T>(s: seq<T>, t: seq<T>, x: T)
    requires |t| <= 1
    ensures Without(s + t, x) == if x in s then Without(s, x) + t else s + if t == [x] then [] else t
  {
    if t != [] {
      assert t == [t[0]];
      WithoutSnoc(s, t[0], x);
    } else {
      assert s + t == s;
    }
  }

  lemma {:induction false} FilterMember<T>(s: seq<T>, p: T -> bool, x: T)
    ensures x in Filter(s, p) <==> x in s && p(x)
  {
    if s != [] {
      FilterMember(s[..|s| - 1], p, x);
      assert s == s[..|s| - 1] + [s[|s| - 1]];
    }
  }

  lemma {:induction false} FilterConcat<T>(a: seq<T>, b: seq<T>, p: T -> bool)
    ensures Filter(a + b, p) == Filter(a, p) + Filter(b, p)
  {
    if b == [] {
      assert a + b == a;
    } else {
      FilterConcat(a, b[..|b| - 1], p);
      assert (a + b)[..|a + b| - 1] == a + b[..|b| - 1];
    }
  }

  /** Taking out an element that the filter drops anyway changes nothing. */
  lemma FilterWithout<T>(s: seq<T>, x: T, p: T -> bool)
    requires !p(x)
    ensures Filter(Without(s, x), p) == Filter(s, p)
  {
    var i := IndexOf(s, x);
    if i >= 0 {
      var a, b := s[..i], s[i + 1..];
      assert s == (a + [x]) + b;
      FilterConcat(a + [x], b, p);
      assert (a + [x])[..|a|] == a;
      assert Filter(a + [x], p) == Filter(a, p);
      FilterConcat(a, b, p);
    }
  }

  lemma {:induction false} FilterSame<T>(s: seq<T>, p: T -> bool, q: T -> bool)
    requires forall x :: x in s ==> p(x) == q(x)
    ensures Filter(s, p) == Filter(s, q)
  {
    if s != [] {
      assert forall x :: x in s[..|s| - 1] ==> x in s;
      assert s[|s| - 1] in s;
      FilterSame(s[..|s| - 1], p, q);
    }
  }

  lemma {:induction false} FirstConcat<T>(a: seq<T>, b: seq<T>, p: T -> bool)
    ensures First(a + b, p) == if First(a, p).Some? then First(a, p) else First(b, p)
  {
    if a == [] {
      assert a + b == b;
    } else {
      assert (a + b)[1..] == a[1..] + b;
      FirstConcat(a[1..], b, p);
    }
  }

  function Both<T>(q: T -> bool, p: T -> bool): T -> bool {
    x => q(x) && p(x)
  }

  /** Searching a filtered list is searching the list for both conditions. */
  lemma {:induction false} FirstOfFilter<T>(s: seq<T>, q: T -> bool, p: T -> bool)
    ensures First(Filter(s, q), p) == First(s, Both(q, p))
  {
    if s != [] {
      var init, x := s[..|s| - 1], s[|s| - 1];
      assert s == init + [x];
      FirstOfFilter(init, q, p);
      FirstConcat(init, [x], Both(q, p));
      FirstConcat(Filter(init, q), if q(x) then [x] else [], p);
    }
  }

  lemma {:induction false} FirstSame<T>(s: seq<T>, p: T -> bool, q: T -> bool)
    requires forall x :: x in s ==> p(x) == q(x)
    ensures First(s, p) == First(s, q)
  {
    if s != [] { FirstSame(s[1..], p, q); }
  }
}
