/** Match priorities of src/modules/router-http.js: matches are ranked by a
    joined, zero-padded string, and sorted by comparing those strings. */
module Priorities {
  import opened Sequences
  import opened Decimal

  // ------------------------------------------------------------ string order

  /** JavaScript `<` on strings. */
  predicate Less(a: string, b: string) {
    if b == "" then false
    else if a == "" then true
    else a[0] < b[0] || (a[0] == b[0] && Less(a[1..], b[1..]))
  }

  /** Fields of equal width compare one after the other. */
  lemma {:induction false} LessByFields(a: string, b: string, c: string, d: string)
    requires |a| == |b|
    ensures Less(a + c, b + d) <==> Less(a, b) || (a == b && Less(c, d))
  {
    if a == "" {
      assert a + c == c && b + d == d;
    } else {
      assert (a + c)[1..] == a[1..] + c && (b + d)[1..] == b[1..] + d;
      LessByFields(a[1..], b[1..], c, d);
    }
  }

  lemma {:induction false} LessIsTotal(a: string, b: string)
    ensures Less(a, b) || Less(b, a) || a == b
    ensures !(Less(a, b) && Less(b, a)) && !Less(a, a)
  {
    if a != "" && b != "" { LessIsTotal(a[1..], b[1..]); }
    if a != "" { LessIsTotal(a[1..], a[1..]); }
  }

  lemma {:induction false} LessIsTransitive(a: string, b: string, c: string)
    requires Less(a, b) && Less(b, c)
    ensures Less(a, c)
  {
    if a != "" && a[0] == b[0] == c[0] { LessIsTransitive(a[1..], b[1..], c[1..]); }
  }

  // ---------------------------------------------------------------- padding

  function Zeros(n: nat): string {
    if n == 0 then "" else Zeros(n - 1) + "0"
  }

  /** `n.toString().padStart(w, '0')`. */
  function Padded(n: nat, w: nat): string {
    if |Numeral(n)| < w then Zeros(w - |Numeral(n)|) + Numeral(n) else Numeral(n)
  }

  /** The last w digits of n. */
  function FixedWidth(n: nat, w: nat): (s: string)
    ensures |s| == w
  {
    if w == 0 then "" else FixedWidth(n / 10, w - 1) + [Digit(n % 10)]
  }

  lemma {:induction false} ZerosAreFixedWidth(w: nat)
    ensures Zeros(w) == FixedWidth(0, w)
  {
    if w > 0 { ZerosAreFixedWidth(w - 1); }
  }

  lemma {:induction false} PaddedIsFixedWidth(n: nat, w: nat)
    requires n < Pow10(w) && w >= 1
    ensures Padded(n, w) == FixedWidth(n, w)
  {
    NumeralLength(n, w);
    if n < 10 {
      ZerosAreFixedWidth(w - 1);
      assert FixedWidth(n, w) == FixedWidth(0, w - 1) + [Digit(n)];
      if w == 1 { assert Zeros(0) + Numeral(n) == Numeral(n); }
    } else {
      assert w > 1;
      NumeralLength(n / 10, w - 1);
      PaddedIsFixedWidth(n / 10, w - 1);
      var k := w - |Numeral(n)|;
      assert k == w - 1 - |Numeral(n / 10)|;
      if k > 0 {
        assert Zeros(k) + Numeral(n) == (Zeros(k) + Numeral(n / 10)) + [Digit(n % 10)];
      }
    }
  }

  lemma {:induction false} FixedWidthOrder(m: nat, n: nat, w: nat)
    requires m < Pow10(w) && n < Pow10(w)
    ensures Less(FixedWidth(m, w), FixedWidth(n, w)) <==> m < n
    ensures FixedWidth(m, w) == FixedWidth(n, w) <==> m == n
  {
    if w > 0 {
      var a, b, c, d := FixedWidth(m / 10, w - 1), FixedWidth(n / 10, w - 1), [Digit(m % 10)], [Digit(n % 10)];
      FixedWidthOrder(m / 10, n / 10, w - 1);
      LessByFields(a, b, c, d);
      assert Less(c, d) <==> m % 10 < n % 10 by { assert c[1..] == "" && d[1..] == ""; }
      assert (a + c)[..w - 1] == a && (b + d)[..w - 1] == b && (a + c)[w - 1] == c[0] && (b + d)[w - 1] == d[0];
      assert DigitValue(c[0]) == m % 10 && DigitValue(d[0]) == n % 10;
    }
  }

  /** Padded numerals compare as numbers do while they fit their width. */
  lemma PaddedOrder(m: nat, n: nat, w: nat)
    requires m < Pow10(w) && n < Pow10(w) && w >= 1
    ensures |Padded(m, w)| == |Padded(n, w)| == w
    ensures Less(Padded(m, w), Padded(n, w)) <==> m < n
    ensures Padded(m, w) == Padded(n, w) <==> m == n
  {
    PaddedIsFixedWidth(m, w);
    PaddedIsFixedWidth(n, w);
    FixedWidthOrder(m, n, w);
  }

  /** Three-digit padding keeps numeric order up to a bound exactly when the
      bound is below 1000: "1000" sorts before "999". */
  lemma PaddingKeepsOrderExactly(bound: nat)
    ensures (forall m: nat, n: nat :: m <= bound && n <= bound ==>
      (Less(Padded(m, 3), Padded(n, 3)) <==> m < n)) <==> bound < 1000
  {
    assert Pow10(3) == 1000 by { assert Pow10(1) == 10 && Pow10(2) == 100; }
    if bound < 1000 {
      forall m: nat, n: nat | m <= bound && n <= bound
        ensures Less(Padded(m, 3), Padded(n, 3)) <==> m < n
      {
        PaddedOrder(m, n, 3);
      }
    } else {
      assert Numeral(99) == "99" && Numeral(999) == "999";
      assert Numeral(10) == "10" && Numeral(100) == "100" && Numeral(1000) == "1000";
      assert !Less(Padded(999, 3), Padded(1000, 3));
    }
  }

  // ---------------------------------------------------------------- sorting

  /** The comparator `a > b ? -1 : 1` never returns 0; a sorted list is one in
      which it puts every element before all later ones. */
  ghost predicate Sorted<T>(s: seq<T>, key: T -> string) {
    forall i, j :: 0 <= i < j < |s| ==> Less(key(s[j]), key(s[i]))
  }

  /** The head of a sorted list is not below any of its elements. */
  lemma HeadIsGreatest<T>(s: seq<T>, key: T -> string, x: T)
    requires Sorted(s, key) && x in s
    ensures x == s[0] || Less(key(x), key(s[0]))
  {
    var k :| 0 <= k < |s| && s[k] == x;
  }

  lemma HeadsAgree<T>(s: seq<T>, t: seq<T>, key: T -> string)
    requires Sorted(s, key) && Sorted(t, key) && multiset(s) == multiset(t) && s != []
    ensures t != [] && s[0] == t[0]
  {
    assert s[0] in multiset(s);
    assert t != [] && t[0] in multiset(t);
    HeadIsGreatest(s, key, t[0]);
    HeadIsGreatest(t, key, s[0]);
    LessIsTotal(key(s[0]), key(t[0]));
  }

  lemma TailMultiset<T>(s: seq<T>)
    requires s != []
    ensures multiset(s[1..]) == multiset(s) - multiset{s[0]} && s == [s[0]] + s[1..]
  {
    assert s == [s[0]] + s[1..];
  }

  /** The comparator is a strict total order, so the sorted list is unique. */
  lemma {:induction false} SortIsUnique<T>(s: seq<T>, t: seq<T>, key: T -> string)
    requires Sorted(s, key) && Sorted(t, key) && multiset(s) == multiset(t)
    ensures s == t
  {
    if s == [] {
      assert |t| == |multiset(t)|;
    } else {
      HeadsAgree(s, t, key);
      TailMultiset(s);
      TailMultiset(t);
      SortIsUnique(s[1..], t[1..], key);
    }
  }

  lemma InsertedIsSorted<T>(s: seq<T>, key: T -> string, x: T, k: nat)
    requires Sorted(s, key) && k <= |s|
    requires forall j :: 0 <= j < |s| ==> key(s[j]) != key(x)
    requires forall j :: 0 <= j < k ==> Less(key(x), key(s[j]))
    requires k < |s| ==> !Less(key(x), key(s[k]))
    ensures Sorted(s[..k] + [x] + s[k..], key)
  {
    var t := s[..k] + [x] + s[k..];
    if k < |s| { LessIsTotal(key(x), key(s[k])); }
    forall i, j | 0 <= i < j < |t|
      ensures Less(key(t[j]), key(t[i]))
    {
      if i < k && j > k {
        assert t[i] == s[i] && t[j] == s[j - 1];
      } else if i == k {
        assert t[j] == s[j - 1];
        if j - 1 > k { LessIsTransitive(key(s[j - 1]), key(s[k]), key(x)); }
      }
    }
  }

  lemma InsertedIsPermutation<T>(s: seq<T>, x: T, k: nat)
    requires k <= |s|
    ensures multiset(s[..k] + [x] + s[k..]) == multiset(s) + multiset{x}
  {
    assert s == s[..k] + s[k..];
  }

  /** `sort`, as an insertion sort. */
  method Sort<T>(xs: seq<T>, key: T -> string) returns (s: seq<T>)
    requires forall i, j :: 0 <= i < j < |xs| ==> key(xs[i]) != key(xs[j])
    ensures Sorted(s, key) && multiset(s) == multiset(xs)
  {
    s := [];
    for n := 0 to |xs|
      invariant Sorted(s, key) && multiset(s) == multiset(xs[..n])
    {
      var k := 0;
      while k < |s| && Less(key(xs[n]), key(s[k]))
        invariant k <= |s|
        invariant forall j :: 0 <= j < k ==> Less(key(xs[n]), key(s[j]))
      {
        k := k + 1;
      }
      forall j | 0 <= j < |s|
        ensures key(s[j]) != key(xs[n])
      {
        assert s[j] in multiset(xs[..n]);
      }
      InsertedIsSorted(s, key, xs[n], k);
      InsertedIsPermutation(s, xs[n], k);
      s := s[..k] + [xs[n]] + s[k..];
      assert xs[..n + 1] == xs[..n] + [xs[n]];
    }
    assert xs[..|xs|] == xs;
  }
}
