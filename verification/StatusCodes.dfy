/** The tables of retryable statuses: src/modules/router-http.js builds a set of
    codes, pjs/http/forward.js a sparse array; both expand `5xx` into a hundred. */
module StatusCodes {
  import opened Sequences
  import opened Decimal

  /** `Number.parseInt`, on texts without sign or leading space. */
  function ParseInt(s: string): Option<nat> {
    if LeadingDigits(s) == "" then None else Some(ValueFrom(0, LeadingDigits(s)))
  }

  /** `code | 0`, on texts that are all digits or no number at all. */
  function OrZero(s: string): nat {
    if AllDigits(s) then ValueFrom(0, s) else 0
  }

  /** A class such as `5xx`, as the route's retry codes recognise it. */
  predicate IsClass(code: string) {
    |code| == 3 && code[1..] == "xx"
  }

  /** The statuses that one of the route's retry codes stands for. */
  predicate Denotes(code: string, status: nat) {
    if IsClass(code) then IsDigit(code[0]) && status / 100 == DigitValue(code[0])
    else ParseInt(code) == Some(status)
  }

  /** The hundred statuses from a base on join the table one by one. */
  method AddHundred(table: set<nat>, base: nat) returns (table': set<nat>)
    ensures forall status :: status in table' <==> status in table || base <= status < base + 100
  {
    table' := table;
    for i := 0 to 100
      invariant forall status :: status in table' <==> status in table || base <= status < base + i
    {
      table' := table' + {base + i};
    }
  }

  /** The route's retry codes, by default all of 5xx. */
  method RouteRetryCodes(codes: Option<seq<string>>) returns (table: set<nat>)
    ensures var cs := if codes.Some? then codes.value else ["5xx"];
      forall status :: status in table <==> exists code :: code in cs && Denotes(code, status)
  {
    var cs := if codes.Some? then codes.value else ["5xx"];
    table := {};
    for i := 0 to |cs|
      invariant forall status :: status in table <==> exists code :: code in cs[..i] && Denotes(code, status)
    {
      ghost var before := table;
      if IsClass(cs[i]) {
        if IsDigit(cs[i][0]) {
          table := AddHundred(table, DigitValue(cs[i][0]) * 100);
        }
      } else {
        var n := ParseInt(cs[i]);
        if n.Some? { table := table + {n.value}; }
      }
      forall status
        ensures status in table <==> exists code :: code in cs[..i + 1] && Denotes(code, status)
      {
        assert cs[..i + 1] == cs[..i] + [cs[i]];
        assert status in table <==> status in before || Denotes(cs[i], status);
      }
    }
    assert cs[..|cs|] == cs;
  }

  /** The statuses that one entry of a service's `RetryOn` stands for. */
  predicate RetriesOn(code: string, status: nat) {
    if |code| >= 2 && code[|code| - 2..] == "xx" then status / 100 == OrZero([code[0]]) else status == OrZero(code)
  }

  /** The parts of a text between commas. */
  function Split(s: string): (parts: seq<string>)
    ensures parts != []
  {
    if s == "" then [""]
    else
      var rest := Split(s[1..]);
      if s[0] == ',' then [""] + rest else [[s[0]] + rest[0]] + rest[1..]
  }

  /** The service's `retryStatusCodes`, from `RetryOn` or by default 5xx. */
  method ServiceRetryCodes(retryOn: Option<string>) returns (table: set<nat>)
    ensures var codes := Split(if retryOn.Some? && retryOn.value != "" then retryOn.value else "5xx");
      forall status :: status in table <==> exists code :: code in codes && RetriesOn(code, status)
  {
    var codes := Split(if retryOn.Some? && retryOn.value != "" then retryOn.value else "5xx");
    table := {};
    for i := 0 to |codes|
      invariant forall status :: status in table <==> exists code :: code in codes[..i] && RetriesOn(code, status)
    {
      ghost var before := table;
      var code := codes[i];
      if |code| >= 2 && code[|code| - 2..] == "xx" {
        table := AddHundred(table, OrZero([code[0]]) * 100);
      } else {
        table := table + {OrZero(code)};
      }
      forall status
        ensures status in table <==> exists c :: c in codes[..i + 1] && RetriesOn(c, status)
      {
        assert codes[..i + 1] == codes[..i] + [code];
        assert status in table <==> status in before || RetriesOn(code, status);
      }
    }
    assert codes[..|codes|] == codes;
  }

  // ------------------------------------------------ what the codes stand for

  function Joined(parts: seq<string>): string {
    if parts == [] then "" else if |parts| == 1 then parts[0] else parts[0] + ("," + Joined(parts[1..]))
  }

  /** Joined with commas the parts are the text again, and no part holds a comma. */
  lemma {:induction false} SplitUndone(s: string)
    ensures Joined(Split(s)) == s && forall i :: 0 <= i < |Split(s)| ==> ',' !in Split(s)[i]
  {
    if s != "" {
      var rest := Split(s[1..]);
      SplitUndone(s[1..]);
      if s[0] == ',' {
        assert Split(s)[1..] == rest && "" + ("," + Joined(rest)) == [s[0]] + s[1..];
      } else if |rest| > 1 {
        assert Split(s)[1..] == rest[1..];
        assert ([s[0]] + rest[0]) + ("," + Joined(rest[1..])) == [s[0]] + (rest[0] + ("," + Joined(rest[1..])));
      }
    }
  }

  /** A class stands for its hundred statuses. For a service only the first
      character and the ending count. */
  lemma ClassMeansHundred(d: nat, between: string, status: nat)
    requires d < 10
    ensures Denotes([Digit(d)] + "xx", status) <==> d * 100 <= status < d * 100 + 100
    ensures RetriesOn([Digit(d)] + between + "xx", status) <==> d * 100 <= status < d * 100 + 100
  {
    var code, long := [Digit(d)] + "xx", [Digit(d)] + between + "xx";
    assert code[1..] == "xx" && DigitValue(code[0]) == d;
    assert long[|long| - 2..] == "xx" && long[0] == Digit(d);
    assert ValueFrom(0, [Digit(d)][..0]) == 0 && OrZero([Digit(d)]) == d;
  }

  lemma NumeralIsRead(n: nat, tail: string)
    requires tail == "" || !IsDigit(tail[0])
    ensures ParseInt(Numeral(n) + tail) == Some(n)
    ensures OrZero(Numeral(n) + tail) == if tail == "" then n else 0
  {
    var code := Numeral(n) + tail;
    NumeralSpells(n);
    LeadingDigitsOf(Numeral(n), tail);
    if tail == "" {
      assert code == Numeral(n);
    } else {
      assert code[|Numeral(n)|] == tail[0];
    }
  }

  /** For a route a number stands for itself, whatever text follows it, unless the two
      make a class. */
  lemma NumberMeansItself(n: nat, tail: string, status: nat)
    requires tail == "" || !IsDigit(tail[0])
    requires n < 10 ==> tail != "xx"
    ensures Denotes(Numeral(n) + tail, status) <==> status == n
  {
    NumeralIsRead(n, tail);
    NumberIsNoClass(n, tail);
  }

  lemma NumberIsNoClass(n: nat, tail: string)
    requires n < 10 ==> tail != "xx"
    ensures !IsClass(Numeral(n) + tail)
  {
    var code := Numeral(n) + tail;
    if n < 10 {
      assert code[1..] == tail;
    } else {
      assert code[1..][0] == Numeral(n)[1] && IsDigit(Numeral(n)[1]);
    }
  }

  /** For a service a number stands for itself only if nothing follows it; a text
      that is neither a number nor ends like a class stands for status 0. */
  lemma ServiceNumberExactly(n: nat, tail: string, status: nat)
    requires tail == "" || !IsDigit(tail[0])
    requires |tail| >= 2 ==> tail[|tail| - 2..] != "xx"
    ensures RetriesOn(Numeral(n) + tail, status) <==> status == if tail == "" then n else 0
  {
    var code := Numeral(n) + tail;
    NumeralIsRead(n, tail);
    if |tail| >= 2 {
      assert code[|code| - 2..] == tail[|tail| - 2..];
    } else if |code| >= 2 {
      assert code[|code| - 2..][1 - |tail|] == Numeral(n)[|Numeral(n)| - 1];
    }
  }
}
