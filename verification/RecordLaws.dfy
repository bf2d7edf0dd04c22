/** Which texts become read tasks and which stop the parser, field by field. */
module RecordLaws {
  import opened Sequences
  import opened Decimal
  import opened ModbusRecords

  /** White space only. */
  predicate Blank(s: string) {
    forall c :: c in s ==> c in {' ', '\t', '\n', '\r', '\U{0B}', '\U{0C}'}
  }

  /** A word of the line: not empty, and no white space in it. */
  predicate Word(s: string) {
    s != "" && forall i :: 0 <= i < |s| ==> s[i] !in {' ', '\t', '\n', '\r', '\U{0B}', '\U{0C}'}
  }

  /** Nothing, or something that starts with white space. */
  predicate Parted(s: string) {
    s == "" || s[0] in {' ', '\t', '\n', '\r', '\U{0B}', '\U{0C}'}
  }

  /** The name of a type. */
  predicate Names(word: string, t: DataType) {
    match t
    case Float => word == "float"
    case Short => word == "short"
    case UShort => word == "ushort"
    case Long => word == "long"
  }

  // ------------------------------------------------------------------- fields

  lemma {:induction false} SkipBlank(blank: string, t: string)
    requires Blank(blank) && (t == "" || !IsSpace(t[0]))
    ensures SkipSpace(blank + t) == t
  {
    if blank == "" {
      assert blank + t == t;
    } else {
      assert blank[0] in blank && (blank + t)[1..] == blank[1..] + t;
      assert forall c :: c in blank[1..] ==> c in blank;
      SkipBlank(blank[1..], t);
    }
  }

  lemma {:induction false} TokenIsWord(word: string, rest: string)
    requires Word(word) && Parted(rest)
    ensures Token(word + rest) == word
  {
    assert (word + rest)[1..] == word[1..] + rest;
    if |word| > 1 {
      TokenIsWord(word[1..], rest);
    } else {
      assert word[1..] + rest == rest && Token(rest) == "";
    }
  }

  ghost predicate Digits(s: string, n: int) {
    AllDigits(s) && ValueFrom(0, s) == n
  }

  /** The text spells the number: digits, which may have a sign in front. */
  ghost predicate Spelt(s: string, n: int) {
    || Digits(s, n)
    || (s != "" && s[0] == '+' && Digits(s[1..], n))
    || (s != "" && s[0] == '-' && Digits(s[1..], -n))
  }

  lemma IntTextIsSpelt(n: int)
    ensures Spelt(IntText(n), n)
  {
    if n < 0 {
      NumeralSpells(-n);
      assert IntText(n)[1..] == Numeral(-n);
    } else {
      NumeralSpells(n);
    }
  }

  /** Digits are read off exactly up to the white space behind them. */
  lemma ScanDigits(s: string, n: int, rest: string)
    requires Digits(s, n) && Parted(rest)
    ensures s + rest != "" && IsDigit((s + rest)[0])
    ensures LeadingDigits(s + rest) == s && (s + rest)[|s|..] == rest
  {
    LeadingDigitsOf(s, rest);
    assert (s + rest)[0] == s[0];
  }

  lemma ScanSpelt(s: string, n: int, rest: string)
    requires Spelt(s, n) && Parted(rest)
    ensures s + rest != "" && !IsSpace((s + rest)[0]) && ScanSigned(s + rest) == Some(ScannedInt(n, rest))
  {
    if Digits(s, n) {
      ScanDigits(s, n, rest);
    } else {
      assert (s + rest)[0] == s[0] && (s + rest)[1..] == s[1..] + rest;
      ScanDigits(s[1..], if s[0] == '-' then -n else n, rest);
    }
  }

  lemma ScanSpaced(blank: string, s: string, n: int, rest: string)
    requires Blank(blank) && Spelt(s, n) && Parted(rest)
    ensures ScanInt(blank + (s + rest)) == Some(ScannedInt(n, rest))
  {
    ScanSpelt(s, n, rest);
    ScanBehindBlank(blank, s + rest);
  }

  lemma ScanBehindBlank(blank: string, t: string)
    requires Blank(blank) && t != "" && !IsSpace(t[0])
    ensures ScanInt(blank + t) == ScanSigned(t)
  {
    SkipBlank(blank, t);
  }

  /** A line of two numbers and what follows, with white space in front of each. */
  function TwoNumbers(a: string, x: string, b: string, y: string, rest: string): string {
    a + (x + (b + (y + rest)))
  }

  /** The texts spell the two numbers, with white space in front and between. */
  ghost predicate Spaced(a: string, x: string, fc: int, b: string, y: string, addr: int) {
    Blank(a) && Blank(b) && b != "" && Spelt(x, fc) && Spelt(y, addr)
  }

  lemma ScanTwoNumbers(
      a: string, x: string, fc: int, b: string, y: string, addr: int, rest: string, name: string)
    requires Spaced(a, x, fc, b, y, addr) && Parted(rest)
    ensures var token := Token(SkipSpace(rest));
      Scan(TwoNumbers(a, x, b, y, rest), name) == Scanned(fc, addr, if token == "" then name else token)
  {
    assert b[0] in b;
    ScanSpaced(a, x, fc, b + (y + rest));
    ScanSpaced(b, y, addr, rest);
  }

  /** What is read is a task exactly when the function code is 3 or 4 and the type
      buffer then holds the name of a type. */
  lemma ReadScanned(line: string, name: string, t: Record)
    ensures ReadLine(line, name).task == Some(t) <==>
      var sc := Scan(line, name);
      (sc.fc == 3 || sc.fc == 4) && t.fc == sc.fc && t.addr == sc.addr && Names(sc.name, t.dtype)
  {
    TypeNamedExactly(Scan(line, name).name, t.dtype);
  }

  lemma TypeNamedExactly(word: string, t: DataType)
    ensures TypeNamed(word) == Some(t) <==> Names(word, t)
  {
  }

  /** A line of two numbers and a word, however they are spaced and whatever follows
      behind white space, is a task exactly when the function code is 3 or 4 and the
      word names a type. */
  lemma ReadFieldsExactly(
      a: string, x: string, fc: int, b: string, y: string, addr: int, c: string, word: string, rest: string,
      name: string, t: Record)
    requires Spaced(a, x, fc, b, y, addr) && Blank(c) && c != "" && Word(word) && Parted(rest)
    ensures ReadLine(TwoNumbers(a, x, b, y, c + (word + rest)), name).task == Some(t) <==>
      (fc == 3 || fc == 4) && t.fc == fc && t.addr == addr && Names(word, t.dtype)
  {
    assert c[0] in c && (word + rest)[0] == word[0];
    ScanTwoNumbers(a, x, fc, b, y, addr, c + (word + rest), name);
    SkipBlank(c, word + rest);
    TokenIsWord(word, rest);
    ReadScanned(TwoNumbers(a, x, b, y, c + (word + rest)), name, t);
  }

  /** A line without a type keeps that of the line before, as the type buffer is not
      cleared in between. */
  lemma MissingTypeIsInherited(
      a: string, x: string, fc: int, b: string, y: string, addr: int, rest: string, name: string, t: Record)
    requires Spaced(a, x, fc, b, y, addr) && Blank(rest)
    ensures ReadLine(TwoNumbers(a, x, b, y, rest), name).task == Some(t) <==>
      (fc == 3 || fc == 4) && t.fc == fc && t.addr == addr && Names(name, t.dtype)
  {
    assert rest != "" ==> rest[0] in rest;
    ScanTwoNumbers(a, x, fc, b, y, addr, rest, name);
    SkipBlank(rest, "");
    assert rest + "" == rest;
    ReadScanned(TwoNumbers(a, x, b, y, rest), name, t);
  }

  // ------------------------------------------------------------------ refusals

  /** Every task of every text has function code 3 or 4. */
  lemma {:induction false} TasksAreGood(text: string, name: string, count: nat)
    ensures forall r :: r in Parse(ReadLine, text, name, count).tasks ==> r.fc == 3 || r.fc == 4
    decreases |text|
  {
    if text != "" {
      var split := SplitLine(text);
      var reading := ReadLine(split.line, name);
      TasksAreGood(split.more, reading.name, count + 1);
    }
  }

  /** The type buffer behind printed records. */
  function NameAfter(read: Reader, write: Writer, rs: seq<Record>, name: string): string {
    if rs == [] then name else NameAfter(read, write, rs[1..], read(write(rs[0]), name).name)
  }

  lemma ParseOnePrinted(
      read: Reader, write: Writer, rs: seq<Record>, more: string, name: string, count: nat, behind: Outcome)
    requires rs != [] && ReadsBack(read, write, rs[0]) && count + 1 < MAX_TASKS
    requires Parse(read, Printed(write, rs[1..]) + more, read(write(rs[0]), name).name, count + 1) == behind
    ensures Parse(read, Printed(write, rs) + more, name, count) == Behind([rs[0]], behind)
  {
    PrintedFirst(write, rs, more);
    ParseMore(read, write(rs[0]), Printed(write, rs[1..]) + more, rs[0], name, count);
  }

  ghost predicate AllReadBack(read: Reader, write: Writer, rs: seq<Record>) {
    forall i :: 0 <= i < |rs| ==> ReadsBack(read, write, rs[i])
  }

  lemma RestReadsBack(read: Reader, write: Writer, rs: seq<Record>)
    requires rs != [] && AllReadBack(read, write, rs)
    ensures ReadsBack(read, write, rs[0]) && AllReadBack(read, write, rs[1..])
  {
  }

  /** Printed records are parsed, and parsing goes on behind them. */
  lemma {:induction false} ParseBehindPrinted(
      read: Reader, write: Writer, rs: seq<Record>, more: string, name: string, count: nat, total: nat)
    requires AllReadBack(read, write, rs) && total == count + |rs| < MAX_TASKS
    ensures Parse(read, Printed(write, rs) + more, name, count) ==
      Behind(rs, Parse(read, more, NameAfter(read, write, rs, name), total))
    decreases |rs|
  {
    if rs == [] {
      assert Printed(write, rs) + more == more;
    } else {
      RestReadsBack(read, write, rs);
      var name' := read(write(rs[0]), name).name;
      ParseBehindPrinted(read, write, rs[1..], more, name', count + 1, total);
      var end := Parse(read, more, NameAfter(read, write, rs, name), total);
      ParseOnePrinted(read, write, rs, more, name, count, Behind(rs[1..], end));
      BehindFirst(rs, end);
    }
  }

  lemma BehindFirst(rs: seq<Record>, outcome: Outcome)
    requires rs != []
    ensures Behind([rs[0]], Behind(rs[1..], outcome)) == Behind(rs, outcome)
  {
    BehindTwice([rs[0]], rs[1..], outcome);
    assert [rs[0]] + rs[1..] == rs;
  }

  /** Parsing stops behind printed records at a line that adds nothing. */
  lemma StopsBehindPrinted(read: Reader, write: Writer, rs: seq<Record>, line: string, rest: string)
    requires |rs| < MAX_TASKS && AllReadBack(read, write, rs)
    requires '\n' !in line && (LengthFits(|line|) ==> forall name :: read(line, name).task == None)
    ensures Parse(read, Printed(write, rs) + ((line + "\n") + rest), "", 0) ==
      Outcome(rs, if LengthFits(|line|) then Some(|rest|) else None)
  {
    var text, name := (line + "\n") + rest, NameAfter(read, write, rs, "");
    ParseBehindPrinted(read, write, rs, text, "", 0, |rs|);
    SplitWritten(line, rest);
    ParseFirst(read, text, name, |rs|);
    assert rs + [] == rs;
  }

  lemma PrintableReadsBack(rs: seq<Record>)
    requires forall i :: 0 <= i < |rs| ==> Printable(rs[i])
    ensures AllReadBack(ReadLine, Line, rs)
  {
    forall i | 0 <= i < |rs|
      ensures ReadsBack(ReadLine, Line, rs[i])
    {
      LineShape(rs[i]);
      forall name
        ensures ReadLine(Line(rs[i]), name).task == Some(rs[i])
      {
        ReadPrinted(rs[i], name);
      }
    }
  }

  lemma NoNewline(x: string, fc: int, y: string, addr: int, word: string)
    requires Spelt(x, fc) && Spelt(y, addr) && Word(word)
    ensures '\n' !in TwoNumbers("", x, " ", y, " " + word)
  {
    SpeltHasNoNewline(x, fc);
    SpeltHasNoNewline(y, addr);
  }

  lemma SpeltHasNoNewline(s: string, n: int)
    requires Spelt(s, n)
    ensures '\n' !in s
  {
    assert s == [s[0]] + s[1..];
  }

  lemma BadFieldsAreRefused(x: string, fc: int, y: string, addr: int, word: string, name: string)
    requires Spelt(x, fc) && Spelt(y, addr) && Word(word) && ((fc != 3 && fc != 4) || forall t :: !Names(word, t))
    ensures ReadLine(TwoNumbers("", x, " ", y, " " + word), name).task == None
  {
    var task := ReadLine(TwoNumbers("", x, " ", y, " " + word), name).task;
    assert " " + (word + "") == " " + word;
    if task.Some? { ReadFieldsExactly("", x, fc, " ", y, addr, " ", word, "", name, task.value); }
  }

  /** Good records and then a line of fitting length with another function code, or
      with a word that names no type: parsing stops there with the good records,
      whatever follows, and the newline of the bad line stays overwritten. */
  lemma StopsAtBadRecord(rs: seq<Record>, x: string, fc: int, y: string, addr: int, word: string, rest: string)
    requires |rs| < 100 && forall i :: 0 <= i < |rs| ==> Printable(rs[i])
    requires Spelt(x, fc) && Spelt(y, addr) && Word(word) && ((fc != 3 && fc != 4) || forall t :: !Names(word, t))
    requires 5 <= |TwoNumbers("", x, " ", y, " " + word)| <= 100
    ensures Parse(ReadLine, Printed(Line, rs) + ((TwoNumbers("", x, " ", y, " " + word) + "\n") + rest), "", 0) ==
      Outcome(rs, Some(|rest|))
  {
    PrintableReadsBack(rs);
    NoNewline(x, fc, y, addr, word);
    var line := TwoNumbers("", x, " ", y, " " + word);
    forall name
      ensures ReadLine(line, name).task == None
    {
      BadFieldsAreRefused(x, fc, y, addr, word, name);
    }
    StopsBehindPrinted(ReadLine, Line, rs, line, rest);
  }

  /** A line that is too short or too long stops parsing without a trace in the
      buffer. */
  lemma StopsAtUnfitLine(rs: seq<Record>, line: string, rest: string)
    requires |rs| < 100 && forall i :: 0 <= i < |rs| ==> Printable(rs[i])
    requires '\n' !in line && (|line| < 5 || |line| > 100)
    ensures Parse(ReadLine, Printed(Line, rs) + ((line + "\n") + rest), "", 0) == Outcome(rs, None)
  {
    PrintableReadsBack(rs);
    StopsBehindPrinted(ReadLine, Line, rs, line, rest);
  }

  lemma FirstTasksAreHundred(rs: seq<Record>)
    ensures |rs| < 100 ==> FirstTasks(rs) == rs
    ensures |rs| >= 100 ==> FirstTasks(rs) == rs[..100]
  {
    if |rs| == 100 { assert rs[..100] == rs; }
  }

  /** Of good records the first hundred are read, and with fewer than that all of
      them, the buffer restored. */
  lemma FirstHundredAreRead(rs: seq<Record>)
    requires forall i :: 0 <= i < |rs| ==> Printable(rs[i])
    ensures var outcome := Parse(ReadLine, Received(Printed(Line, rs)), "", 0);
      && (|rs| < 100 ==> outcome.tasks == rs && outcome.cut == None)
      && (|rs| >= 100 ==> outcome.tasks == rs[..100] && outcome.cut != None)
  {
    FirstTasksAreHundred(rs);
    ParseUndoesPrint(rs);
  }

  /** The buffer takes 8191 characters. */
  lemma ReceivedIsCut(text: string)
    ensures Received(text) <= text && (|Received(text)| == |text| || |Received(text)| == 8191 < |text|)
  {
  }
}
