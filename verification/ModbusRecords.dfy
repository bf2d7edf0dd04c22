/** The record list that the IoT gateway hands from JavaScript to C:
    iot-gateway/pjs/worker.js prints it, and modbus.c parses it while cutting
    the buffer into lines in place. */
module ModbusRecords {
  import opened Sequences
  import opened Decimal

  datatype DataType = Float | Short | UShort | Long

  /** A record of the configuration, and a read task of the C module. */
  datatype Record = Record(fc: int, addr: int, dtype: DataType)

  function TypeName(t: DataType): string {
    match t
    case Float => "float"
    case Short => "short"
    case UShort => "ushort"
    case Long => "long"
  }

  function TypeNamed(name: string): Option<DataType> {
    if name == "float" then Some(Float)
    else if name == "short" then Some(Short)
    else if name == "ushort" then Some(UShort)
    else if name == "long" then Some(Long)
    else None
  }

  // ---------------------------------------------------------------- printing

  function IntText(n: int): string {
    if n < 0 then "-" + Numeral(-n) else Numeral(n)
  }

  /** A record's line, without the newline. */
  function Line(r: Record): string {
    IntText(r.fc) + (" " + (IntText(r.addr) + (" " + TypeName(r.dtype))))
  }

  type Writer = Record -> string

  function Printed(write: Writer, rs: seq<Record>): string {
    if rs == [] then "" else (write(rs[0]) + "\n") + Printed(write, rs[1..])
  }

  lemma {:induction false} PrintedConcat(write: Writer, a: seq<Record>, b: seq<Record>)
    ensures Printed(write, a + b) == Printed(write, a) + Printed(write, b)
  {
    if a == [] {
      assert a + b == b;
    } else {
      assert (a + b)[0] == a[0] && (a + b)[1..] == a[1..] + b;
      PrintedConcat(write, a[1..], b);
    }
  }

  /** `records`. */
  method Records(rs: seq<Record>) returns (str: string)
    ensures str == Printed(Line, rs)
  {
    str := "";
    for i := 0 to |rs|
      invariant str == Printed(Line, rs[..i])
    {
      PrintedConcat(Line, rs[..i], [rs[i]]);
      assert rs[..i + 1] == rs[..i] + [rs[i]];
      assert Printed(Line, [rs[i]]) == (Line(rs[i]) + "\n") + "";
      str := str + (Line(rs[i]) + "\n");
    }
    assert rs[..|rs|] == rs;
  }

  // ------------------------------------------------------------------- sscanf

  predicate IsSpace(c: char) {
    c == ' ' || c == '\t' || c == '\n' || c == '\r' || c == '\U{0B}' || c == '\U{0C}'
  }

  function SkipSpace(s: string): string {
    if s != "" && IsSpace(s[0]) then SkipSpace(s[1..]) else s
  }

  /** The leading characters that are not white space. */
  function Token(s: string): (t: string)
    ensures t <= s
  {
    if s != "" && !IsSpace(s[0]) then [s[0]] + Token(s[1..]) else ""
  }

  datatype ScannedInt = ScannedInt(value: int, rest: string)

  /** One `%d`, once the white space in front of it is skipped. */
  function ScanSigned(t: string): Option<ScannedInt> {
    var u := if t != "" && (t[0] == '-' || t[0] == '+') then t[1..] else t;
    var d := LeadingDigits(u);
    if d == "" then None
    else
      var v: int := ValueFrom(0, d);
      Some(ScannedInt(if t[0] == '-' then -v else v, u[|d|..]))
  }

  function ScanInt(s: string): Option<ScannedInt> {
    ScanSigned(SkipSpace(s))
  }

  /** What `sscanf(line, "%d %d %s", ...)` leaves in a zeroed task and in the type
      buffer: conversions stop at the first that fails. */
  datatype Scanned = Scanned(fc: int, addr: int, name: string)

  function Scan(line: string, name: string): Scanned {
    match ScanInt(line)
    case None => Scanned(0, 0, name)
    case Some(first) =>
      match ScanInt(first.rest)
      case None => Scanned(first.value, 0, name)
      case Some(second) =>
        var token := Token(SkipSpace(second.rest));
        Scanned(first.value, second.value, if token == "" then name else token)
  }

  // ------------------------------------------------------------------ parsing

  const MAX_TASKS := 100

  /** A line as read: its task, if it has a known type and function code, and
      what it leaves in the type buffer. */
  datatype Reading = Reading(task: Option<Record>, name: string)

  type Reader = (string, string) -> Reading

  function ReadLine(line: string, name: string): Reading {
    var sc := Scan(line, name);
    var dtype := TypeNamed(sc.name);
    if dtype.None? || (sc.fc != 3 && sc.fc != 4) then Reading(None, sc.name)
    else Reading(Some(Record(sc.fc, sc.addr, dtype.value)), sc.name)
  }

  function FirstNewline(text: string): (i: nat)
    ensures i <= |text|
  {
    if text == "" || text[0] == '\n' then 0 else 1 + FirstNewline(text[1..])
  }

  lemma {:induction false} FirstNewlineAt(text: string, i: nat)
    requires i <= |text| && '\n' !in text[..i] && (i < |text| ==> text[i] == '\n')
    ensures FirstNewline(text) == i
  {
    if i > 0 {
      assert text[0] == text[..i][0] && text[1..][..i - 1] == text[..i][1..];
      FirstNewlineAt(text[1..], i - 1);
    }
  }

  /** The first line of a text, whether a newline ends it, and the text behind it. */
  datatype Split = Split(line: string, ended: bool, more: string)

  function SplitLine(text: string): (s: Split)
    ensures |s.more| <= |text| && (text != "" ==> |s.more| < |text|)
  {
    var n := FirstNewline(text);
    if n == |text| then Split(text, false, "") else Split(text[..n], true, text[n + 1..])
  }

  lemma SplitWritten(line: string, more: string)
    requires '\n' !in line
    ensures SplitLine((line + "\n") + more) == Split(line, true, more)
  {
    var text := (line + "\n") + more;
    assert text[..|line|] == line && text[|line|] == '\n' && text[|line| + 1..] == more;
    FirstNewlineAt(text, |line|);
  }

  predicate LengthFits(n: nat) {
    5 <= n <= 100
  }

  /** The tasks parsed, and how many characters lie behind the newline that stays
      overwritten with a terminator when parsing stops at a bad line or at the
      limit. */
  datatype Outcome = Outcome(tasks: seq<Record>, cut: Option<nat>)

  /** An outcome behind tasks parsed before. */
  function Behind(done: seq<Record>, outcome: Outcome): Outcome {
    Outcome(done + outcome.tasks, outcome.cut)
  }

  /** What one line does: the task it adds, if any, and whether parsing goes on
      behind it. If not, `cut` is as in the outcome. */
  datatype Turn = Turn(tasks: seq<Record>, more: bool, cut: Option<nat>)

  function TurnOf(split: Split, reading: Reading, count: nat): (turn: Turn)
    ensures |turn.tasks| <= 1 && (turn.more ==> |turn.tasks| == 1 && count + 1 < MAX_TASKS && turn.cut == None)
    ensures turn.cut.Some? ==> split.ended && turn.cut.value == |split.more|
  {
    var here := if split.ended then Some(|split.more|) else None;
    if !LengthFits(|split.line|) then Turn([], false, None)
    else if reading.task.None? then Turn([], false, here)
    else if count + 1 >= MAX_TASKS then Turn([reading.task.value], false, here)
    else Turn([reading.task.value], split.ended, None)
  }

  /** What is parsed from the text that is left, when `count` tasks were parsed
      before and the type buffer holds `name`. */
  function Parse(read: Reader, text: string, name: string, count: nat): (r: Outcome)
    ensures r.cut.Some? ==> r.cut.value < |text|
    decreases |text|
  {
    var split := SplitLine(text);
    var reading := read(split.line, name);
    var turn := TurnOf(split, reading, count);
    if text == "" then Outcome([], None)
    else if turn.more then Behind(turn.tasks, Parse(read, split.more, reading.name, count + 1))
    else Outcome(turn.tasks, turn.cut)
  }

  lemma BehindTwice(first: seq<Record>, second: seq<Record>, outcome: Outcome)
    ensures Behind(first, Behind(second, outcome)) == Behind(first + second, outcome)
  {
    assert first + (second + outcome.tasks) == (first + second) + outcome.tasks;
  }

  lemma ParseFirst(read: Reader, text: string, name: string, count: nat)
    requires text != ""
    ensures var split := SplitLine(text);
      var reading := read(split.line, name);
      var turn := TurnOf(split, reading, count);
      Parse(read, text, name, count) ==
        if turn.more then Behind(turn.tasks, Parse(read, split.more, reading.name, count + 1))
        else Outcome(turn.tasks, turn.cut)
  {
  }

  /** One turn of parsing, behind tasks parsed before. */
  lemma ParseTurn(read: Reader, text: string, done: seq<Record>, name: string)
    requires text != ""
    ensures var split := SplitLine(text);
      var reading := read(split.line, name);
      var turn := TurnOf(split, reading, |done|);
      Behind(done, Parse(read, text, name, |done|)) ==
        if turn.more then Behind(done + turn.tasks, Parse(read, split.more, reading.name, |done| + 1))
        else Outcome(done + turn.tasks, turn.cut)
  {
    ParseFirst(read, text, name, |done|);
    var split := SplitLine(text);
    var reading := read(split.line, name);
    var turn := TurnOf(split, reading, |done|);
    if turn.more {
      BehindTwice(done, turn.tasks, Parse(read, split.more, reading.name, |done| + 1));
    }
  }

  /** Never more than a hundred tasks, whatever the text and the reader. */
  lemma {:induction false} ParsedIsBounded(read: Reader, text: string, name: string, count: nat)
    requires count < MAX_TASKS
    ensures count + |Parse(read, text, name, count).tasks| <= MAX_TASKS
    decreases |text|
  {
    var split := SplitLine(text);
    if text != "" && count + 1 < MAX_TASKS {
      ParsedIsBounded(read, split.more, read(split.line, name).name, count + 1);
    }
  }

  // --------------------------------------------------------------- round trip

  /** A record the printer is meant for: function code 3 or 4, a C int address. */
  predicate Printable(r: Record) {
    (r.fc == 3 || r.fc == 4) && -0x8000_0000 <= r.addr < 0x8000_0000
  }

  lemma ScanNumeral(m: nat, rest: string)
    requires rest == "" || !IsDigit(rest[0])
    ensures LeadingDigits(Numeral(m) + rest) == Numeral(m)
    ensures ScanSigned(Numeral(m) + rest) == Some(ScannedInt(m, rest))
  {
    var d, t := Numeral(m), Numeral(m) + rest;
    NumeralSpells(m);
    LeadingDigitsOf(d, rest);
    assert t[0] == d[0] && IsDigit(d[0]);
    assert t[|d|..] == rest;
  }

  lemma SkipOneSpace(t: string)
    requires t != "" && !IsSpace(t[0])
    ensures SkipSpace(t) == t && SkipSpace(" " + t) == t
  {
    assert (" " + t)[0] == ' ' && (" " + t)[1..] == t;
  }

  lemma ScanAfterSpace(t: string, scanned: Option<ScannedInt>)
    requires t != "" && !IsSpace(t[0]) && ScanSigned(t) == scanned
    ensures ScanInt(t) == ScanInt(" " + t) == scanned
  {
    SkipOneSpace(t);
  }

  lemma ScanNatural(n: nat, rest: string)
    requires rest == "" || !IsDigit(rest[0])
    ensures ScanInt(IntText(n) + rest) == ScanInt(" " + (IntText(n) + rest)) == Some(ScannedInt(n, rest))
  {
    ScanNumeral(n, rest);
    assert (Numeral(n) + rest)[0] == Numeral(n)[0] && IsDigit(Numeral(n)[0]);
    ScanAfterSpace(Numeral(n) + rest, Some(ScannedInt(n, rest)));
  }

  lemma NegativeText(n: int, rest: string)
    requires n < 0
    ensures var s := IntText(n) + rest;
      |s| > 1 && s[0] == '-' && IsDigit(s[1]) && s[1..] == Numeral(-n) + rest
  {
    assert IntText(n) == "-" + Numeral(-n);
    var s := IntText(n) + rest;
    assert s[1] == Numeral(-n)[0];
  }

  lemma ScanMinus(s: string, t: string, v: int, rest: string)
    requires |s| > 1 && s[0] == '-' && IsDigit(s[1]) && s[1..] == t
    requires ScanSigned(t) == Some(ScannedInt(v, rest))
    ensures ScanInt(s) == ScanInt(" " + s) == Some(ScannedInt(-v, rest))
  {
    assert t[0] == s[1];
    ScanAfterSpace(s, Some(ScannedInt(-v, rest)));
  }

  lemma ScanNegative(n: int, rest: string)
    requires n < 0 && (rest == "" || !IsDigit(rest[0]))
    ensures ScanInt(IntText(n) + rest) == ScanInt(" " + (IntText(n) + rest)) == Some(ScannedInt(n, rest))
  {
    NegativeText(n, rest);
    ScanNumeral(-n, rest);
    ScanMinus(IntText(n) + rest, Numeral(-n) + rest, -n, rest);
  }

  lemma ScanIntText(n: int, rest: string)
    requires rest == "" || !IsDigit(rest[0])
    ensures ScanInt(IntText(n) + rest) == ScanInt(" " + (IntText(n) + rest)) == Some(ScannedInt(n, rest))
  {
    if n < 0 {
      ScanNegative(n, rest);
    } else {
      ScanNatural(n, rest);
    }
  }

  lemma {:induction false} TokenOfWord(s: string)
    requires forall i :: 0 <= i < |s| ==> !IsSpace(s[i])
    ensures Token(s) == s
  {
    if s != "" { TokenOfWord(s[1..]); }
  }

  lemma TypeNamedRoundTrip(t: DataType)
    ensures TypeNamed(TypeName(t)) == Some(t)
    ensures Token(SkipSpace(" " + TypeName(t))) == TypeName(t) != ""
  {
    TokenOfWord(TypeName(t));
    SkipOneSpace(TypeName(t));
  }

  /** Reading a printed line gives back its record. */
  lemma ReadPrinted(r: Record, name: string)
    requires Printable(r)
    ensures ReadLine(Line(r), name) == Reading(Some(r), TypeName(r.dtype))
  {
    var word := TypeName(r.dtype);
    var tail := " " + word;
    ScanIntText(r.fc, " " + (IntText(r.addr) + tail));
    ScanIntText(r.addr, tail);
    TypeNamedRoundTrip(r.dtype);
    assert Scan(Line(r), name) == Scanned(r.fc, r.addr, word);
  }

  lemma IntTextLength(n: int)
    requires -0x8000_0000 <= n < 0x8000_0000
    ensures 1 <= |IntText(n)| <= 11 && '\n' !in IntText(n)
  {
    assert Pow10(2) == 100 && Pow10(4) == 10000 && Pow10(6) == 1000000 && Pow10(8) == 100000000 &&
      Pow10(10) == 10000000000;
    NumeralLength(if n < 0 then -n else n, 10);
  }

  lemma LineShape(r: Record)
    requires Printable(r)
    ensures 7 <= |Line(r)| <= 20 && '\n' !in Line(r)
  {
    IntTextLength(r.addr);
    assert IntText(3) == "3" && IntText(4) == "4";
    assert 4 <= |TypeName(r.dtype)| <= 6 && '\n' !in TypeName(r.dtype);
  }

  /** One good line is parsed, and parsing goes on behind it. */
  lemma ParseMore(read: Reader, line: string, more: string, r: Record, name: string, count: nat)
    requires '\n' !in line && LengthFits(|line|) && read(line, name).task == Some(r) && count + 1 < MAX_TASKS
    ensures Parse(read, (line + "\n") + more, name, count) ==
      Behind([r], Parse(read, more, read(line, name).name, count + 1))
  {
    SplitWritten(line, more);
  }

  lemma ParseLast(read: Reader, line: string, more: string, r: Record, name: string, count: nat)
    requires '\n' !in line && LengthFits(|line|) && read(line, name).task == Some(r) && count + 1 >= MAX_TASKS
    ensures Parse(read, (line + "\n") + more, name, count) == Outcome([r], Some(|more|))
  {
    SplitWritten(line, more);
  }

  /** The reader takes a record's line, which fits the parser, back to the record. */
  ghost predicate ReadsBack(read: Reader, write: Writer, r: Record) {
    7 <= |write(r)| <= 20 && '\n' !in write(r) &&
    forall name :: read(write(r), name).task == Some(r)
  }

  lemma PrintedFirst(write: Writer, rs: seq<Record>, extra: string)
    requires |rs| > 0
    ensures Printed(write, rs) + extra == (write(rs[0]) + "\n") + (Printed(write, rs[1..]) + extra)
  {
  }

  /** Parsing printed records, with nothing behind them unless they fill the task list. */
  lemma {:induction false} ParsePrinted(
      read: Reader, write: Writer, rs: seq<Record>, extra: string, name: string, count: nat)
    requires forall i :: 0 <= i < |rs| ==> ReadsBack(read, write, rs[i])
    requires count + |rs| <= MAX_TASKS
    requires extra == "" || (|rs| > 0 && count + |rs| == MAX_TASKS)
    ensures Parse(read, Printed(write, rs) + extra, name, count) ==
      Outcome(rs, if |rs| > 0 && count + |rs| == MAX_TASKS then Some(|extra|) else None)
    decreases |rs|
  {
    if |rs| > 0 {
      var r, rest, line := rs[0], rs[1..], write(rs[0]);
      assert ReadsBack(read, write, r);
      var more := Printed(write, rest) + extra;
      PrintedFirst(write, rs, extra);
      if count + 1 < MAX_TASKS {
        ParseMore(read, line, more, r, name, count);
        ParsePrinted(read, write, rest, extra, read(line, name).name, count + 1);
        assert rs == [r] + rest;
      } else {
        ParseLast(read, line, more, r, name, count);
        assert rest == [] && rs == [r] && more == extra;
      }
    }
  }

  lemma {:induction false} PrintedLength(write: Writer, rs: seq<Record>)
    requires forall i :: 0 <= i < |rs| ==> |write(rs[i])| <= 20
    ensures |Printed(write, rs)| <= 21 * |rs|
  {
    if rs != [] {
      PrintedLength(write, rs[1..]);
    }
  }

  const BUFFER_SIZE := 8192

  /** get_string: the text as far as it fits the buffer with its terminator. */
  function Received(text: string): string {
    if |text| < BUFFER_SIZE then text else text[..BUFFER_SIZE - 1]
  }

  function FirstTasks(rs: seq<Record>): (r: seq<Record>)
    ensures r <= rs && |r| <= MAX_TASKS
  {
    if |rs| <= MAX_TASKS then rs else rs[..MAX_TASKS]
  }

  /** What is received are the records that the task list has room for, and more
      only if they fill it. */
  lemma ReceivedStarts(write: Writer, rs: seq<Record>) returns (extra: string)
    requires forall i :: 0 <= i < |rs| ==> |write(rs[i])| <= 20
    ensures Received(Printed(write, rs)) == Printed(write, FirstTasks(rs)) + extra
    ensures |rs| <= MAX_TASKS ==> extra == ""
  {
    var kept := FirstTasks(rs);
    assert rs == kept + rs[|kept|..];
    PrintedConcat(write, kept, rs[|kept|..]);
    PrintedLength(write, kept);
    extra := Received(Printed(write, rs))[|Printed(write, kept)|..];
  }

  /** Any reader and writer that undo each other line by line do so on lists. */
  lemma UndoneByAnyReader(read: Reader, write: Writer, rs: seq<Record>) returns (extra: string)
    requires forall i :: 0 <= i < |rs| ==> ReadsBack(read, write, rs[i])
    ensures Received(Printed(write, rs)) == Printed(write, FirstTasks(rs)) + extra
    ensures Parse(read, Received(Printed(write, rs)), "", 0) ==
      Outcome(FirstTasks(rs), if |rs| < MAX_TASKS then None else Some(|extra|))
  {
    extra := ReceivedStarts(write, rs);
    ParsePrinted(read, write, FirstTasks(rs), extra, "", 0);
  }

  /** The parser undoes the printer, up to a hundred records, even when the
      printed list is too long for the buffer. The buffer is restored exactly when
      there are fewer than a hundred records; otherwise the newline behind the
      hundredth stays overwritten. */
  lemma ParseUndoesPrint(rs: seq<Record>)
    requires forall i :: 0 <= i < |rs| ==> Printable(rs[i])
    ensures var text := Received(Printed(Line, rs));
      var outcome := Parse(ReadLine, text, "", 0);
      outcome.tasks == FirstTasks(rs) &&
      outcome.cut == if |rs| < MAX_TASKS then None else Some(|text| - |Printed(Line, FirstTasks(rs))|)
  {
    forall i | 0 <= i < |rs|
      ensures ReadsBack(ReadLine, Line, rs[i])
    {
      LineShape(rs[i]);
      forall name
        ensures ReadLine(Line(rs[i]), name).task == Some(rs[i])
      {
        ReadPrinted(rs[i], name);
      }
    }
    var _ := UndoneByAnyReader(ReadLine, Line, rs);
  }

  // ---------------------------------------------------------------- the parser

  /** A buffer with a terminator in place of the newline that has `cut` of `pend`
      characters behind it. */
  function Cut(buffer: string, pend: nat, cut: Option<nat>): (r: string)
    requires pend <= |buffer| && (cut.Some? ==> cut.value < pend)
  {
    if cut.Some? then buffer[pend - 1 - cut.value := '\0'] else buffer
  }

  class Parser {
    var taskCount: nat
    const taskList: array<Record>

    constructor ()
      ensures taskCount == 0 && taskList.Length == MAX_TASKS && fresh(taskList)
    {
      taskCount := 0;
      taskList := new Record[MAX_TASKS](_ => Record(0, 0, Float));
    }

    /** strlen. */
    method Length(str: array<char>, ghost text: string) returns (n: nat)
      requires |text| < str.Length && str[..|text|] == text && '\0' !in text && str[|text|] == '\0'
      ensures n == |text|
    {
      assert forall i :: 0 <= i < |text| ==> str[i] == str[..|text|][i] && text[i] in text;
      n := 0;
      while str[n] != '\0'
        invariant n <= |text|
        decreases |text| - n
      {
        n := n + 1;
      }
    }

    /** strchr(ptr, newline), on the text in front of the terminator, or -1. */
    method FindNewline(str: array<char>, ptr: nat, pend: nat) returns (ps: int)
      requires ptr < pend < str.Length
      ensures ps == -1 ==> SplitLine(str[ptr..pend]) == Split(str[ptr..pend], false, "")
      ensures ps != -1 ==> ptr <= ps < pend && str[ps] == '\n'
      ensures ps != -1 ==> SplitLine(str[ptr..pend]) == Split(str[ptr..ps], true, str[ps + 1..pend])
    {
      ps := ptr;
      while ps < pend && str[ps] != '\n'
        invariant ptr <= ps <= pend
        invariant '\n' !in str[ptr..ps]
      {
        assert str[ptr..ps + 1] == str[ptr..ps] + [str[ps]];
        ps := ps + 1;
      }
      var text := str[ptr..pend];
      assert text[..ps - ptr] == str[ptr..ps];
      FirstNewlineAt(text, ps - ptr);
      if ps == pend {
        ps := -1;
      } else {
        assert text[ps - ptr + 1..] == str[ps + 1..pend];
      }
    }

    /** parse_records, on a buffer that holds `text` and a terminator. It fills
        the task list, and puts back every newline it cut except the one at which
        it stops early. */
    method ParseRecords(str: array<char>, ghost text: string)
      requires |text| < str.Length && str[..|text|] == text && '\0' !in text && str[|text|] == '\0'
      requires taskList.Length == MAX_TASKS && taskList as object != str
      modifies this`taskCount, taskList, str
      ensures taskCount <= MAX_TASKS == taskList.Length
      ensures taskList[..taskCount] == Parse(ReadLine, text, "", 0).tasks
      ensures str[..] == Cut(old(str[..]), |text|, Parse(ReadLine, text, "", 0).cut)
    {
      var pend := Length(str, text);
      taskCount := 0;
      Loop(ReadLine, str, text, pend);
    }

    /** The loop of parse_records, for any way of reading a line. */
    method Loop(read: Reader, str: array<char>, ghost text: string, pend: nat)
      requires pend == |text| < str.Length && str[..pend] == text
      requires taskCount == 0 && taskList.Length == MAX_TASKS && taskList as object != str
      modifies this`taskCount, taskList, str
      ensures taskCount <= MAX_TASKS == taskList.Length
      ensures taskList[..taskCount] == Parse(read, text, "", 0).tasks
      ensures str[..] == Cut(old(str[..]), pend, Parse(read, text, "", 0).cut)
    {
      var type', ptr := "", 0;
      assert text[0..] == text;
      while ptr < pend
        invariant ptr <= pend && taskCount < MAX_TASKS == taskList.Length
        invariant str[..] == old(str[..])
        invariant Parse(read, text, "", 0) == Behind(taskList[..taskCount], Parse(read, text[ptr..], type', taskCount))
        decreases pend - ptr
      {
        assert str[ptr..pend] == str[..][..pend][ptr..] == text[ptr..];
        ParseTurn(read, text[ptr..], taskList[..taskCount], type');
        var more;
        more, ptr, type' := TakeLine(read, str, ptr, pend, type');
        if !more {
          break;
        }
        assert str[ptr..pend] == str[..][..pend][ptr..] == text[ptr..];
      }
    }

    /** One turn of the loop: parses the line at `ptr`, or finds that parsing stops. */
    method TakeLine(read: Reader, str: array<char>, ptr: nat, pend: nat, name: string)
      returns (more: bool, ptr': nat, name': string)
      requires ptr < pend < str.Length
      requires taskCount < MAX_TASKS == taskList.Length && taskList as object != str
      modifies this`taskCount, taskList, str
      ensures var split := SplitLine(old(str[ptr..pend]));
        var reading := read(split.line, name);
        var turn := TurnOf(split, reading, old(taskCount));
        more == turn.more &&
        taskCount == old(taskCount) + |turn.tasks| <= MAX_TASKS &&
        taskList[..taskCount] == old(taskList[..taskCount]) + turn.tasks &&
        str[..] == Cut(old(str[..]), pend, turn.cut) &&
        ptr <= ptr' <= pend &&
        (more ==> (ptr' > ptr && str[ptr'..pend] == split.more && name' == reading.name))
    {
      more, ptr', name' := false, ptr, name;
      var ps := FindNewline(str, ptr, pend);
      var end: nat := if ps != -1 then ps else pend;
      if end - ptr < 5 || end - ptr > 100 {
        return;
      }
      var line := str[ptr..end];
      if ps != -1 { str[ps] := '\0'; }
      var reading := read(line, name);
      if reading.task.None? {
        return;
      }
      taskList[taskCount] := reading.task.value;
      taskCount := taskCount + 1;
      assert taskList[..taskCount] == old(taskList[..taskCount]) + [reading.task.value];
      if taskCount < MAX_TASKS && ps != -1 {
        str[ps] := '\n';
        more, ptr', name' := true, ps + 1, reading.name;
      }
    }
  }
}
