/** The text of a route backup file: four signed decimals a line, written with
    printf and read back with scanf. */
module RouteText {
  import opened Wrappers
  import opened Words

  datatype Entry = Entry(modid: Int32, cmdid: Int32, ip: Int32, port: Int32)

  // ---------- Writing ----------

  function Digit(d: nat): char
    requires d < 10
  {
    '0' + d as char
  }

  function Digits(n: nat): (r: string)
    ensures r != [] && forall c :: c in r ==> IsDigit(c)
  {
    if n < 10 then [Digit(n)] else Digits(n / 10) + [Digit(n % 10)]
  }

  function PrintInt(x: int): string {
    if x < 0 then "-" + Digits(-x) else Digits(x)
  }

  function PrintFields(e: Entry): string {
    PrintInt(e.modid) + " " + PrintInt(e.cmdid) + " " + PrintInt(e.ip) + " " + PrintInt(e.port)
  }

  function PrintAll(entries: seq<Entry>): string {
    if entries == [] then "" else PrintFields(entries[0]) + "\n" + PrintAll(entries[1..])
  }

  /** Numbers are decimal. */
  lemma DigitsAreDecimal(n: nat)
    ensures n < 10 ==> Digits(n) == ["0123456789"[n]]
    ensures n >= 10 ==> Digits(n) == Digits(n / 10) + ["0123456789"[n % 10]]
  {
  }

  /** A line is the module's two ids and the host's ip and port, with blanks between. */
  lemma PrintedLine()
    ensures PrintAll([Entry(1, 2, -30, 45)]) == "1 2 -30 45\n"
  {
    var e := Entry(1, 2, -30, 45);
    assert Digits(30) == "30" && Digits(45) == "45";
    assert PrintAll([e][1..]) == "";
  }

  // ---------- Reading ----------

  predicate IsDigit(c: char) {
    '0' <= c <= '9'
  }

  predicate IsSpace(c: char) {
    c == ' ' || 9 <= c as int <= 13
  }

  function SkipSpace(s: string): (r: string)
    ensures |r| <= |s|
  {
    if s != [] && IsSpace(s[0]) then SkipSpace(s[1..]) else s
  }

  /** The longest prefix of digits. */
  function LeadingDigits(s: string): (r: string)
    ensures |r| <= |s|
  {
    if s != [] && IsDigit(s[0]) then [s[0]] + LeadingDigits(s[1..]) else []
  }

  function DigitValue(c: char): nat {
    if IsDigit(c) then (c as int) - ('0' as int) else 0
  }

  function ValueOf(digits: string): nat {
    if digits == [] then 0
    else
      var c := digits[|digits| - 1];
      10 * ValueOf(digits[..|digits| - 1]) + DigitValue(c)
  }

  /** A conversion meets the end of the input, a character that no number starts
      with, a sign without a number, which it takes away, or a number. */
  datatype Scan = Eof | Stuck | SignOnly(rest: string) | Got(value: int, rest: string)

  function ReadInt(s: string): (r: Scan)
    ensures r.SignOnly? || r.Got? ==> |r.rest| < |s|
  {
    var t := SkipSpace(s);
    if t == [] then Eof
    else
      var signed := t[0] == '-' || t[0] == '+';
      var u := if signed then t[1..] else t;
      var digits := LeadingDigits(u);
      if digits == [] then if signed then SignOnly(u) else Stuck
      else
        var n: int := ValueOf(digits);
        Got(if t[0] == '-' then -n else n, u[|digits|..])
  }

  /** One call for four numbers: the end of the input, no progress now or ever, or
      new values for some of the four variables. */
  datatype Fields = AtEnd | NoProgress | Line(entry: Entry, rest: string)

  /** The variables keep what they held for the numbers that are not there. */
  function ReadFields(s: string, held: Entry): (r: Fields)
    ensures r.Line? ==> |r.rest| < |s|
  {
    match ReadInt(s)
    case Eof => AtEnd
    case Stuck => NoProgress
    case SignOnly(s1) => Line(held, s1)
    case Got(a, s1) =>
      var e1 := held.(modid := ToInt32(a));
      match ReadInt(s1)
      case Eof => Line(e1, "")
      case Stuck => NoProgress
      case SignOnly(s2) => Line(e1, s2)
      case Got(b, s2) =>
        var e2 := e1.(cmdid := ToInt32(b));
        match ReadInt(s2)
        case Eof => Line(e2, "")
        case Stuck => NoProgress
        case SignOnly(s3) => Line(e2, s3)
        case Got(c, s3) =>
          var e3 := e2.(ip := ToInt32(c));
          match ReadInt(s3)
          case Eof => Line(e3, "")
          case Stuck => NoProgress
          case SignOnly(s4) => Line(e3, s4)
          case Got(d, s4) => Line(e3.(port := ToInt32(d)), s4)
  }

  /** What a reader that calls until the end of the input gets; None if it calls forever. */
  function ReadAll(s: string, held: Entry): Option<seq<Entry>>
    decreases |s|
  {
    match ReadFields(s, held)
    case AtEnd => Some([])
    case NoProgress => None
    case Line(e, rest) => Prepended([e], ReadAll(rest, e))
  }

  function Prepended(front: seq<Entry>, more: Option<seq<Entry>>): Option<seq<Entry>> {
    if more.None? then None else Some(front + more.value)
  }

  // ---------- Round trip ----------

  lemma {:induction false} ValueOfDigits(n: nat)
    ensures ValueOf(Digits(n)) == n
  {
    if n >= 10 {
      ValueOfDigits(n / 10);
      var s := Digits(n);
      assert s[..|s| - 1] == Digits(n / 10);
    } else {
      assert Digits(n)[..0] == [];
    }
  }

  lemma {:induction false} LeadingDigitsStop(digits: string, rest: string)
    requires forall c :: c in digits ==> IsDigit(c)
    requires rest != [] ==> !IsDigit(rest[0])
    ensures LeadingDigits(digits + rest) == digits
  {
    if digits == [] {
      assert digits + rest == rest;
    } else {
      assert (digits + rest)[1..] == digits[1..] + rest;
      LeadingDigitsStop(digits[1..], rest);
    }
  }

  lemma SkipsTo(space: string, body: string)
    requires space == "" || space == " " || space == "\n"
    requires body != [] && !IsSpace(body[0])
    ensures SkipSpace(space + body) == body
  {
    if space == "" { assert space + body == body; } else { assert (space + body)[1..] == body; }
  }

  /** The magnitude of a number is read up to the first other character. */
  lemma ReadMagnitude(n: nat, rest: string)
    requires rest != [] ==> !IsDigit(rest[0])
    ensures LeadingDigits(Digits(n) + rest) == Digits(n) && ValueOf(Digits(n)) == n
    ensures (Digits(n) + rest)[|Digits(n)|..] == rest
  {
    LeadingDigitsStop(Digits(n), rest);
    ValueOfDigits(n);
  }

  /** A printed number followed by no digit is read back, behind any white space. */
  lemma ReadPrintedInt(space: string, x: int, rest: string)
    requires space == "" || space == " " || space == "\n"
    requires rest != [] ==> !IsDigit(rest[0])
    ensures ReadInt(space + PrintInt(x) + rest) == Got(x, rest)
  {
    var n: nat := if x < 0 then -x else x;
    var body := PrintInt(x) + rest;
    assert space + PrintInt(x) + rest == space + body;
    FirstChar(x);
    assert body[0] == PrintInt(x)[0];
    SkipsTo(space, body);
    ReadMagnitude(n, rest);
    hide SkipSpace, LeadingDigits, ValueOf, Digits, IsDigit, IsSpace;
    ReadBody(space + body, body, x, n, rest);
  }

  lemma ReadBody(s: string, body: string, x: int, n: nat, rest: string)
    requires SkipSpace(s) == body && body == PrintInt(x) + rest
    requires n == if x < 0 then -x else x
    requires body != [] && (body[0] == '-' <==> x < 0) && body[0] != '+'
    requires LeadingDigits(Digits(n) + rest) == Digits(n) && ValueOf(Digits(n)) == n
    requires (Digits(n) + rest)[|Digits(n)|..] == rest
    ensures ReadInt(s) == Got(x, rest)
  {
    hide SkipSpace, LeadingDigits, ValueOf, Digits, IsDigit, IsSpace;
    if x < 0 {
      assert body[1..] == Digits(n) + rest;
    }
  }

  lemma FirstChar(x: int)
    ensures PrintInt(x) != [] && !IsSpace(PrintInt(x)[0])
    ensures PrintInt(x)[0] == '-' <==> x < 0
    ensures PrintInt(x)[0] != '+'
  {
    if x >= 0 { assert Digits(x)[0] in Digits(x); }
  }

  lemma ReadPrintedFields(space: string, e: Entry, rest: string, held: Entry)
    requires space == "" || space == "\n"
    ensures ReadFields(space + PrintFields(e) + ("\n" + rest), held) == Line(e, "\n" + rest)
  {
    hide ReadInt, PrintInt;
    var end := "\n" + rest;
    var s3 := " " + PrintInt(e.port) + end;
    var s2 := " " + PrintInt(e.ip) + s3;
    var s1 := " " + PrintInt(e.cmdid) + s2;
    assert space + PrintFields(e) + end == space + PrintInt(e.modid) + s1;
    ReadPrintedInt(space, e.modid, s1);
    ReadPrintedInt(" ", e.cmdid, s2);
    ReadPrintedInt(" ", e.ip, s3);
    ReadPrintedInt(" ", e.port, end);
  }

  /** Printing any entries and reading the text gives the same entries in the same
      order, whatever the variables held. */
  lemma {:induction false} ReadsWhatWasPrinted(space: string, entries: seq<Entry>, held: Entry)
    requires space == "" || space == "\n"
    ensures ReadAll(space + PrintAll(entries), held) == Some(entries)
    decreases |entries|
  {
    hide *;
    if entries == [] {
      ReadNothing(space, held);
    } else {
      var e, more := entries[0], PrintAll(entries[1..]);
      PrintAllStep(space, entries);
      ReadPrintedFields(space, e, more, held);
      ReadsWhatWasPrinted("\n", entries[1..], e);
      ReadOneMore(space + PrintAll(entries), e, "\n" + more, entries[1..], held);
      assert [e] + entries[1..] == entries;
    }
  }

  lemma PrintAllStep(space: string, entries: seq<Entry>)
    requires entries != []
    ensures space + PrintAll(entries) == space + PrintFields(entries[0]) + ("\n" + PrintAll(entries[1..]))
  {
    hide PrintFields;
  }

  lemma ReadNothing(space: string, held: Entry)
    requires space == "" || space == "\n"
    ensures ReadAll(space + PrintAll([]), held) == Some([])
  {
    assert space + PrintAll([]) == space;
    if space != "" { assert space[1..] == ""; }
    assert SkipSpace(space) == "";
  }

  lemma ReadOneMore(s: string, e: Entry, rest: string, more: seq<Entry>, held: Entry)
    requires ReadFields(s, held) == Line(e, rest) && ReadAll(rest, e) == Some(more)
    ensures ReadAll(s, held) == Some([e] + more)
  {
    hide ReadFields;
  }

  // ---------- Other texts ----------

  lemma TwoFields(s: string, a: Int32, s1: string, b: Int32, held: Entry)
    requires ReadInt(s) == Got(a, s1) && ReadInt(s1) == Got(b, "")
    ensures ReadAll(s, held) == Some([Entry(a, b, held.ip, held.port)])
  {
    NothingToRead(Entry(a, b, held.ip, held.port));
    hide ReadInt;
    var e := Entry(a, b, held.ip, held.port);
    assert ReadFields(s, held) == Line(e, "") && [e] + [] == [e];
  }

  /** A line that breaks off keeps what the variables held for the rest. */
  lemma BrokenLine(a: Int32, b: Int32, held: Entry)
    ensures ReadAll(PrintInt(a) + (" " + PrintInt(b)), held) == Some([Entry(a, b, held.ip, held.port)])
  {
    hide *;
    var rest := " " + PrintInt(b);
    assert "" + PrintInt(a) + rest == PrintInt(a) + rest && rest + "" == rest;
    NoDigitBehind(PrintInt(b));
    ReadPrintedInt("", a, rest);
    ReadPrintedInt(" ", b, "");
    TwoFields(PrintInt(a) + rest, a, rest, b, held);
  }

  lemma NoDigitBehind(s: string)
    ensures !IsDigit((" " + s)[0])
  {
  }

  lemma NothingToRead(held: Entry)
    ensures ReadInt("") == Eof && ReadAll("", held) == Some([])
  {
  }

  lemma ReadBlank(s: string)
    requires s == [] || !IsSpace(s[0])
    ensures SkipSpace(" " + s) == s
  {
    assert (" " + s)[1..] == s;
  }

  lemma OneField(s: string, a: Int32, s1: string, held: Entry)
    requires ReadInt(s) == Got(a, s1)
    ensures ReadInt(s1).SignOnly? ==> ReadFields(s, held) == Line(held.(modid := a), ReadInt(s1).rest)
    ensures ReadInt(s1).Stuck? ==> ReadAll(s, held) == None
  {
    hide ReadInt;
  }

  lemma SignAlone(rest: string)
    requires rest == [] || !IsDigit(rest[0])
    ensures ReadInt(" -" + rest) == SignOnly(rest) && !IsDigit((" -" + rest)[0])
  {
    ReadBlank("-" + rest);
    assert " -" + rest == " " + ("-" + rest) && ("-" + rest)[1..] == rest;
    assert LeadingDigits(rest) == [];
    hide SkipSpace, LeadingDigits;
  }

  /** A sign without a number is taken away, and the next call goes on behind it. */
  lemma StraySign(a: Int32, rest: string, held: Entry)
    requires rest == [] || !IsDigit(rest[0])
    ensures ReadFields(PrintInt(a) + (" -" + rest), held) == Line(held.(modid := a), rest)
  {
    hide *;
    SignAlone(rest);
    assert "" + PrintInt(a) + (" -" + rest) == PrintInt(a) + (" -" + rest);
    ReadPrintedInt("", a, " -" + rest);
    OneField(PrintInt(a) + (" -" + rest), a, " -" + rest, held);
  }

  lemma OtherCharacter(c: char, rest: string, held: Entry)
    requires !IsDigit(c) && !IsSpace(c) && c != '-' && c != '+'
    ensures ReadInt(" " + ([c] + rest)) == Stuck && ReadAll([c] + rest, held) == None
    ensures !IsDigit((" " + ([c] + rest))[0])
  {
    ReadBlank([c] + rest);
    assert ([c] + rest)[0] == c;
    assert ReadInt([c] + rest) == Stuck;
    hide ReadInt, SkipSpace;
    BlankBefore(c, rest);
  }

  lemma BlankBefore(c: char, rest: string)
    requires !IsDigit(c) && !IsSpace(c) && c != '-' && c != '+'
    ensures ReadInt(" " + ([c] + rest)) == Stuck
  {
    ReadBlank([c] + rest);
    hide SkipSpace;
  }

  /** Any other character stops the reader for good. */
  lemma StoppedLine(a: Int32, c: char, rest: string, held: Entry)
    requires !IsDigit(c) && !IsSpace(c) && c != '-' && c != '+'
    ensures ReadAll(PrintInt(a) + (" " + ([c] + rest)), held) == None && ReadAll([c] + rest, held) == None
  {
    hide *;
    OtherCharacter(c, rest, held);
    assert "" + PrintInt(a) + (" " + ([c] + rest)) == PrintInt(a) + (" " + ([c] + rest));
    ReadPrintedInt("", a, " " + ([c] + rest));
    OneField(PrintInt(a) + (" " + ([c] + rest)), a, " " + ([c] + rest), held);
  }
}
