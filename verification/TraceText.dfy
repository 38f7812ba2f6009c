/** The text of the COM2 trace: numbers (kernel/main.c), tab-separated records, and the line
    reassembly of tools/lab_guest.py. */
module TraceText {
  import opened Words

  // ---- numbers ----

  const DIGITS := "0123456789abcdef"

  function DigitValue(c: char): Option<nat> {
    if '0' <= c <= '9' then Some(c as nat - '0' as nat)
    else if 'a' <= c <= 'f' then Some(c as nat - 'a' as nat + 10)
    else None
  }

  function Digit(d: nat): (c: char)
    requires d < 16
    ensures DigitValue(c) == Some(d) && c != '\t' && c != '\n' && c != '\r'
    ensures c == DIGITS[d]
  {
    if d < 10 then '0' + d as char else 'a' + (d - 10) as char
  }

  /** What trace_number prints. */
  function Decimal(n: nat): string {
    if n < 10 then [Digit(n)] else Decimal(n / 10) + [Digit(n % 10)]
  }

  /** The value of a digit string in a base, most significant digit first. */
  function Value(text: string, base: nat): Option<nat> {
    if text == "" then Some(0)
    else match (Value(text[..|text| - 1], base), DigitValue(text[|text| - 1]))
      case (Some(high), Some(d)) => if d < base then Some(high * base + d) else None
      case _ => None
  }

  /** int(text) on the digit strings a trace contains; None is ValueError. */
  function ParseDecimal(text: string): Option<nat> {
    if text == "" then None else Value(text, 10)
  }

  /** int() of the model takes exactly the nonempty digit strings. */
  lemma {:induction false} ParsesDigits(text: string)
    ensures ParseDecimal(text).Some? <==> text != "" && forall i :: 0 <= i < |text| ==> '0' <= text[i] <= '9'
    ensures Value(text, 10).Some? <==> forall i :: 0 <= i < |text| ==> '0' <= text[i] <= '9'
    decreases |text|
  {
    if text != "" {
      ParsesDigits(text[..|text| - 1]);
    }
  }

  lemma {:induction false} DecimalFacts(n: nat)
    ensures Decimal(n) != "" && Value(Decimal(n), 10) == Some(n) && ParseDecimal(Decimal(n)) == Some(n)
    ensures Plain(Decimal(n))
  {
    if n < 10 {
      assert Decimal(n)[..0] == "";
    } else {
      DecimalFacts(n / 10);
      assert Decimal(n)[..|Decimal(n)| - 1] == Decimal(n / 10);
    }
  }

  function HexDigits(n: nat, count: nat): (r: string)
    ensures |r| == count
  {
    if count == 0 then "" else HexDigits(n / 16, count - 1) + [Digit(n % 16)]
  }

  /** What trace_hex prints. */
  function Hex(n: nat): string { "0x" + HexDigits(n, 16) }

  function Power(base: nat, n: nat): nat { if n == 0 then 1 else base * Power(base, n - 1) }

  function ParseHex(text: string): Option<nat> {
    if |text| > 2 && text[..2] == "0x" then Value(text[2..], 16) else None
  }

  lemma {:induction false} HexDigitsFacts(n: nat, count: nat)
    requires n < Power(16, count)
    ensures Value(HexDigits(n, count), 16) == Some(n)
  {
    if count > 0 {
      HexDigitsFacts(n / 16, count - 1);
      assert HexDigits(n, count)[..count - 1] == HexDigits(n / 16, count - 1);
    }
  }

  lemma PowersOfSixteen()
    ensures Power(16, 16) == WORD_LIMIT
  {
    assert Power(16, 4) == 0x1_0000;
    assert Power(16, 8) == 0x1_0000_0000;
    assert Power(16, 12) == 0x1_0000_0000_0000;
  }

  lemma PowersOfTen()
    ensures WORD_LIMIT < Power(10, 20)
  {
    assert Power(10, 4) == 10000;
    assert Power(10, 8) == 100000000;
    assert Power(10, 12) == 1000000000000;
    assert Power(10, 16) == 10000000000000000;
  }

  /** Every 64-bit value survives being printed and read back, in both notations; so two values with
      the same text are the same value. */
  lemma NumbersRoundTrip(n: nat)
    requires n < WORD_LIMIT
    ensures ParseDecimal(Decimal(n)) == Some(n) && ParseHex(Hex(n)) == Some(n)
  {
    DecimalFacts(n);
    PowersOfSixteen();
    HexDigitsFacts(n, 16);
    assert Hex(n)[2..] == HexDigits(n, 16);
  }

  /** One digit is printed; the rest of the number fits the rest of the buffer. */
  lemma DigitDone(n: nat, room: nat)
    requires n < Power(10, room) && 0 < room
    ensures Decimal(n) == (if n / 10 == 0 then "" else Decimal(n / 10)) + [Digit(n % 10)]
    ensures n / 10 < Power(10, room - 1)
    ensures n / 10 != 0 ==> room > 1
  {
    if room == 1 {
      assert Power(10, 1) == 10 * Power(10, 0);
    }
  }

  /** trace_number: fills a 21-byte buffer from the back; every index stays inside it. */
  method TraceNumber(value: nat) returns (text: string)
    requires value < WORD_LIMIT
    ensures text == Decimal(value) && |text| <= 20
  {
    hide Power, Decimal;
    PowersOfTen();
    var buffer := new char[21](_ => '\0');
    var i := 20;
    var rest := value;
    i := i - 1;
    buffer[i] := Digit(rest % 10);
    DigitDone(rest, 20);
    rest := rest / 10;
    assert buffer[i..20] == [Digit(value % 10)];
    while rest != 0
      invariant 0 <= i <= 19 && 0 <= rest < Power(10, i) && (rest != 0 ==> i > 0)
      invariant (if rest == 0 then "" else Decimal(rest)) + buffer[i..20] == Decimal(value)
    {
      ghost var before := buffer[i..20];
      ghost var number := rest;
      i := i - 1;
      buffer[i] := Digit(rest % 10);
      DigitDone(rest, i + 1);
      rest := rest / 10;
      assert buffer[i..20] == [Digit(number % 10)] + before;
    }
    text := buffer[i..20];
  }

  /** value >> (4 * n) */
  function Shifted(value: nat, n: nat): nat { if n == 0 then value else Shifted(value, n - 1) / 16 }

  /** trace_hex: sixteen digits, the highest first. */
  method TraceHex(value: nat) returns (text: string)
    ensures text == Hex(value)
  {
    text := "0x";
    var i := 60;
    while i >= 0
      invariant -4 <= i <= 60 && i % 4 == 0
      invariant text == "0x" + HexDigits(Shifted(value, i / 4 + 1), 16 - (i / 4 + 1))
    {
      var digit := Shifted(value, i / 4) % 16;
      text := text + [Digit(digit)];
      i := i - 4;
    }
  }

  // ---- fields and records ----

  /** A field with none of the characters that separate fields and records. */
  predicate Plain(s: string) { '\t' !in s && '\n' !in s && '\r' !in s }

  function Join(parts: seq<string>): string {
    if parts == [] then "" else if |parts| == 1 then parts[0] else parts[0] + "\t" + Join(parts[1..])
  }

  /** The position of the first `c`, or the length of `s`. */
  function Find(s: string, c: char): (r: nat)
    ensures r <= |s| && (r < |s| ==> s[r] == c) && forall i :: 0 <= i < r ==> s[i] != c
  {
    if s == "" || s[0] == c then 0 else 1 + Find(s[1..], c)
  }

  lemma FindIs(s: string, c: char, i: nat)
    requires i <= |s| && (i < |s| ==> s[i] == c) && forall j :: 0 <= j < i ==> s[j] != c
    ensures Find(s, c) == i
  {
    hide Find;
    assert Find(s, c) <= |s|;
  }

  /** line.split("\t") */
  function Split(line: string): seq<string>
    decreases |line|
  {
    var i := Find(line, '\t');
    if i == |line| then [line] else [line[..i]] + Split(line[i + 1..])
  }

  lemma SplitSingle(field: string)
    requires Plain(field)
    ensures Split(field) == [field] && OneLine(field)
  {
    assert forall i :: 0 <= i < |field| ==> field[i] in field;
    FindIs(field, '\t', |field|);
  }

  lemma OneLineJoin(first: string, rest: string)
    requires Plain(first) && OneLine(rest)
    ensures OneLine(first + "\t" + rest)
  {
  }

  lemma {:induction false} SplitJoin(parts: seq<string>)
    requires parts != [] && forall p :: p in parts ==> Plain(p)
    ensures Split(Join(parts)) == parts && OneLine(Join(parts))
    decreases |parts|
  {
    hide Split, Plain, OneLine;
    var first, rest := parts[0], parts[1..];
    assert first in parts;
    if |parts| == 1 {
      SplitSingle(first);
    } else {
      forall p | p in rest ensures Plain(p) { assert p in parts; }
      SplitJoin(rest);
      JoinSplits(first, Join(rest));
      OneLineJoin(first, Join(rest));
      assert parts == [first] + rest;
    }
  }

  lemma JoinSplits(first: string, rest: string)
    requires Plain(first)
    ensures Split(first + "\t" + rest) == [first] + Split(rest)
  {
    hide Plain;
    var line := first + "\t" + rest;
    FindFirst(first, rest);
    assert line[..|first|] == first && line[|first| + 1..] == rest;
  }

  lemma FindFirst(first: string, rest: string)
    requires Plain(first)
    ensures Find(first + "\t" + rest, '\t') == |first|
  {
    var line := first + "\t" + rest;
    forall j | 0 <= j < |first| ensures line[j] != '\t' { assert line[j] == first[j] && first[j] in first; }
    FindIs(line, '\t', |first|);
  }

  predicate OneLine(s: string) { '\n' !in s && '\r' !in s }

  /** line.rstrip("\r") */
  function Rstrip(line: string): string {
    if line != "" && line[|line| - 1] == '\r' then Rstrip(line[..|line| - 1]) else line
  }

  /** Exactly the carriage returns at the end go. */
  lemma {:induction false} RstripFacts(line: string)
    ensures var r := Rstrip(line);
            && r <= line && (r == "" || r[|r| - 1] != '\r')
            && (forall i :: |r| <= i < |line| ==> line[i] == '\r')
    decreases |line|
  {
    if line != "" && line[|line| - 1] == '\r' {
      RstripFacts(line[..|line| - 1]);
    }
  }

  lemma RstripPlain(line: string)
    requires OneLine(line)
    ensures Rstrip(line) == line
  {
    if line != "" {
      assert line[|line| - 1] in line;
    }
  }

  // ---- reassembling lines from chunks ----

  /** The reader of one channel: what it has not yet seen the end of, the lines it handed on, and
      whether it gave up. */
  datatype Reader = Reader(pending: string, lines: seq<string>, failed: bool)

  /** The inner loop of _read: hand on every complete line. */
  function TakeLines(pending: string, lines: seq<string>): Reader
    decreases |pending|
  {
    var i := Find(pending, '\n');
    if i == |pending| then Reader(pending, lines, false)
    else TakeLines(pending[i + 1..], lines + [pending[..i]])
  }

  /** One chunk: an unterminated record of more than 4096 characters ends the reader. */
  function Feed(r: Reader, chunk: string): Reader {
    if r.failed then r
    else
      var next := TakeLines(r.pending + chunk, r.lines);
      if |next.pending| > 4096 then next.(failed := true) else next
  }

  /** A piece without a newline ends the reader exactly when it and what is pending exceed 4096 characters. */
  lemma FeedLimit(pending: string, lines: seq<string>, chunk: string)
    requires '\n' !in pending && '\n' !in chunk
    ensures Feed(Reader(pending, lines, false), chunk) == Reader(pending + chunk, lines, |pending| + |chunk| > 4096)
  {
    hide Find;
    FindIs(pending + chunk, '\n', |pending + chunk|);
  }

  function FeedAll(r: Reader, chunks: seq<string>): Reader
    decreases |chunks|
  {
    if chunks == [] then r else Feed(FeedAll(r, chunks[..|chunks| - 1]), chunks[|chunks| - 1])
  }

  function Concat(chunks: seq<string>): string
    decreases |chunks|
  {
    if chunks == [] then "" else Concat(chunks[..|chunks| - 1]) + chunks[|chunks| - 1]
  }

  lemma NotFound(s: string)
    requires Find(s, '\n') == |s|
    ensures '\n' !in s
  {
  }

  /** Every stretch without a newline is at most 4096 characters. */
  ghost predicate ShortLines(s: string) {
    forall a, b :: 0 <= a <= b <= |s| && '\n' !in s[a..b] ==> b - a <= 4096
  }

  lemma Suffix(s: string, i: nat, n: nat)
    requires i <= |s| && n <= |s| - i
    ensures s[i..][|s| - i - n..] == s[|s| - n..]
  {
  }

  lemma {:induction false} TakeLinesRest(pending: string, lines: seq<string>)
    ensures var r := TakeLines(pending, lines);
            && !r.failed && '\n' !in r.pending && |r.pending| <= |pending|
            && r.pending == pending[|pending| - |r.pending|..]
    decreases |pending|
  {
    hide Find;
    var i := Find(pending, '\n');
    if i < |pending| {
      TakeLinesRest(pending[i + 1..], lines + [pending[..i]]);
      Suffix(pending, i + 1, |TakeLines(pending[i + 1..], lines + [pending[..i]]).pending|);
    } else {
      NotFound(pending);
    }
  }

  lemma Shifts(pending: string, more: string, i: nat)
    requires i < |pending| && Find(pending, '\n') == i
    ensures Find(pending + more, '\n') == i
    ensures (pending + more)[i + 1..] == pending[i + 1..] + more && (pending + more)[..i] == pending[..i]
  {
    FindIs(pending + more, '\n', i);
  }

  lemma {:induction false} TakeLinesMore(pending: string, lines: seq<string>, more: string)
    ensures var r := TakeLines(pending, lines);
            TakeLines(pending + more, lines) == TakeLines(r.pending + more, r.lines)
    decreases |pending|
  {
    hide Find;
    var i := Find(pending, '\n');
    if i < |pending| {
      Shifts(pending, more, i);
      TakeLinesMore(pending[i + 1..], lines + [pending[..i]], more);
    }
  }

  lemma TakeLinesFacts(pending: string, lines: seq<string>, more: string)
    ensures var r := TakeLines(pending, lines);
            && !r.failed && '\n' !in r.pending && |r.pending| <= |pending|
            && r.pending == pending[|pending| - |r.pending|..]
            && TakeLines(pending + more, lines) == TakeLines(r.pending + more, r.lines)
  {
    TakeLinesRest(pending, lines);
    TakeLinesMore(pending, lines, more);
  }

  /** Reading is independent of how the stream is cut into chunks, as long as no record exceeds the
      limit: the reader never gives up and has handed on exactly the lines of the whole stream. */
  lemma {:induction false} ChunksDoNotMatter(chunks: seq<string>)
    requires ShortLines(Concat(chunks))
    ensures FeedAll(Reader("", [], false), chunks) == TakeLines(Concat(chunks), [])
    ensures !FeedAll(Reader("", [], false), chunks).failed
    decreases |chunks|
  {
    if chunks != [] {
      var before, last := chunks[..|chunks| - 1], chunks[|chunks| - 1];
      var s := Concat(before);
      forall a, b | 0 <= a <= b <= |s| && '\n' !in s[a..b]
        ensures b - a <= 4096
      {
        assert Concat(chunks)[a..b] == s[a..b];
      }
      ChunksDoNotMatter(before);
      TakeLinesFacts(s, [], last);
      var whole := Concat(chunks);
      TakeLinesFacts(whole, [], "");
      var r := TakeLines(whole, []);
      assert whole[|whole| - |r.pending|..|whole|] == r.pending;
    }
  }
}
