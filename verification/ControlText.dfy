/**
 Text with SGR control sequences as bytes (characters stand for bytes): the
 grammar the renderer may emit, a printer and a scanner for it, and the round
 trip between them.
 */
module ControlText {
  import opened Options
  import opened Decimal

  const ESCAPE: char := 27 as char

  /** A byte of text, or a control with its parameters still as text. */
  datatype Token = Text(b: char) | Control(body: string)

  // ---------- Scanning ----------

  datatype Scan = Scan(tokens: seq<Token>, sequence: string)

  predicate InBody(b: char) { IsDigit(b) || b == ';' }

  /** The byte that was just added makes the control one the renderer never emits. */
  predicate Unexpected(sequence: string)
    requires |sequence| > 0
  {
    var b := sequence[|sequence| - 1];
    || |sequence| > 64
    || (|sequence| == 2 && b != '[')
    || (|sequence| > 2 && !InBody(b) && b != 'm')
  }

  function Body(sequence: string): string
    requires |sequence| > 2
  {
    sequence[2..|sequence| - 1]
  }

  function ScanByte(s: Scan, b: char): Option<Scan> {
    if |s.sequence| == 0 && b != ESCAPE then Some(Scan(s.tokens + [Text(b)], ""))
    else
      var sequence := s.sequence + [b];
      if Unexpected(sequence) then None
      else if b == 'm' && |sequence| > 2 then Some(Scan(s.tokens + [Control(Body(sequence))], ""))
      else Some(Scan(s.tokens, sequence))
  }

  function ScanAll(s: Scan, bytes: string): Option<Scan> {
    if |bytes| == 0 then Some(s)
    else
      var front := ScanAll(s, bytes[..|bytes| - 1]);
      if front.None? then None else ScanByte(front.value, bytes[|bytes| - 1])
  }

  const START := Scan([], "")

  /** The tokens of a complete text. */
  function Tokens(bytes: string): Option<seq<Token>> {
    var s := ScanAll(START, bytes);
    if s.None? || |s.value.sequence| > 0 then None else Some(s.value.tokens)
  }

  // ---------- Printing ----------

  function PrintToken(t: Token): string {
    match t
    case Text(b) => [b]
    case Control(body) => [ESCAPE, '['] + body + "m"
  }

  function PrintAll(tokens: seq<Token>): string {
    if |tokens| == 0 then "" else PrintAll(tokens[..|tokens| - 1]) + PrintToken(tokens[|tokens| - 1])
  }

  predicate Printable(t: Token) {
    match t
    case Text(b) => b != ESCAPE
    case Control(body) => |body| <= 61 && forall i :: 0 <= i < |body| ==> InBody(body[i])
  }

  predicate AllPrintable(tokens: seq<Token>) { forall i :: 0 <= i < |tokens| ==> Printable(tokens[i]) }

  lemma {:induction false} ScanSplits(s: Scan, a: string, b: string)
    ensures ScanAll(s, a + b) == (if ScanAll(s, a).None? then None else ScanAll(ScanAll(s, a).value, b))
    decreases |b|
  {
    hide ScanByte;
    if |b| == 0 {
      assert a + b == a;
    } else {
      assert (a + b)[..|a + b| - 1] == a + b[..|b| - 1];
      ScanSplits(s, a, b[..|b| - 1]);
    }
  }

  lemma {:induction false} ScanBody(tokens: seq<Token>, body: string)
    requires Printable(Control(body))
    ensures ScanAll(Scan(tokens, [ESCAPE, '[']), body) == Some(Scan(tokens, [ESCAPE, '['] + body))
  {
    if |body| == 0 {
      assert [ESCAPE, '['] + body == [ESCAPE, '['];
    } else {
      var front, b := body[..|body| - 1], body[|body| - 1];
      ScanBody(tokens, front);
      assert [ESCAPE, '['] + front + [b] == [ESCAPE, '['] + body;
      assert InBody(b);
    }
  }

  lemma ScanOpening(tokens: seq<Token>)
    ensures ScanAll(Scan(tokens, ""), [ESCAPE, '[']) == Some(Scan(tokens, [ESCAPE, '[']))
  {
    var first := [ESCAPE];
    assert [ESCAPE, '['][..1] == first && first[..0] == "";
    assert ScanAll(Scan(tokens, ""), first) == Some(Scan(tokens, "" + [ESCAPE]));
    assert "" + [ESCAPE] == first && first + ['['] == [ESCAPE, '['];
  }

  lemma ScanControl(tokens: seq<Token>, body: string)
    requires Printable(Control(body))
    ensures ScanAll(Scan(tokens, ""), PrintToken(Control(body))) == Some(Scan(tokens + [Control(body)], ""))
  {
    var opening := [ESCAPE, '['];
    ScanOpening(tokens);
    ScanBody(tokens, body);
    ScanSplits(Scan(tokens, ""), opening, body);
    ScanSplits(Scan(tokens, ""), opening + body, "m");
    var whole := opening + body + "m";
    assert "m"[..0] == "" && opening + body + ['m'] == whole;
    assert Body(whole) == body;
    assert ScanByte(Scan(tokens, opening + body), 'm') == Some(Scan(tokens + [Control(body)], ""));
  }

  lemma ScanToken(tokens: seq<Token>, t: Token)
    requires Printable(t)
    ensures ScanAll(Scan(tokens, ""), PrintToken(t)) == Some(Scan(tokens + [t], ""))
  {
    match t
    case Text(b) => assert [b][..0] == "";
    case Control(body) => ScanControl(tokens, body);
  }

  /** Printed tokens scan back to themselves. */
  lemma {:induction false} TokensOfPrinted(tokens: seq<Token>)
    requires AllPrintable(tokens)
    ensures Tokens(PrintAll(tokens)) == Some(tokens)
    ensures ScanAll(START, PrintAll(tokens)) == Some(Scan(tokens, ""))
  {
    hide ScanAll, Printable, PrintToken;
    if |tokens| > 0 {
      var front, t := tokens[..|tokens| - 1], tokens[|tokens| - 1];
      TokensOfPrinted(front);
      ScanToken(front, t);
      ScanSplits(START, PrintAll(front), PrintToken(t));
      assert front + [t] == tokens;
    } else {
      assert ScanAll(START, "") == Some(START) by { NothingScanned(); }
    }
  }

  lemma NothingScanned()
    ensures ScanAll(START, "") == Some(START)
  {
  }

  /** A half-read control is one that can still become printable. */
  ghost predicate Opening(sequence: string) {
    && |sequence| <= 64
    && (|sequence| > 0 ==> sequence[0] == ESCAPE)
    && (|sequence| > 1 ==> sequence[1] == '[')
    && forall i :: 2 <= i < |sequence| ==> InBody(sequence[i])
  }

  lemma StaysOpening(s: Scan, b: char)
    requires Opening(s.sequence) && AllPrintable(s.tokens) && ScanByte(s, b).Some?
    ensures Opening(ScanByte(s, b).value.sequence) && AllPrintable(ScanByte(s, b).value.tokens)
    ensures PrintAll(ScanByte(s, b).value.tokens) + ScanByte(s, b).value.sequence == PrintAll(s.tokens) + s.sequence + [b]
  {
    var next := ScanByte(s, b).value;
    var sequence := s.sequence + [b];
    if |s.sequence| == 0 && b != ESCAPE {
      assert next.tokens[..|s.tokens|] == s.tokens;
    } else if b == 'm' && |sequence| > 2 {
      assert next.tokens[..|s.tokens|] == s.tokens;
      assert sequence == [ESCAPE, '['] + Body(sequence) + "m";
      assert PrintAll(s.tokens) + sequence == PrintAll(s.tokens) + s.sequence + [b];
    } else {
      assert PrintAll(s.tokens) + sequence == PrintAll(s.tokens) + s.sequence + [b];
    }
  }

  /** What is scanned prints back to the bytes that were read. */
  lemma {:induction false} ScanKeepsBytes(bytes: string)
    requires ScanAll(START, bytes).Some?
    ensures var s := ScanAll(START, bytes).value;
            Opening(s.sequence) && AllPrintable(s.tokens) && PrintAll(s.tokens) + s.sequence == bytes
  {
    if |bytes| > 0 {
      hide ScanByte, Opening, AllPrintable, PrintAll;
      ScanKeepsBytes(bytes[..|bytes| - 1]);
      StaysOpening(ScanAll(START, bytes[..|bytes| - 1]).value, bytes[|bytes| - 1]);
    }
  }

  // ---------- Parameters ----------

  function Semicolon(body: string): (i: nat)
    ensures i <= |body| && (i < |body| ==> body[i] == ';')
    ensures forall k :: 0 <= k < i ==> body[k] != ';'
  {
    if |body| == 0 || body[0] == ';' then 0 else 1 + Semicolon(body[1..])
  }

  function Fields(body: string): seq<string> {
    var i := Semicolon(body);
    if i == |body| then [body] else [body[..i]] + Fields(body[i + 1..])
  }

  /** `parse::<u16>` on text of digits and semicolons. */
  function ParseField(f: string): Option<nat> {
    if |f| == 0 || !AllDigits(f) || Value(f) > 65535 then None else Some(Value(f))
  }

  function ParseFields(fields: seq<string>): Option<seq<nat>> {
    if |fields| == 0 then Some([])
    else
      var first, rest := ParseField(fields[0]), ParseFields(fields[1..]);
      if first.None? || rest.None? then None else Some([first.value] + rest.value)
  }

  /** The parameters of a control; an empty body is a reset. */
  function Params(body: string): Option<seq<nat>> {
    if |body| == 0 then Some([0]) else ParseFields(Fields(body))
  }

  function PrintParams(p: seq<nat>): (body: string)
    requires |p| > 0
    ensures |body| > 0 && forall i :: 0 <= i < |body| ==> InBody(body[i])
  {
    if |p| == 1 then Print(p[0]) else Print(p[0]) + ";" + PrintParams(p[1..])
  }

  lemma {:induction false} SemicolonAfterDigits(digits: string, rest: string)
    requires AllDigits(digits) && (|rest| == 0 || rest[0] == ';')
    ensures Semicolon(digits + rest) == |digits|
  {
    if |digits| > 0 {
      SemicolonAfterDigits(digits[1..], rest);
      assert (digits + rest)[1..] == digits[1..] + rest;
      assert IsDigit(digits[0]);
    } else {
      assert digits + rest == rest;
    }
  }

  lemma LastField(digits: string)
    requires AllDigits(digits)
    ensures Fields(digits) == [digits]
  {
    SemicolonAfterDigits(digits, "");
    assert digits + "" == digits;
  }

  lemma FirstField(digits: string, rest: string)
    requires AllDigits(digits)
    ensures Fields(digits + ";" + rest) == [digits] + Fields(rest)
  {
    hide Semicolon;
    var body := digits + ";" + rest;
    SemicolonAfterDigits(digits, ";" + rest);
    assert body == digits + (";" + rest);
    assert body[|digits| + 1..] == rest && body[..|digits|] == digits;
  }

  lemma {:induction false} FieldsOfPrinted(p: seq<nat>)
    requires |p| > 0
    ensures |Fields(PrintParams(p))| == |p|
    ensures forall k :: 0 <= k < |p| ==> Fields(PrintParams(p))[k] == Print(p[k])
  {
    hide Fields, Print;
    if |p| == 1 {
      LastField(Print(p[0]));
    } else {
      FieldsOfPrinted(p[1..]);
      FirstField(Print(p[0]), PrintParams(p[1..]));
    }
  }

  lemma {:induction false} ParsePrinted(p: seq<nat>, fields: seq<string>)
    requires |fields| == |p| && forall k :: 0 <= k < |p| ==> fields[k] == Print(p[k]) && p[k] <= 65535
    ensures ParseFields(fields) == Some(p)
  {
    if |p| > 0 {
      ValueOfPrint(p[0]);
      ParsePrinted(p[1..], fields[1..]);
      assert [p[0]] + p[1..] == p;
    }
  }

  /** Printed parameters read back as they were. */
  lemma ParamsOfPrinted(p: seq<nat>)
    requires |p| > 0 && forall k :: 0 <= k < |p| ==> p[k] <= 65535
    ensures Params(PrintParams(p)) == Some(p)
  {
    FieldsOfPrinted(p);
    ParsePrinted(p, Fields(PrintParams(p)));
  }

  lemma {:induction false} PrintLength(n: nat, digits: nat)
    requires n < Power(digits) && digits > 0
    ensures |Print(n)| <= digits
  {
    if n >= 10 { PrintLength(n / 10, digits - 1); }
  }

  function Power(digits: nat): nat { if digits == 0 then 1 else 10 * Power(digits - 1) }

  lemma {:induction false} ParamsLength(p: seq<nat>)
    requires |p| > 0 && forall k :: 0 <= k < |p| ==> p[k] <= 65535
    ensures |PrintParams(p)| <= 6 * |p|
  {
    PrintLength(p[0], 5);
    if |p| > 1 { ParamsLength(p[1..]); }
  }
}
