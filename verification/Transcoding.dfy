/**
 `Output`: renderer-owned SGR re-encoded for the colours a terminal has. The
 byte machine, what it does to the tokens of the text, and what a terminal
 shows before and after.
 */
module Transcoding {
  import opened Options
  import opened Sgr
  import opened ControlText
  import Theme
  import Clip

  datatype Depth = NoColor | Ansi16 | Ansi256 | TrueColor

  datatype Settings = Settings(plain: bool, depth: Depth)

  // ---------- Palettes ----------

  type Rgb = (nat, nat, nat)

  const BASE: seq<Rgb> := [
    (0, 0, 0), (128, 0, 0), (0, 128, 0), (128, 128, 0), (0, 0, 128), (128, 0, 128), (0, 128, 128), (192, 192, 192),
    (128, 128, 128), (255, 0, 0), (0, 255, 0), (255, 255, 0), (0, 0, 255), (255, 0, 255), (0, 255, 255),
    (255, 255, 255)
  ]

  function Channel(v: nat): nat { if v == 0 then 0 else 55 + 40 * v }

  /** `indexed_rgb`: the xterm palette. */
  function IndexedRgb(index: nat): Rgb
    requires index < 256
  {
    if index < 16 then BASE[index]
    else if index < 232 then
      (Channel((index - 16) / 36), Channel((index - 16) / 6 % 6), Channel((index - 16) % 6))
    else (8 + (index - 232) * 10, 8 + (index - 232) * 10, 8 + (index - 232) * 10)
  }

  function Square(n: int): nat
    ensures n == 0 ==> Square(n) == 0
  {
    if n < 0 then (-n) * (-n) else n * n
  }

  function Distance(a: Rgb, b: Rgb): nat { Square(a.0 - b.0) + Square(a.1 - b.1) + Square(a.2 - b.2) }

  /** `nearest`: the first palette entry at the least distance. */
  function Nearest(rgb: Rgb, count: nat): (n: nat)
    requires 0 < count <= 256
    ensures n < count
    ensures forall j :: 0 <= j < count ==> Distance(rgb, IndexedRgb(n)) <= Distance(rgb, IndexedRgb(j))
    ensures forall j :: 0 <= j < n ==> Distance(rgb, IndexedRgb(n)) < Distance(rgb, IndexedRgb(j))
  {
    if count == 1 then 0
    else
      var best := Nearest(rgb, count - 1);
      if Distance(rgb, IndexedRgb(count - 1)) < Distance(rgb, IndexedRgb(best)) then count - 1 else best
  }

  // ---------- One control ----------

  /** The sequences to write, and whether the whole control was understood. */
  datatype Encoded = Encoded(sequences: seq<seq<nat>>, ok: bool)

  predicate IsColor(code: nat) { 30 <= code <= 49 || 90 <= code <= 107 }

  /** What becomes of a selection of colour `rgb` by palette index or by components. */
  function EncodeColor(depth: Depth, selection: seq<nat>, rgb: Rgb): seq<seq<nat>>
    requires |selection| == 3 || |selection| == 5
  {
    match depth
    case NoColor => []
    case TrueColor => [selection]
    case Ansi256 => if |selection| == 3 then [selection] else [[selection[0], 5, Nearest(rgb, 256)]]
    case Ansi16 => [Theme.Select(Theme.Ansi(Nearest(rgb, 16)), selection[0] == 48)]
  }

  /** How many parameters the first selection takes, if it is one the encoder understands. */
  function Selection(p: seq<nat>): (n: nat)
    requires |p| > 0
    ensures n <= |p|
  {
    if p[0] != 38 && p[0] != 48 then 1
    else if |p| >= 5 && p[1] == 2 && p[2] <= 255 && p[3] <= 255 && p[4] <= 255 then 5
    else if |p| >= 3 && p[1] == 5 && p[2] <= 255 then 3
    else 0
  }

  function EncodeFirst(depth: Depth, p: seq<nat>): seq<seq<nat>>
    requires |p| > 0 && Selection(p) > 0
  {
    match Selection(p)
    case 5 => EncodeColor(depth, p[..5], (p[2], p[3], p[4]))
    case 3 => EncodeColor(depth, p[..3], IndexedRgb(p[2]))
    case _ => if IsColor(p[0]) && depth == NoColor then [] else [[p[0]]]
  }

  function Encode(depth: Depth, p: seq<nat>): Encoded
    decreases |p|
  {
    if |p| == 0 then Encoded([], true)
    else if Selection(p) == 0 then Encoded([], false)
    else
      var rest := Encode(depth, p[Selection(p)..]);
      Encoded(EncodeFirst(depth, p) + rest.sequences, rest.ok)
  }

  function EncodeBody(o: Settings, body: string): Encoded {
    if o.plain then Encoded([], true)
    else if Params(body).None? then Encoded([], false)
    else Encode(o.depth, Params(body).value)
  }

  // ---------- The byte machine ----------

  datatype Writer = Writer(out: string, sequence: string)

  datatype Fed = Fed(w: Writer, ok: bool)

  function Controls(sequences: seq<seq<nat>>): (tokens: seq<Token>)
    requires forall k :: 0 <= k < |sequences| ==> Writable(sequences[k])
    ensures |tokens| == |sequences|
  {
    seq(|sequences|, k requires 0 <= k < |sequences| && Writable(sequences[k]) => Control(PrintParams(sequences[k])))
  }

  function FeedByte(o: Settings, w: Writer, b: char): Fed {
    if |w.sequence| == 0 && b != ESCAPE then Fed(Writer(w.out + [b], ""), true)
    else
      var sequence := w.sequence + [b];
      if Unexpected(sequence) then Fed(Writer(w.out, sequence), false)
      else if b == 'm' && |sequence| > 2 then
        var e := EncodeBody(o, Body(sequence));
        EncodedAreSequences(o, Body(sequence));
        Fed(Writer(w.out + PrintAll(Controls(e.sequences)), if e.ok then "" else sequence), e.ok)
      else Fed(Writer(w.out, sequence), true)
  }

  /** Bytes are fed until one is refused. */
  function Feed(o: Settings, w: Writer, bytes: string): Fed {
    if |bytes| == 0 then Fed(w, true)
    else
      var front := Feed(o, w, bytes[..|bytes| - 1]);
      if !front.ok then front else FeedByte(o, front.w, bytes[|bytes| - 1])
  }

  lemma {:induction false} FeedSplits(o: Settings, w: Writer, a: string, b: string)
    ensures Feed(o, w, a + b) == if Feed(o, w, a).ok then Feed(o, Feed(o, w, a).w, b) else Feed(o, w, a)
    decreases |b|
  {
    hide FeedByte;
    if |b| == 0 {
      assert a + b == a;
    } else {
      assert (a + b)[..|a + b| - 1] == a + b[..|b| - 1];
      FeedSplits(o, w, a, b[..|b| - 1]);
    }
  }

  /** Short parameters that print and read back. */
  predicate Writable(p: seq<nat>) { 0 < |p| <= 5 && forall k :: 0 <= k < |p| ==> p[k] <= 65535 }

  lemma EncodedFirstWritable(depth: Depth, p: seq<nat>)
    requires |p| > 0 && Selection(p) > 0 && forall k :: 0 <= k < |p| ==> p[k] <= 65535
    ensures forall k :: 0 <= k < |EncodeFirst(depth, p)| ==> Writable(EncodeFirst(depth, p)[k])
  {
    hide Nearest, IndexedRgb;
  }

  lemma {:induction false} EncodedWritable(depth: Depth, p: seq<nat>)
    requires forall k :: 0 <= k < |p| ==> p[k] <= 65535
    ensures forall k :: 0 <= k < |Encode(depth, p).sequences| ==> Writable(Encode(depth, p).sequences[k])
    decreases |p|
  {
    hide EncodeFirst, Writable;
    if |p| > 0 && Selection(p) > 0 {
      EncodedFirstWritable(depth, p);
      EncodedWritable(depth, p[Selection(p)..]);
    }
  }

  lemma {:induction false} ParsedAreSmall(fields: seq<string>)
    requires ParseFields(fields).Some?
    ensures forall k :: 0 <= k < |ParseFields(fields).value| ==> ParseFields(fields).value[k] <= 65535
  {
    if |fields| > 0 { ParsedAreSmall(fields[1..]); }
  }

  lemma EncodedAreSequences(o: Settings, body: string)
    ensures forall k :: 0 <= k < |EncodeBody(o, body).sequences| ==> Writable(EncodeBody(o, body).sequences[k])
  {
    if Params(body).Some? {
      if |body| > 0 { ParsedAreSmall(Fields(body)); }
      EncodedWritable(o.depth, Params(body).value);
    }
  }

  // ---------- What it does to the tokens ----------

  function EncodeToken(o: Settings, t: Token): (tokens: seq<Token>) {
    match t
    case Text(b) => [t]
    case Control(body) => EncodedAreSequences(o, body); Controls(EncodeBody(o, body).sequences)
  }

  predicate Understood(o: Settings, t: Token) { t.Control? ==> EncodeBody(o, t.body).ok }

  function EncodeAll(o: Settings, tokens: seq<Token>): seq<Token> {
    if |tokens| == 0 then [] else EncodeAll(o, tokens[..|tokens| - 1]) + EncodeToken(o, tokens[|tokens| - 1])
  }

  predicate AllUnderstood(o: Settings, tokens: seq<Token>) {
    forall k :: 0 <= k < |tokens| ==> Understood(o, tokens[k])
  }

  lemma {:induction false} PrintSplits(a: seq<Token>, b: seq<Token>)
    ensures PrintAll(a + b) == PrintAll(a) + PrintAll(b)
    decreases |b|
  {
    hide PrintToken;
    if |b| == 0 {
      assert a + b == a;
    } else {
      assert (a + b)[..|a + b| - 1] == a + b[..|b| - 1];
      PrintSplits(a, b[..|b| - 1]);
      assert PrintAll(a) + PrintAll(b[..|b| - 1]) + PrintToken(b[|b| - 1])
          == PrintAll(a) + (PrintAll(b[..|b| - 1]) + PrintToken(b[|b| - 1]));
    }
  }

  lemma EncodeMore(o: Settings, tokens: seq<Token>, t: Token)
    ensures EncodeAll(o, tokens + [t]) == EncodeAll(o, tokens) + EncodeToken(o, t)
    ensures PrintAll(EncodeAll(o, tokens + [t])) == PrintAll(EncodeAll(o, tokens)) + PrintAll(EncodeToken(o, t))
    ensures AllUnderstood(o, tokens + [t]) <==> AllUnderstood(o, tokens) && Understood(o, t)
  {
    hide EncodeToken, PrintAll, Understood;
    assert (tokens + [t])[..|tokens|] == tokens;
    PrintSplits(EncodeAll(o, tokens), EncodeToken(o, t));
    assert (tokens + [t])[|tokens|] == t;
    assert forall k :: 0 <= k < |tokens| ==> (tokens + [t])[k] == tokens[k];
  }

  /** The writer has accepted the scanned tokens and written their encoding. */
  ghost predicate Follows(o: Settings, f: Fed, s: Option<Scan>) {
    && (f.ok <==> s.Some? && AllUnderstood(o, s.value.tokens))
    && (f.ok ==> f.w.sequence == s.value.sequence && f.w.out == PrintAll(EncodeAll(o, s.value.tokens)))
  }

  lemma FollowsByte(o: Settings, w: Writer, s: Scan, b: char)
    requires Follows(o, Fed(w, true), Some(s))
    ensures Follows(o, FeedByte(o, w, b), ScanByte(s, b))
  {
    hide EncodeAll, EncodeBody, PrintAll, Controls, AllUnderstood;
    var sequence := s.sequence + [b];
    if |s.sequence| == 0 && b != ESCAPE {
      EncodeMore(o, s.tokens, Text(b));
      PrintOne(Text(b));
    } else if !Unexpected(sequence) && b == 'm' && |sequence| > 2 {
      EncodeMore(o, s.tokens, Control(Body(sequence)));
    }
  }

  lemma PrintOne(t: Token)
    ensures PrintAll([t]) == PrintToken(t)
  {
    assert [t][..0] == [];
  }

  lemma StopsAtRefusal(o: Settings, f: Fed, s: Option<Scan>, b: char)
    requires Follows(o, f, s) && !f.ok
    ensures Follows(o, f, if s.None? then None else ScanByte(s.value, b))
  {
    if s.Some? && ScanByte(s.value, b).Some? {
      var next := ScanByte(s.value, b).value.tokens;
      assert s.value.tokens <= next;
      var k :| 0 <= k < |s.value.tokens| && !Understood(o, s.value.tokens[k]);
      assert next[k] == s.value.tokens[k];
    }
  }

  /** The byte machine does to any bytes what the encoder does to their tokens. */
  lemma {:induction false} FeedFollows(o: Settings, bytes: string)
    ensures Follows(o, Feed(o, Writer("", ""), bytes), ScanAll(START, bytes))
  {
    hide FeedByte, ScanByte, Follows;
    if |bytes| > 0 {
      var front := bytes[..|bytes| - 1];
      FeedFollows(o, front);
      var f, s := Feed(o, Writer("", ""), front), ScanAll(START, front);
      if f.ok {
        assert s.Some? by { Accepted(o, f, s); }
        FollowsByte(o, f.w, s.value, bytes[|bytes| - 1]);
      } else {
        StopsAtRefusal(o, f, s, bytes[|bytes| - 1]);
      }
    } else {
      NothingFed(o);
    }
  }

  lemma Accepted(o: Settings, f: Fed, s: Option<Scan>)
    requires Follows(o, f, s) && f.ok
    ensures s.Some?
  {
  }

  lemma NothingFed(o: Settings)
    ensures Follows(o, Fed(Writer("", ""), true), Some(START))
  {
  }

  // ---------- The whole text ----------

  /** All bytes written, then a flush, which refuses a half-written control. */
  function Transcode(o: Settings, bytes: string): Option<string> {
    var f := Feed(o, Writer("", ""), bytes);
    if !f.ok || |f.w.sequence| > 0 then None else Some(f.w.out)
  }

  /** Accepted exactly when the text is complete and every control understood; then each token is encoded. */
  lemma TranscodeIsTokenwise(o: Settings, bytes: string)
    ensures Transcode(o, bytes).Some? <==> Tokens(bytes).Some? && AllUnderstood(o, Tokens(bytes).value)
    ensures Transcode(o, bytes).Some? ==> Transcode(o, bytes).value == PrintAll(EncodeAll(o, Tokens(bytes).value))
  {
    hide Feed, ScanAll, AllUnderstood, EncodeAll, PrintAll;
    FeedFollows(o, bytes);
  }

  lemma ControlsPrintable(sequences: seq<seq<nat>>)
    requires forall k :: 0 <= k < |sequences| ==> Writable(sequences[k])
    ensures AllPrintable(Controls(sequences))
  {
    forall k | 0 <= k < |sequences| ensures Printable(Controls(sequences)[k]) { ParamsLength(sequences[k]); }
  }

  lemma {:induction false} EncodedPrintable(o: Settings, tokens: seq<Token>)
    requires AllPrintable(tokens)
    ensures AllPrintable(EncodeAll(o, tokens))
  {
    if |tokens| > 0 {
      var front, t := tokens[..|tokens| - 1], tokens[|tokens| - 1];
      hide Printable, EncodeBody, Controls;
      EncodedPrintable(o, front);
      assert Printable(t);
      if t.Control? {
        EncodedAreSequences(o, t.body);
        ControlsPrintable(EncodeBody(o, t.body).sequences);
      }
    }
  }

  /** The tokens of the output are the encoded tokens of the input. */
  lemma TokensOfOutput(o: Settings, bytes: string)
    requires Transcode(o, bytes).Some?
    ensures Tokens(bytes).Some? && Tokens(Transcode(o, bytes).value) == Some(EncodeAll(o, Tokens(bytes).value))
    ensures AllPrintable(Tokens(bytes).value) && AllUnderstood(o, Tokens(bytes).value)
  {
    hide Feed, Transcode, AllUnderstood, EncodeAll, PrintAll, AllPrintable, Opening;
    TranscodeIsTokenwise(o, bytes);
    ScanKeepsBytes(bytes);
    EncodedPrintable(o, Tokens(bytes).value);
    TokensOfPrinted(EncodeAll(o, Tokens(bytes).value));
  }
}
