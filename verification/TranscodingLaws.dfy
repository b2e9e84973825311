/**
 What re-encoding keeps: the text, what a terminal shows as far as its colours
 allow, and nothing left to re-encode.
 */
module TranscodingLaws {
  import opened Options
  import opened Sgr
  import opened ControlText
  import opened Transcoding
  import Theme
  import Clip

  // ---------- Text ----------

  /** What is left once controls are removed. */
  function TextOf(tokens: seq<Token>): string {
    if |tokens| == 0 then ""
    else TextOf(tokens[..|tokens| - 1]) + (if tokens[|tokens| - 1].Text? then [tokens[|tokens| - 1].b] else "")
  }

  lemma {:induction false} TextSplits(a: seq<Token>, b: seq<Token>)
    ensures TextOf(a + b) == TextOf(a) + TextOf(b)
    decreases |b|
  {
    if |b| == 0 {
      assert a + b == a;
    } else {
      assert (a + b)[..|a + b| - 1] == a + b[..|b| - 1];
      TextSplits(a, b[..|b| - 1]);
    }
  }

  lemma {:induction false} ControlsHaveNoText(tokens: seq<Token>)
    requires forall k :: 0 <= k < |tokens| ==> tokens[k].Control?
    ensures TextOf(tokens) == ""
  {
    if |tokens| > 0 { ControlsHaveNoText(tokens[..|tokens| - 1]); }
  }

  lemma TokenKeepsText(o: Settings, t: Token)
    ensures TextOf(EncodeToken(o, t)) == TextOf([t])
  {
    assert [t][..0] == [];
    if t.Control? { ControlsHaveNoText(EncodeToken(o, t)); }
  }

  lemma {:induction false} EncodeKeepsText(o: Settings, tokens: seq<Token>)
    ensures TextOf(EncodeAll(o, tokens)) == TextOf(tokens)
  {
    hide EncodeToken;
    if |tokens| > 0 {
      var front, t := tokens[..|tokens| - 1], tokens[|tokens| - 1];
      EncodeKeepsText(o, front);
      TokenKeepsText(o, t);
      TextSplits(EncodeAll(o, front), EncodeToken(o, t));
      TextSplits(front, [t]);
      assert front + [t] == tokens;
    }
  }

  /** Re-encoding never changes the text between the controls. */
  lemma TextIsKept(o: Settings, bytes: string)
    requires Transcode(o, bytes).Some?
    ensures Tokens(bytes).Some? && Tokens(Transcode(o, bytes).value).Some?
    ensures TextOf(Tokens(Transcode(o, bytes).value).value) == TextOf(Tokens(bytes).value)
  {
    TokensOfOutput(o, bytes);
    EncodeKeepsText(o, Tokens(bytes).value);
  }

  lemma {:induction false} PlainEncoding(o: Settings, tokens: seq<Token>)
    requires o.plain
    ensures PrintAll(EncodeAll(o, tokens)) == TextOf(tokens)
  {
    hide Params, Encode;
    if |tokens| > 0 {
      var front, t := tokens[..|tokens| - 1], tokens[|tokens| - 1];
      PlainEncoding(o, front);
      PrintSplits(EncodeAll(o, front), EncodeToken(o, t));
      if t.Text? { PrintOne(t); }
    }
  }

  /** Plain output is the text alone. */
  lemma PlainIsText(o: Settings, bytes: string)
    requires o.plain && Transcode(o, bytes).Some?
    ensures Tokens(bytes).Some? && Transcode(o, bytes).value == TextOf(Tokens(bytes).value)
  {
    hide Tokens, Transcode, AllUnderstood, EncodeAll, PrintAll;
    TranscodeIsTokenwise(o, bytes);
    PlainEncoding(o, Tokens(bytes).value);
  }

  // ---------- What a terminal shows ----------

  function Send(t: Token): seq<Clip.Out> {
    match t
    case Text(b) => [Clip.Byte(b)]
    case Control(body) => if Params(body).Some? then [Clip.Escape(Params(body).value)] else []
  }

  function SendAll(tokens: seq<Token>): seq<Clip.Out> {
    if |tokens| == 0 then [] else SendAll(tokens[..|tokens| - 1]) + Send(tokens[|tokens| - 1])
  }

  /** The screen of a terminal that receives these tokens. */
  function Screen(tokens: seq<Token>): Clip.Screen { Clip.Show(SendAll(tokens)) }

  function Receive(s: Clip.Screen, t: Token): Clip.Screen {
    match t
    case Text(b) => s.(cells := s.cells + [Clip.Cell(b, s.attributes)])
    case Control(body) =>
      if Params(body).Some? then s.(attributes := Interpret(s.attributes, Params(body).value)) else s
  }

  lemma ScreenMore(tokens: seq<Token>, t: Token)
    ensures Screen(tokens + [t]) == Receive(Screen(tokens), t)
  {
    assert (tokens + [t])[..|tokens|] == tokens;
    if t.Text? {
      Clip.ShowOne(SendAll(tokens), Clip.Byte(t.b));
    } else if Params(t.body).Some? {
      Clip.ShowOne(SendAll(tokens), Clip.Escape(Params(t.body).value));
    } else {
      assert SendAll(tokens) + [] == SendAll(tokens);
    }
  }

  lemma ControlsMore(sequences: seq<seq<nat>>)
    requires |sequences| > 0 && forall k :: 0 <= k < |sequences| ==> Writable(sequences[k])
    ensures Controls(sequences)
         == Controls(sequences[..|sequences| - 1]) + [Control(PrintParams(sequences[|sequences| - 1]))]
  {
    hide PrintParams;
  }

  lemma {:induction false} ScreenControls(tokens: seq<Token>, sequences: seq<seq<nat>>)
    requires forall k :: 0 <= k < |sequences| ==> Writable(sequences[k])
    ensures Screen(tokens + Controls(sequences))
         == Clip.Screen(Screen(tokens).cells, InterpretAll(Screen(tokens).attributes, sequences))
    decreases |sequences|
  {
    hide Screen, Params, PrintParams, Interpret;
    if |sequences| == 0 {
      assert tokens + Controls(sequences) == tokens;
    } else {
      var front, last := sequences[..|sequences| - 1], sequences[|sequences| - 1];
      ScreenControls(tokens, front);
      ParamsOfPrinted(last);
      ControlsMore(sequences);
      hide Controls;
      assert tokens + Controls(front) + [Control(PrintParams(last))] == tokens + Controls(sequences);
      ScreenMore(tokens + Controls(front), Control(PrintParams(last)));
    }
  }

  /** Attributes without their colours. */
  function Colorless(a: Attributes): Attributes { a.(fg := DefaultColor, bg := DefaultColor) }

  /** What re-encoding for these settings keeps of the attributes. */
  function Kept(o: Settings, a: Attributes): Attributes { if o.depth == TrueColor then a else Colorless(a) }

  function CellsKept(o: Settings, cells: seq<Clip.Cell>): seq<Clip.Cell> {
    seq(|cells|, k requires 0 <= k < |cells| => Clip.Cell(cells[k].b, Kept(o, cells[k].attributes)))
  }

  /** The two screens agree: same text, same attributes but for colours that were not kept. */
  ghost predicate Agree(o: Settings, s: Clip.Screen, t: Clip.Screen) {
    CellsKept(o, s.cells) == CellsKept(o, t.cells) && Kept(o, s.attributes) == Kept(o, t.attributes)
  }

  // ---------- One control ----------

  lemma FirstAtTrueColor(a: Attributes, p: seq<nat>)
    requires |p| > 0 && Selection(p) > 0
    ensures Selection(p) == Taken(p)
    ensures InterpretAll(a, EncodeFirst(TrueColor, p)) == Assign(a, FirstEffect(p))
  {
    var q := p[..Selection(p)];
    assert Selection(p) == 1 ==> q == [p[0]];
    assert Taken(q) == |q| && q[..|q|] == q;
    InterpretFirst(a, q);
    assert FirstEffect(q) == FirstEffect(p);
    assert EncodeFirst(TrueColor, p) == [q];
  }

  /** Effects that differ in colours only. */
  predicate SameButColor(e: Effect, f: Effect) {
    e.bold == f.bold && e.faint == f.faint && e.italic == f.italic && e.underline == f.underline
    && e.inverse == f.inverse && e.crossed == f.crossed
  }

  lemma AnsiColorOnly(p: seq<nat>, rgb: Rgb, a: Attributes)
    requires (|p| == 3 || |p| == 5) && (p[0] == 38 || p[0] == 48)
    ensures Colorless(InterpretAll(a, EncodeColor(Ansi16, p, rgb))) == Colorless(a)
  {
    hide Nearest, Theme.Select, Interpret;
    var s := EncodeColor(Ansi16, p, rgb);
    Theme.SelectSelects(Theme.Ansi(Nearest(rgb, 16)), p[0] == 48, a);
    assert s[..0] == [];
  }

  lemma ColorOnly(depth: Depth, p: seq<nat>, rgb: Rgb, a: Attributes)
    requires (|p| == 3 || |p| == 5) && (p[0] == 38 || p[0] == 48) && Selection(p) == |p|
    ensures Colorless(InterpretAll(a, EncodeColor(depth, p, rgb))) == Colorless(a)
  {
    hide Nearest, IndexedRgb, Theme.Select;
    var s := EncodeColor(depth, p, rgb);
    if depth.Ansi16? {
      AnsiColorOnly(p, rgb, a);
    } else if |s| == 1 {
      var q := s[0];
      assert Taken(q) == |q| && (q[0] == 38 || q[0] == 48);
      InterpretFirst(a, q);
      assert s == [q];
    }
  }

  lemma OnlyColorAssigned(b: Attributes, e: Effect)
    requires SameButColor(e, NOTHING)
    ensures Colorless(Assign(b, e)) == Colorless(b)
  {
  }

  lemma SameAssigned(a: Attributes, b: Attributes, e: Effect)
    requires Colorless(a) == Colorless(b)
    ensures Colorless(Assign(a, e)) == Colorless(Assign(b, e))
  {
  }

  lemma ColorCodeIsColor(code: nat)
    requires IsColor(code)
    ensures SameButColor(CodeEffect(code), NOTHING)
  {
  }

  lemma CodeWithoutColor(depth: Depth, a: Attributes, b: Attributes, p: seq<nat>)
    requires |p| > 0 && Selection(p) == 1 && Colorless(a) == Colorless(b)
    ensures Colorless(InterpretAll(a, EncodeFirst(depth, p))) == Colorless(Assign(b, FirstEffect(p)))
  {
    hide Interpret, InterpretAll, Assign, Colorless, CodeEffect, IsColor;
    InterpretFirst(a, [p[0]]);
    NothingSent(a);
    assert FirstEffect([p[0]]) == FirstEffect(p) == CodeEffect(p[0]);
    SameAssigned(a, b, CodeEffect(p[0]));
    if IsColor(p[0]) {
      ColorCodeIsColor(p[0]);
      OnlyColorAssigned(b, CodeEffect(p[0]));
    }
  }

  lemma ColorWithoutColor(depth: Depth, a: Attributes, b: Attributes, p: seq<nat>)
    requires |p| > 0 && Selection(p) > 1 && Colorless(a) == Colorless(b)
    ensures Colorless(InterpretAll(a, EncodeFirst(depth, p))) == Colorless(Assign(b, FirstEffect(p)))
  {
    hide Nearest, IndexedRgb, EncodeColor, Interpret, InterpretAll, CodeEffect, Assign, Colorless, Taken;
    var rgb := if Selection(p) == 5 then (p[2], p[3], p[4]) else IndexedRgb(p[2]);
    ColorOnly(depth, p[..Selection(p)], rgb, a);
    OnlyColorAssigned(b, FirstEffect(p));
  }

  lemma FirstWithoutColor(depth: Depth, a: Attributes, b: Attributes, p: seq<nat>)
    requires |p| > 0 && Selection(p) > 0 && Colorless(a) == Colorless(b)
    ensures Selection(p) == Taken(p)
    ensures Colorless(InterpretAll(a, EncodeFirst(depth, p))) == Colorless(Assign(b, FirstEffect(p)))
  {
    hide InterpretAll, EncodeFirst, FirstEffect, Assign, Colorless;
    if Selection(p) > 1 {
      ColorWithoutColor(depth, a, b, p);
    } else {
      CodeWithoutColor(depth, a, b, p);
    }
  }

  lemma NothingSent(a: Attributes)
    ensures InterpretAll(a, []) == a
  {
  }

  lemma {:induction false} ControlAgrees(o: Settings, a: Attributes, b: Attributes, p: seq<nat>)
    requires Encode(o.depth, p).ok && Kept(o, a) == Kept(o, b)
    ensures Kept(o, InterpretAll(a, Encode(o.depth, p).sequences)) == Kept(o, Interpret(b, p))
    decreases |p|
  {
    hide EncodeFirst, Assign, FirstEffect, Selection, InterpretAll, Taken;
    if |p| == 0 {
      NothingSent(a);
    } else {
      var first, rest := EncodeFirst(o.depth, p), p[Selection(p)..];
      var a', b' := InterpretAll(a, first), Assign(b, FirstEffect(p));
      if o.depth == TrueColor { FirstAtTrueColor(a, p); } else { FirstWithoutColor(o.depth, a, b, p); }
      ControlAgrees(o, a', b', rest);
      InterpretAppend(a, first, Encode(o.depth, rest).sequences);
    }
  }

  lemma TokenAgrees(o: Settings, encoded: seq<Token>, tokens: seq<Token>, t: Token)
    requires !o.plain && Understood(o, t) && Agree(o, Screen(encoded), Screen(tokens))
    ensures Agree(o, Screen(encoded + EncodeToken(o, t)), Screen(tokens + [t]))
  {
    hide Screen, InterpretAll, Interpret, Encode, Params, PrintParams, Controls;
    ScreenMore(tokens, t);
    match t
    case Text(b) =>
      ScreenMore(encoded, t);
      var s := Screen(encoded);
      assert CellsKept(o, s.cells + [Clip.Cell(b, s.attributes)])
          == CellsKept(o, s.cells) + [Clip.Cell(b, Kept(o, s.attributes))];
      var s' := Screen(tokens);
      assert CellsKept(o, s'.cells + [Clip.Cell(b, s'.attributes)])
          == CellsKept(o, s'.cells) + [Clip.Cell(b, Kept(o, s'.attributes))];
    case Control(body) =>
      EncodedAreSequences(o, body);
      ScreenControls(encoded, EncodeBody(o, body).sequences);
      ControlAgrees(o, Screen(encoded).attributes, Screen(tokens).attributes, Params(body).value);
  }

  lemma {:induction false} EncodeAgrees(o: Settings, tokens: seq<Token>)
    requires !o.plain && AllUnderstood(o, tokens)
    ensures Agree(o, Screen(EncodeAll(o, tokens)), Screen(tokens))
  {
    hide Screen, EncodeToken, Understood;
    if |tokens| > 0 {
      var front, t := tokens[..|tokens| - 1], tokens[|tokens| - 1];
      EncodeAgrees(o, front);
      TokenAgrees(o, EncodeAll(o, front), front, t);
      assert front + [t] == tokens;
    }
  }

  /**
   Every byte keeps the attributes it had: all of them at true-colour depth,
   all but the colours at the other depths.
   */
  lemma ScreenIsKept(o: Settings, bytes: string)
    requires !o.plain && Transcode(o, bytes).Some?
    ensures Tokens(bytes).Some? && Tokens(Transcode(o, bytes).value).Some?
    ensures Agree(o, Screen(Tokens(Transcode(o, bytes).value).value), Screen(Tokens(bytes).value))
  {
    hide Screen, Tokens, Transcode, AllUnderstood, EncodeAll;
    TokensOfOutput(o, bytes);
    EncodeAgrees(o, Tokens(bytes).value);
  }

  // ---------- Colours of a smaller palette ----------

  /** The colour that a selection stands for in the xterm palette. */
  function Shade(p: seq<nat>): Option<Rgb> {
    if |p| == 5 && p[1] == 2 then Some((p[2], p[3], p[4]))
    else if |p| == 3 && p[1] == 5 && p[2] < 256 then Some(IndexedRgb(p[2]))
    else if |p| == 1 && (30 <= p[0] <= 37 || 40 <= p[0] <= 47) then Some(IndexedRgb(p[0] % 10))
    else if |p| == 1 && (90 <= p[0] <= 97 || 100 <= p[0] <= 107) then Some(IndexedRgb(8 + p[0] % 10))
    else None
  }

  /** Whichever encoding a palette colour gets, it selects that colour. */
  lemma SelectHasShade(index: nat, background: bool)
    requires index < 256
    ensures Shade(Theme.Select(Theme.Ansi(index), background)) == Some(IndexedRgb(index))
  {
    hide IndexedRgb;
    if 8 <= index < 16 { assert index % 8 == index - 8; }
  }

  /** How many colours the palette of a depth has. */
  function PaletteSize(depth: Depth): nat { if depth == Ansi16 then 16 else 256 }

  /** A colour becomes one that no other of the palette is closer to, for the same layer. */
  lemma ColorIsNearest(depth: Depth, p: seq<nat>)
    requires |p| > 0 && Selection(p) > 1 && (depth == Ansi16 || depth == Ansi256)
    ensures Shade(p[..Selection(p)]).Some?
    ensures var s := EncodeFirst(depth, p);
            && |s| == 1 && Shade(s[0]).Some?
            && IsBackground(s[0][0]) == (p[0] == 48) && IsForeground(s[0][0]) == (p[0] == 38)
            && forall j :: 0 <= j < PaletteSize(depth) ==>
                 Distance(Shade(p[..Selection(p)]).value, Shade(s[0]).value)
                   <= Distance(Shade(p[..Selection(p)]).value, IndexedRgb(j))
  {
    hide IndexedRgb;
    var q := p[..Selection(p)];
    var rgb := Shade(q).value;
    if depth == Ansi16 {
      SelectHasShade(Nearest(rgb, 16), p[0] == 48);
    } else if Selection(p) == 3 {
      SameColor(rgb);
    }
  }

  lemma SameColor(rgb: Rgb)
    ensures Distance(rgb, rgb) == 0
  {
  }

  // ---------- No colour at depth none ----------

  lemma {:induction false} NoColorSelected(a: Attributes, p: seq<nat>)
    requires Colorless(a) == a
    ensures Colorless(InterpretAll(a, Encode(NoColor, p).sequences)) == InterpretAll(a, Encode(NoColor, p).sequences)
    decreases |p|
  {
    hide EncodeFirst, Selection, InterpretAll;
    if |p| > 0 && Selection(p) > 0 {
      var first, rest := EncodeFirst(NoColor, p), p[Selection(p)..];
      NoColorFirst(a, p);
      NoColorSelected(InterpretAll(a, first), rest);
      InterpretAppend(a, first, Encode(NoColor, rest).sequences);
    } else {
      NothingSent(a);
    }
  }

  lemma CodeUncolored(a: Attributes, code: nat)
    requires Colorless(a) == a && !IsColor(code)
    ensures Colorless(Assign(a, CodeEffect(code))) == Assign(a, CodeEffect(code))
  {
  }

  lemma NoColorFirst(a: Attributes, p: seq<nat>)
    requires |p| > 0 && Selection(p) > 0 && Colorless(a) == a
    ensures Colorless(InterpretAll(a, EncodeFirst(NoColor, p))) == InterpretAll(a, EncodeFirst(NoColor, p))
  {
    hide Interpret, InterpretAll, Colorless, Assign, CodeEffect, IndexedRgb, IsColor;
    NothingSent(a);
    if Selection(p) == 1 && !IsColor(p[0]) {
      InterpretFirst(a, [p[0]]);
      assert FirstEffect([p[0]]) == CodeEffect(p[0]);
      CodeUncolored(a, p[0]);
    }
  }

  /** Every byte shows in the terminal's own colours. */
  ghost predicate Uncolored(s: Clip.Screen) {
    && Colorless(s.attributes) == s.attributes
    && forall k :: 0 <= k < |s.cells| ==> Colorless(s.cells[k].attributes) == s.cells[k].attributes
  }

  lemma {:induction false} EncodedUncolored(o: Settings, tokens: seq<Token>)
    requires o.plain || o.depth == NoColor
    ensures Uncolored(Screen(EncodeAll(o, tokens)))
  {
    hide EncodeBody, Interpret, InterpretAll, Encode, Params, PrintParams, Controls, Colorless;
    if |tokens| > 0 {
      var front, t := tokens[..|tokens| - 1], tokens[|tokens| - 1];
      EncodedUncolored(o, front);
      var before := EncodeAll(o, front);
      match t {
        case Text(b) =>
          ScreenMore(before, t);
        case Control(body) =>
          EncodedAreSequences(o, body);
          ScreenControls(before, EncodeBody(o, body).sequences);
          BodyUncolored(o, body, Screen(before).attributes);
      }
    } else {
      Plain();
    }
  }

  lemma Plain()
    ensures Uncolored(Screen([]))
  {
  }

  lemma BodyUncolored(o: Settings, body: string, a: Attributes)
    requires (o.plain || o.depth == NoColor) && Colorless(a) == a
    ensures Colorless(InterpretAll(a, EncodeBody(o, body).sequences)) == InterpretAll(a, EncodeBody(o, body).sequences)
  {
    hide Encode, Params, Colorless, InterpretAll;
    NothingSent(a);
    if !o.plain && Params(body).Some? { NoColorSelected(a, Params(body).value); }
  }

  /** With no colours, or in plain output, nothing is ever coloured. */
  lemma NoColorIsShown(o: Settings, bytes: string)
    requires (o.plain || o.depth == NoColor) && Transcode(o, bytes).Some?
    ensures Tokens(Transcode(o, bytes).value).Some? && Uncolored(Screen(Tokens(Transcode(o, bytes).value).value))
  {
    hide Screen, Tokens, Transcode, AllUnderstood, EncodeAll, Uncolored;
    TokensOfOutput(o, bytes);
    EncodedUncolored(o, Tokens(bytes).value);
  }

  // ---------- Encoding twice ----------

  /** A sequence that is written again as it is. */
  predicate Settled(depth: Depth, p: seq<nat>) { Encode(depth, p) == Encoded([p], true) }

  lemma OneSelection(depth: Depth, p: seq<nat>)
    requires |p| > 0 && Selection(p) == |p| && EncodeFirst(depth, p) == [p]
    ensures Settled(depth, p)
  {
    hide EncodeFirst, Selection;
    assert p[Selection(p)..] == [];
    assert Encode(depth, []) == Encoded([], true);
    assert [p] + [] == [p];
  }

  lemma FirstSettled(depth: Depth, p: seq<nat>)
    requires |p| > 0 && Selection(p) > 0
    ensures forall k :: 0 <= k < |EncodeFirst(depth, p)| ==> Settled(depth, EncodeFirst(depth, p)[k])
  {
    hide Nearest, IndexedRgb, Settled, Encode;
    var s := EncodeFirst(depth, p);
    forall k | 0 <= k < |s| ensures Settled(depth, s[k]) {
      var q := s[k];
      assert |s| == 1 && Selection(q) == |q| && q[..|q|] == q;
      assert |q| == 1 ==> q == [q[0]];
      OneSelection(depth, q);
    }
  }

  lemma {:induction false} EncodedSettled(depth: Depth, p: seq<nat>)
    ensures forall k :: 0 <= k < |Encode(depth, p).sequences| ==> Settled(depth, Encode(depth, p).sequences[k])
    decreases |p|
  {
    hide EncodeFirst, Settled, Selection;
    if |p| > 0 && Selection(p) > 0 {
      FirstSettled(depth, p);
      EncodedSettled(depth, p[Selection(p)..]);
    }
  }

  /** A token that is written again as it is. */
  predicate TokenSettled(o: Settings, t: Token) { Understood(o, t) && EncodeToken(o, t) == [t] }

  lemma ControlSettled(o: Settings, p: seq<nat>)
    requires !o.plain && Writable(p) && Settled(o.depth, p)
    ensures TokenSettled(o, Control(PrintParams(p)))
  {
    ParamsOfPrinted(p);
    hide Params, PrintParams, Encode;
    assert Controls([p]) == [Control(PrintParams(p))];
  }

  lemma EncodedTokenSettled(o: Settings, t: Token)
    ensures forall k :: 0 <= k < |EncodeToken(o, t)| ==> TokenSettled(o, EncodeToken(o, t)[k])
  {
    hide Params, PrintParams, Encode, Settled, TokenSettled;
    if t.Control? && !o.plain && Params(t.body).Some? {
      var s := EncodeBody(o, t.body).sequences;
      EncodedAreSequences(o, t.body);
      EncodedSettled(o.depth, Params(t.body).value);
      forall k | 0 <= k < |s| ensures TokenSettled(o, Control(PrintParams(s[k]))) { ControlSettled(o, s[k]); }
    } else if t.Text? {
      TextSettled(o, t);
    }
  }

  lemma TextSettled(o: Settings, t: Token)
    requires t.Text?
    ensures TokenSettled(o, t)
  {
  }

  lemma {:induction false} AllSettled(o: Settings, tokens: seq<Token>)
    requires forall k :: 0 <= k < |tokens| ==> TokenSettled(o, tokens[k])
    ensures AllUnderstood(o, tokens) && EncodeAll(o, tokens) == tokens
  {
    if |tokens| > 0 {
      AllSettled(o, tokens[..|tokens| - 1]);
      hide EncodeToken, Understood;
      assert TokenSettled(o, tokens[|tokens| - 1]);
    }
  }

  lemma {:induction false} EncodedAllSettled(o: Settings, tokens: seq<Token>)
    ensures forall k :: 0 <= k < |EncodeAll(o, tokens)| ==> TokenSettled(o, EncodeAll(o, tokens)[k])
  {
    hide EncodeToken, TokenSettled;
    if |tokens| > 0 {
      EncodedAllSettled(o, tokens[..|tokens| - 1]);
      EncodedTokenSettled(o, tokens[|tokens| - 1]);
    }
  }

  /** Re-encoding what was re-encoded changes nothing, and is always accepted. */
  lemma TranscodingIsIdempotent(o: Settings, bytes: string)
    requires Transcode(o, bytes).Some?
    ensures Transcode(o, Transcode(o, bytes).value) == Transcode(o, bytes)
  {
    hide Tokens, AllUnderstood, EncodeAll, PrintAll, Transcode;
    var once := Transcode(o, bytes).value;
    TokensOfOutput(o, bytes);
    TranscodeIsTokenwise(o, bytes);
    var encoded := EncodeAll(o, Tokens(bytes).value);
    EncodedAllSettled(o, Tokens(bytes).value);
    AllSettled(o, encoded);
    TranscodeIsTokenwise(o, once);
  }
}
