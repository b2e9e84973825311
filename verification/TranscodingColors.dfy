/**
 What a terminal of 16 or 256 colours shows: the default colours where they were
 shown, and otherwise, layer by layer, the closest colours it has.
 */
module TranscodingColors {
  import opened Options
  import opened Sgr
  import opened ControlText
  import opened Transcoding
  import opened TranscodingLaws
  import Theme
  import Clip

  /** A selection that a terminal of this depth understands. */
  predicate InPalette(depth: Depth, p: seq<nat>) { |p| == 1 || (depth == Ansi256 && |p| == 3) }

  /** No colour of the palette is closer to `rgb` than `shown` is. */
  ghost predicate Closest(depth: Depth, rgb: Rgb, shown: Rgb) {
    forall j :: 0 <= j < PaletteSize(depth) ==> Distance(rgb, shown) <= Distance(rgb, IndexedRgb(j))
  }

  /** A colour that was to be shown, and the one that is. */
  ghost predicate SeenAs(depth: Depth, was: Color, shown: Color) {
    match was
    case DefaultColor => shown.DefaultColor?
    case Selected(p) =>
      && shown.Selected? && InPalette(depth, shown.params)
      && Shade(p).Some? && Shade(shown.params).Some? && Closest(depth, Shade(p).value, Shade(shown.params).value)
      && (InPalette(depth, p) ==> shown.params == p)
  }

  ghost predicate SeenAlike(depth: Depth, was: Attributes, shown: Attributes) {
    && SeenAs(depth, was.fg, shown.fg) && SeenAs(depth, was.bg, shown.bg) && Colorless(was) == Colorless(shown)
  }

  /** Byte by byte, the screen shows the text in these colours. */
  ghost predicate ScreensAlike(depth: Depth, was: Clip.Screen, shown: Clip.Screen) {
    && |was.cells| == |shown.cells| && SeenAlike(depth, was.attributes, shown.attributes)
    && forall k :: 0 <= k < |was.cells| ==>
         shown.cells[k].b == was.cells[k].b && SeenAlike(depth, was.cells[k].attributes, shown.cells[k].attributes)
  }

  // ---------- One selection ----------

  lemma BasicIsSeen(depth: Depth, code: nat)
    requires 30 <= code <= 37 || 40 <= code <= 47 || 90 <= code <= 97 || 100 <= code <= 107
    ensures SeenAs(depth, Selected([code]), Selected([code]))
  {
    hide IndexedRgb, Distance;
    var p := [code];
    SameColor(Shade(p).value);
  }

  /** A code that stands alone is sent as it is, and shows as it did. */
  lemma CodeIsSeen(depth: Depth, was: Attributes, shown: Attributes, code: nat)
    requires SeenAlike(depth, was, shown) && code != 38 && code != 48
    ensures SeenAlike(depth, Assign(was, CodeEffect(code)), Assign(shown, CodeEffect(code)))
  {
    SameAssigned(was, shown, CodeEffect(code));
    if (IsForeground(code) && code != 39) || (IsBackground(code) && code != 49) { BasicIsSeen(depth, code); }
    hide InPalette, Closest, Shade;
  }

  lemma CodeAlike(depth: Depth, was: Attributes, shown: Attributes, p: seq<nat>)
    requires depth == Ansi16 || depth == Ansi256
    requires |p| > 0 && Selection(p) == 1 && SeenAlike(depth, was, shown)
    ensures SeenAlike(depth, Assign(was, FirstEffect(p)), InterpretAll(shown, EncodeFirst(depth, p)))
  {
    hide Interpret, InterpretAll, Assign, CodeEffect, IsColor, SeenAlike;
    InterpretFirst(shown, [p[0]]);
    assert FirstEffect([p[0]]) == FirstEffect(p) == CodeEffect(p[0]);
    CodeIsSeen(depth, was, shown, p[0]);
  }

  /** What one encoded selection does: it selects one colour for the layer. */
  lemma EncodedSelects(depth: Depth, p: seq<nat>, a: Attributes)
    requires depth == Ansi16 || depth == Ansi256
    requires |p| > 0 && Selection(p) > 1
    ensures var s := EncodeFirst(depth, p);
            && |s| == 1 && InPalette(depth, s[0])
            && (depth == Ansi256 && Selection(p) == 3 ==> s[0] == p[..3])
            && InterpretAll(a, s) == if p[0] == 48 then a.(bg := Selected(s[0])) else a.(fg := Selected(s[0]))
  {
    hide IndexedRgb, Nearest, Theme.Select, Interpret;
    var s := EncodeFirst(depth, p);
    assert s == [s[0]] && s[..0] == [];
    if depth == Ansi16 {
      var rgb := if Selection(p) == 5 then (p[2], p[3], p[4]) else IndexedRgb(p[2]);
      Theme.SelectSelects(Theme.Ansi(Nearest(rgb, 16)), p[0] == 48, a);
      BasicHasOne(Nearest(rgb, 16), p[0] == 48);
    } else {
      var q := s[0];
      assert Taken(q) == |q| && q[..|q|] == q;
      InterpretFirst(a, q);
      LayerAssigned(a, q);
    }
  }

  lemma BasicHasOne(index: nat, background: bool)
    requires index < 16
    ensures |Theme.Select(Theme.Ansi(index), background)| == 1
  {
  }

  lemma LayerAssigned(a: Attributes, q: seq<nat>)
    requires |q| > 0 && Taken(q) == |q| && (q[0] == 38 || q[0] == 48)
    ensures Assign(a, FirstEffect(q)) == if q[0] == 48 then a.(bg := Selected(q)) else a.(fg := Selected(q))
  {
    assert q[..|q|] == q;
  }

  lemma SelectionIsSeen(depth: Depth, p: seq<nat>)
    requires depth == Ansi16 || depth == Ansi256
    requires |p| > 0 && Selection(p) > 1
    ensures |EncodeFirst(depth, p)| == 1
    ensures SeenAs(depth, Selected(p[..Selection(p)]), Selected(EncodeFirst(depth, p)[0]))
  {
    ColorIsNearest(depth, p);
    EncodedSelects(depth, p, PLAIN);
    hide EncodeFirst, IndexedRgb, Distance, Shade, InterpretAll;
  }

  lemma SelectionAlike(depth: Depth, was: Attributes, shown: Attributes, p: seq<nat>)
    requires depth == Ansi16 || depth == Ansi256
    requires |p| > 0 && Selection(p) > 1 && SeenAlike(depth, was, shown)
    ensures SeenAlike(depth, Assign(was, FirstEffect(p)), InterpretAll(shown, EncodeFirst(depth, p)))
  {
    SelectionIsSeen(depth, p);
    EncodedSelects(depth, p, shown);
    assert Selection(p) == Taken(p);
    hide EncodeFirst, SeenAs, InterpretAll;
  }

  lemma {:induction false} ControlAlike(depth: Depth, was: Attributes, shown: Attributes, p: seq<nat>)
    requires depth == Ansi16 || depth == Ansi256
    requires Encode(depth, p).ok && SeenAlike(depth, was, shown)
    ensures SeenAlike(depth, Interpret(was, p), InterpretAll(shown, Encode(depth, p).sequences))
    decreases |p|
  {
    hide EncodeFirst, Assign, FirstEffect, Selection, InterpretAll, Taken, SeenAlike;
    if |p| == 0 {
      NothingSent(shown);
    } else {
      var first, rest := EncodeFirst(depth, p), p[Selection(p)..];
      if Selection(p) > 1 { SelectionAlike(depth, was, shown, p); } else { CodeAlike(depth, was, shown, p); }
      TakenIsSelection(p);
      ControlAlike(depth, Assign(was, FirstEffect(p)), InterpretAll(shown, first), rest);
      InterpretAppend(shown, first, Encode(depth, rest).sequences);
    }
  }

  lemma TakenIsSelection(p: seq<nat>)
    requires |p| > 0 && Selection(p) > 0
    ensures Selection(p) == Taken(p)
  {
  }

  // ---------- Whole texts ----------

  lemma TokenAlike(o: Settings, encoded: seq<Token>, tokens: seq<Token>, t: Token)
    requires !o.plain && (o.depth == Ansi16 || o.depth == Ansi256) && Understood(o, t)
    requires ScreensAlike(o.depth, Screen(tokens), Screen(encoded))
    ensures ScreensAlike(o.depth, Screen(tokens + [t]), Screen(encoded + EncodeToken(o, t)))
  {
    hide Screen, InterpretAll, Interpret, Encode, Params, PrintParams, Controls, SeenAlike;
    ScreenMore(tokens, t);
    match t
    case Text(b) => ScreenMore(encoded, t);
    case Control(body) =>
      EncodedAreSequences(o, body);
      ScreenControls(encoded, EncodeBody(o, body).sequences);
      ControlAlike(o.depth, Screen(tokens).attributes, Screen(encoded).attributes, Params(body).value);
  }

  lemma {:induction false} EncodeAlike(o: Settings, tokens: seq<Token>)
    requires !o.plain && (o.depth == Ansi16 || o.depth == Ansi256) && AllUnderstood(o, tokens)
    ensures ScreensAlike(o.depth, Screen(tokens), Screen(EncodeAll(o, tokens)))
  {
    hide Screen, EncodeToken, Understood, ScreensAlike;
    if |tokens| > 0 {
      var front, t := tokens[..|tokens| - 1], tokens[|tokens| - 1];
      EncodeAlike(o, front);
      TokenAlike(o, EncodeAll(o, front), front, t);
      assert front + [t] == tokens;
    } else {
      NothingAlike(o.depth);
    }
  }

  lemma NothingAlike(depth: Depth)
    ensures ScreensAlike(depth, Screen([]), Screen([]))
  {
  }

  /**
   At 16 and 256 colours, every byte that showed in a default colour still does;
   every byte that showed in a selected colour shows in a colour of the palette
   that no other is closer to, however it was selected, on the same layer; and a
   selection that the terminal understands is left as it is.
   */
  lemma ColorsAreClosest(o: Settings, bytes: string)
    requires !o.plain && (o.depth == Ansi16 || o.depth == Ansi256) && Transcode(o, bytes).Some?
    ensures Tokens(bytes).Some? && Tokens(Transcode(o, bytes).value).Some?
    ensures ScreensAlike(o.depth, Screen(Tokens(bytes).value), Screen(Tokens(Transcode(o, bytes).value).value))
  {
    hide Screen, Tokens, Transcode, AllUnderstood, EncodeAll, ScreensAlike;
    TokensOfOutput(o, bytes);
    EncodeAlike(o, Tokens(bytes).value);
  }

  lemma SquareIsAsLarge(n: int)
    ensures Square(n) >= n && Square(n) >= -n
  {
    if n > 0 { assert n * n >= n * 1; } else if n < 0 { assert (-n) * (-n) >= (-n) * 1; }
  }

  lemma DistanceIsZero(a: Rgb, b: Rgb)
    requires Distance(a, b) == 0
    ensures a == b
  {
    hide Square;
    SquareIsAsLarge(a.0 - b.0);
    SquareIsAsLarge(a.1 - b.1);
    SquareIsAsLarge(a.2 - b.2);
  }

  /** A colour that the palette has shows in its own shade. */
  lemma OwnShadeIsKept(depth: Depth, was: Color, shown: Color, j: nat)
    requires SeenAs(depth, was, shown) && was.Selected? && j < PaletteSize(depth)
    requires Shade(was.params) == Some(IndexedRgb(j))
    ensures shown.Selected? && Shade(shown.params) == Some(IndexedRgb(j))
  {
    hide IndexedRgb, Shade, Distance;
    SameColor(IndexedRgb(j));
    DistanceIsZero(IndexedRgb(j), Shade(shown.params).value);
  }
}
