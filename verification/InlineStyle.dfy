/**
 `Style::write`: what the terminal shows for a styled stretch of text.
 */
module InlineStyle {
  import opened Options
  import opened Sgr
  import Theme
  import Clip
  import opened WrapLayout

  const DEFAULT := Style(false, false, false, false, false, None, None)

  /** How text of a style looks. */
  function Look(style: Style): Attributes {
    Attributes(style.bold, style.dim, style.italic, false, style.reverse, style.strike,
               if style.color.Some? then Selected(Theme.Select(style.color.value, false)) else DefaultColor,
               DefaultColor)
  }

  function On(enabled: bool, code: nat): seq<seq<nat>> { if enabled then [[code]] else [] }

  /** The sequences before the text. */
  function Prefix(style: Style): seq<seq<nat>> {
    [[0]] + On(style.bold, 1) + On(style.italic, 3) + On(style.strike, 9) + On(style.reverse, 7) + On(style.dim, 2)
    + (if style.color.Some? then [Theme.Select(style.color.value, false)] else [])
  }

  function Write(style: Style, text: string): seq<Clip.Out> {
    if style == DEFAULT then Clip.Bytes(text)
    else Clip.Escapes(Prefix(style)) + Clip.Bytes(text) + Clip.Escapes([[0]])
  }

  lemma OneMore(a: Attributes, s: seq<seq<nat>>, p: seq<nat>)
    ensures InterpretAll(a, s + [p]) == Interpret(InterpretAll(a, s), p)
  {
    assert (s + [p])[..|s|] == s;
  }

  lemma OnTurnsOn(a: Attributes, s: seq<seq<nat>>, enabled: bool, code: nat)
    requires code in {1, 2, 3, 7, 9}
    ensures InterpretAll(a, s + On(enabled, code))
         == if enabled then Assign(InterpretAll(a, s), CodeEffect(code)) else InterpretAll(a, s)
  {
    if enabled {
      OneMore(a, s, [code]);
      assert [code][1..] == [];
      assert Interpret(InterpretAll(a, s), [code]) == Assign(InterpretAll(a, s), CodeEffect(code));
    } else {
      assert s + [] == s;
    }
  }

  lemma Resets(a: Attributes)
    ensures InterpretAll(a, [[0]]) == PLAIN
  {
    assert [[0]][..0] == [];
    assert [0][1..] == [];
    assert Interpret(a, [0]) == PLAIN;
  }

  lemma PrefixSets(style: Style, a: Attributes)
    ensures InterpretAll(a, Prefix(style)) == Look(style)
  {
    hide InterpretAll, Interpret;
    var s0 := [[0]];
    var s1 := s0 + On(style.bold, 1);
    var s2 := s1 + On(style.italic, 3);
    var s3 := s2 + On(style.strike, 9);
    var s4 := s3 + On(style.reverse, 7);
    var s5 := s4 + On(style.dim, 2);
    Resets(a);
    OnTurnsOn(a, s0, style.bold, 1);
    OnTurnsOn(a, s1, style.italic, 3);
    OnTurnsOn(a, s2, style.strike, 9);
    OnTurnsOn(a, s3, style.reverse, 7);
    OnTurnsOn(a, s4, style.dim, 2);
    if style.color.Some? {
      OneMore(a, s5, Theme.Select(style.color.value, false));
      Theme.SelectSelects(style.color.value, false, InterpretAll(a, s5));
    } else {
      assert s5 + [] == s5;
    }
  }

  /** From a plain terminal, styled text shows in its look and leaves the terminal plain. */
  lemma WriteShows(out: seq<Clip.Out>, style: Style, text: string)
    requires Clip.Show(out).attributes == PLAIN
    ensures Clip.Show(out + Write(style, text))
         == Clip.Screen(Clip.Show(out).cells + Clip.Painted(text, Look(style)), PLAIN)
  {
    hide Clip.Show, Prefix, InterpretAll, Clip.Painted, Clip.Bytes, Clip.Escapes;
    if style == DEFAULT {
      Clip.ShowBytes(out, text);
    } else {
      var before := out + Clip.Escapes(Prefix(style));
      Clip.ShowEscapes(out, Prefix(style));
      PrefixSets(style, Clip.Show(out).attributes);
      Clip.ShowBytes(before, text);
      Clip.ShowEscapes(before + Clip.Bytes(text), [[0]]);
      Resets(Look(style));
      assert out + Write(style, text) == before + Clip.Bytes(text) + Clip.Escapes([[0]]);
    }
  }
}
