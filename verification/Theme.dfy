/** Colours of a theme and the control sequences that select them. */
module Theme {
  import opened Options
  import opened Sgr

  /** An xterm palette index or an explicit colour; every component is a byte. */
  datatype Color = Ansi(index: nat) | Rgb(r: nat, g: nat, b: nat)

  predicate Bytes(c: Color) {
    match c
    case Ansi(index) => index < 256
    case Rgb(r, g, b) => r < 256 && g < 256 && b < 256
  }

  /** `Color::write`: the first sixteen palette colours have sequences of their own. */
  function Select(c: Color, background: bool): seq<nat> {
    match c
    case Ansi(index) =>
      if index >= 16 then [if background then 48 else 38, 5, index]
      else [(if background then 40 else 30) + index % 8 + (if index >= 8 then 60 else 0)]
    case Rgb(r, g, b) => [if background then 48 else 38, 2, r, g, b]
  }

  lemma EffectOfSelect(c: Color, background: bool)
    ensures var p := Select(c, background);
            FirstEffect(p) == if background then NOTHING.(bg := Some(Selected(p))) else NOTHING.(fg := Some(Selected(p)))
  {
    var p := Select(c, background);
    assert p[..|p|] == p && (|p| == 1 ==> p == [p[0]]);
  }

  lemma ColorAssigned(a: Attributes, p: seq<nat>)
    ensures Assign(a, NOTHING.(bg := Some(Selected(p)))) == a.(bg := Selected(p))
    ensures Assign(a, NOTHING.(fg := Some(Selected(p)))) == a.(fg := Selected(p))
  {
  }

  /** The sequence selects one colour and leaves every other attribute alone. */
  lemma SelectSelects(c: Color, background: bool, a: Attributes)
    ensures Emitted(Select(c, background))
    ensures Interpret(a, Select(c, background))
         == if background then a.(bg := Selected(Select(c, background))) else a.(fg := Selected(Select(c, background)))
  {
    hide Assign, CodeEffect;
    var p := Select(c, background);
    assert Taken(p) == |p| && p[..|p|] == p && p[|p|..] == [];
    assert Interpret(a, p) == Assign(a, FirstEffect(p));
    EffectOfSelect(c, background);
    ColorAssigned(a, p);
  }
}
