/**
 Select Graphic Rendition as section 8.3.117 of ECMA-48 defines it, for the
 codes the renderer emits, and `SgrState`, which remembers a source state so
 that it can be restored after a highlight.
 */
module Sgr {
  import opened Options

  /** A selected colour, kept as the parameters that selected it. */
  datatype Color = DefaultColor | Selected(params: seq<nat>)

  datatype Attributes = Attributes(bold: bool, faint: bool, italic: bool, underline: bool,
                                   inverse: bool, crossed: bool, fg: Color, bg: Color)

  const PLAIN := Attributes(false, false, false, false, false, false, DefaultColor, DefaultColor)

  /** What a control assigns; an absent attribute keeps its value. */
  datatype Effect = Effect(bold: Option<bool>, faint: Option<bool>, italic: Option<bool>, underline: Option<bool>,
                           inverse: Option<bool>, crossed: Option<bool>, fg: Option<Color>, bg: Option<Color>)

  const NOTHING := Effect(None, None, None, None, None, None, None, None)
  const RESET := Effect(Some(false), Some(false), Some(false), Some(false), Some(false), Some(false),
                        Some(DefaultColor), Some(DefaultColor))

  function Or<T>(a: Option<T>, b: T): T { if a.Some? then a.value else b }

  function Assign(a: Attributes, e: Effect): Attributes {
    Attributes(Or(e.bold, a.bold), Or(e.faint, a.faint), Or(e.italic, a.italic), Or(e.underline, a.underline),
               Or(e.inverse, a.inverse), Or(e.crossed, a.crossed), Or(e.fg, a.fg), Or(e.bg, a.bg))
  }

  // ---------- Parameters ----------

  predicate IsForeground(code: nat) { 30 <= code <= 39 || 90 <= code <= 97 }

  predicate IsBackground(code: nat) { 40 <= code <= 49 || 100 <= code <= 107 }

  /** A code that stands alone. */
  function CodeEffect(code: nat): Effect {
    match code
    case 0 => RESET
    case 1 => NOTHING.(bold := Some(true))
    case 2 => NOTHING.(faint := Some(true))
    case 3 => NOTHING.(italic := Some(true))
    case 4 => NOTHING.(underline := Some(true))
    case 7 => NOTHING.(inverse := Some(true))
    case 9 => NOTHING.(crossed := Some(true))
    case 22 => NOTHING.(bold := Some(false), faint := Some(false))
    case 23 => NOTHING.(italic := Some(false))
    case 24 => NOTHING.(underline := Some(false))
    case 27 => NOTHING.(inverse := Some(false))
    case 29 => NOTHING.(crossed := Some(false))
    case 39 => NOTHING.(fg := Some(DefaultColor))
    case 49 => NOTHING.(bg := Some(DefaultColor))
    case _ =>
      if IsForeground(code) then NOTHING.(fg := Some(Selected([code])))
      else if IsBackground(code) then NOTHING.(bg := Some(Selected([code])))
      else NOTHING
  }

  predicate Known(code: nat) {
    code in {0, 1, 2, 3, 4, 7, 9, 22, 23, 24, 27, 29}
    || (IsForeground(code) && code != 38) || (IsBackground(code) && code != 48)
  }

  /** How many parameters the first selection takes: an extended colour takes three or five. */
  function Taken(p: seq<nat>): (n: nat)
    requires |p| > 0
    ensures 0 < n <= |p|
  {
    if p[0] != 38 && p[0] != 48 then 1
    else if |p| == 1 then 1
    else
      var channels := if p[1] == 2 then 3 else 1;
      if |p| < 2 + channels then |p| else 2 + channels
  }

  /** The codes the renderer emits: no truncated or foreign extended colour. */
  predicate Emitted(p: seq<nat>)
    decreases |p|
  {
    |p| == 0 ||
    ((if p[0] == 38 || p[0] == 48 then
        (Taken(p) == 3 && p[1] == 5) || (Taken(p) == 5 && p[1] == 2)
      else Known(p[0]))
     && Emitted(p[Taken(p)..]))
  }

  function FirstEffect(p: seq<nat>): Effect
    requires |p| > 0
  {
    if p[0] == 38 then NOTHING.(fg := Some(Selected(p[..Taken(p)])))
    else if p[0] == 48 then NOTHING.(bg := Some(Selected(p[..Taken(p)])))
    else CodeEffect(p[0])
  }

  /** What the terminal does with one control sequence. */
  function Interpret(a: Attributes, p: seq<nat>): Attributes
    decreases |p|
  {
    if |p| == 0 then a else Interpret(Assign(a, FirstEffect(p)), p[Taken(p)..])
  }

  function InterpretAll(a: Attributes, sequences: seq<seq<nat>>): Attributes {
    if |sequences| == 0 then a
    else Interpret(InterpretAll(a, sequences[..|sequences| - 1]), sequences[|sequences| - 1])
  }

  lemma {:induction false} InterpretAppend(a: Attributes, s: seq<seq<nat>>, t: seq<seq<nat>>)
    ensures InterpretAll(a, s + t) == InterpretAll(InterpretAll(a, s), t)
    decreases |t|
  {
    if |t| == 0 {
      assert s + t == s;
    } else {
      assert (s + t)[..|s + t| - 1] == s + t[..|t| - 1];
      InterpretAppend(a, s, t[..|t| - 1]);
    }
  }

  // ---------- An overlay wins over whatever it covers ----------

  function Compose(first: Effect, second: Effect): Effect {
    Effect(Pick(second.bold, first.bold), Pick(second.faint, first.faint), Pick(second.italic, first.italic),
           Pick(second.underline, first.underline), Pick(second.inverse, first.inverse),
           Pick(second.crossed, first.crossed), Pick(second.fg, first.fg), Pick(second.bg, first.bg))
  }

  function Pick<T>(a: Option<T>, b: Option<T>): Option<T> { if a.Some? then a else b }

  function EffectOf(p: seq<nat>): Effect
    decreases |p|
  {
    if |p| == 0 then NOTHING else Compose(FirstEffect(p), EffectOf(p[Taken(p)..]))
  }

  function EffectOfAll(sequences: seq<seq<nat>>): Effect {
    if |sequences| == 0 then NOTHING
    else Compose(EffectOfAll(sequences[..|sequences| - 1]), EffectOf(sequences[|sequences| - 1]))
  }

  lemma AssignComposed(a: Attributes, first: Effect, second: Effect)
    ensures Assign(Assign(a, first), second) == Assign(a, Compose(first, second))
  {
  }

  lemma {:induction false} InterpretIsAssign(a: Attributes, p: seq<nat>)
    ensures Interpret(a, p) == Assign(a, EffectOf(p))
    decreases |p|
  {
    if |p| > 0 {
      InterpretIsAssign(Assign(a, FirstEffect(p)), p[Taken(p)..]);
      AssignComposed(a, FirstEffect(p), EffectOf(p[Taken(p)..]));
    }
  }

  lemma {:induction false} InterpretAllIsAssign(a: Attributes, s: seq<seq<nat>>)
    ensures InterpretAll(a, s) == Assign(a, EffectOfAll(s))
  {
    if |s| > 0 {
      InterpretAllIsAssign(a, s[..|s| - 1]);
      InterpretIsAssign(InterpretAll(a, s[..|s| - 1]), s[|s| - 1]);
      AssignComposed(a, EffectOfAll(s[..|s| - 1]), EffectOf(s[|s| - 1]));
    }
  }

  lemma CoverTwice(a: Attributes, overlay: Effect, style: Effect)
    ensures Assign(Assign(Assign(a, overlay), style), overlay) == Assign(Assign(a, style), overlay)
  {
  }

  /** Sending a style under an overlay and the overlay again is the overlay over the new source. */
  lemma OverlayWins(source: Attributes, style: seq<nat>, overlay: seq<seq<nat>>)
    ensures InterpretAll(Interpret(InterpretAll(source, overlay), style), overlay)
         == InterpretAll(Interpret(source, style), overlay)
  {
    hide Assign, Interpret, InterpretAll, EffectOf, EffectOfAll;
    var covered := InterpretAll(source, overlay);
    InterpretAllIsAssign(source, overlay);
    InterpretIsAssign(covered, style);
    InterpretIsAssign(source, style);
    InterpretAllIsAssign(Interpret(covered, style), overlay);
    InterpretAllIsAssign(Interpret(source, style), overlay);
    CoverTwice(source, EffectOfAll(overlay), EffectOf(style));
  }

  // ---------- SgrState ----------

  type Saved = map<nat, seq<nat>>

  /** `SgrState::apply` on the first selection of a sequence. */
  function SaveFirst(m: Saved, p: seq<nat>): Saved
    requires |p| > 0
  {
    match p[0]
    case 0 => map[]
    case 22 => m - {1, 2}
    case 23 => m - {3}
    case 24 => m - {4}
    case 27 => m - {7}
    case 29 => m - {9}
    case _ =>
      var key := if IsForeground(p[0]) then 38 else if IsBackground(p[0]) then 48 else p[0];
      m[key := p[..Taken(p)]]
  }

  function Save(m: Saved, p: seq<nat>): Saved
    decreases |p|
  {
    if |p| == 0 then m else Save(SaveFirst(m, p), p[Taken(p)..])
  }

  /** The saved sequences with keys below `n`, in key order. */
  function SavedBelow(m: Saved, n: nat): seq<seq<nat>> {
    if n == 0 then [] else SavedBelow(m, n - 1) + (if n - 1 in m then [m[n - 1]] else [])
  }

  // Keys are codes, and codes are 16-bit.
  const KEYS: nat := 65536

  /** `SgrState::restore`: a reset and then everything saved. */
  function Restore(m: Saved): seq<seq<nat>> { [[0]] + SavedBelow(m, KEYS) }

  predicate SavedKey(k: nat) { k == 1 || k == 2 || k == 3 || k == 4 || k == 7 || k == 9 || k == 38 || k == 48 }

  ghost predicate Saves(m: Saved) {
    && (forall k :: k in m ==> SavedKey(k))
    && (forall k :: k in m && k < 10 ==> |m[k]| == 1 && m[k][0] == k)
    && (38 in m ==> ColorParams(m[38]) && (m[38][0] == 38 || (IsForeground(m[38][0]) && |m[38]| == 1)))
    && (48 in m ==> ColorParams(m[48]) && (m[48][0] == 48 || (IsBackground(m[48][0]) && |m[48]| == 1)))
  }

  predicate ColorParams(p: seq<nat>) {
    |p| > 0 && Taken(p) == |p|
  }

  predicate IsDefault(p: seq<nat>) { |p| == 1 && (p[0] == 39 || p[0] == 49) }

  function SavedColor(m: Saved, key: nat): Color {
    if key !in m then DefaultColor else ColorOf(m[key])
  }

  /** The attributes a saved state stands for. */
  function Denotes(m: Saved): Attributes {
    Attributes(1 in m, 2 in m, 3 in m, 4 in m, 7 in m, 9 in m, SavedColor(m, 38), SavedColor(m, 48))
  }

  lemma SaveOffFollows(m: Saved, p: seq<nat>)
    requires Saves(m) && |p| > 0 && p[0] in {0, 22, 23, 24, 27, 29}
    ensures Saves(SaveFirst(m, p)) && Denotes(SaveFirst(m, p)) == Assign(Denotes(m), FirstEffect(p))
  {
  }

  lemma SaveOnFollows(m: Saved, p: seq<nat>)
    requires Saves(m) && |p| > 0 && p[0] in {1, 2, 3, 4, 7, 9}
    ensures Saves(SaveFirst(m, p)) && Denotes(SaveFirst(m, p)) == Assign(Denotes(m), FirstEffect(p))
  {
    assert p[..Taken(p)] == [p[0]];
  }

  function ColorOf(p: seq<nat>): Color { if IsDefault(p) then DefaultColor else Selected(p) }

  lemma SaveForeground(m: Saved, q: seq<nat>)
    requires Saves(m) && ColorParams(q) && (q[0] == 38 || (IsForeground(q[0]) && |q| == 1))
    ensures Saves(m[38 := q]) && Denotes(m[38 := q]) == Denotes(m).(fg := ColorOf(q))
  {
  }

  lemma SaveBackground(m: Saved, q: seq<nat>)
    requires Saves(m) && ColorParams(q) && (q[0] == 48 || (IsBackground(q[0]) && |q| == 1))
    ensures Saves(m[48 := q]) && Denotes(m[48 := q]) == Denotes(m).(bg := ColorOf(q))
  {
  }

  /** The parameters of the first colour selection are what the terminal selects. */
  lemma ColorEffect(p: seq<nat>)
    requires |p| > 0 && Emitted(p) && (IsForeground(p[0]) || IsBackground(p[0]))
    ensures var q := p[..Taken(p)];
            && ColorParams(q) && q[0] == p[0] && (p[0] != 38 && p[0] != 48 ==> |q| == 1)
            && FirstEffect(p) == (if IsForeground(p[0]) then NOTHING.(fg := Some(ColorOf(q)))
                                  else NOTHING.(bg := Some(ColorOf(q))))
  {
    var q := p[..Taken(p)];
    assert q[0] == p[0] && Taken(q) == |q|;
    assert p[0] == 38 || p[0] == 48 ==> |q| >= 3;
    assert p[0] != 38 && p[0] != 48 ==> q == [p[0]];
  }

  lemma SaveColorFollows(m: Saved, p: seq<nat>)
    requires Saves(m) && |p| > 0 && Emitted(p) && (IsForeground(p[0]) || IsBackground(p[0]))
    ensures Saves(SaveFirst(m, p)) && Denotes(SaveFirst(m, p)) == Assign(Denotes(m), FirstEffect(p))
  {
    hide Saves, Denotes, FirstEffect, Emitted, Taken;
    ColorEffect(p);
    var q := p[..Taken(p)];
    if IsForeground(p[0]) {
      assert SaveFirst(m, p) == m[38 := q];
      hide SaveFirst;
      SaveForeground(m, q);
    } else {
      assert SaveFirst(m, p) == m[48 := q];
      hide SaveFirst;
      SaveBackground(m, q);
    }
  }

  lemma SaveFirstFollows(m: Saved, p: seq<nat>)
    requires Saves(m) && |p| > 0 && Emitted(p)
    ensures Saves(SaveFirst(m, p)) && Denotes(SaveFirst(m, p)) == Assign(Denotes(m), FirstEffect(p))
  {
    hide Saves, SaveFirst, Denotes, Assign, FirstEffect;
    if IsForeground(p[0]) || IsBackground(p[0]) { SaveColorFollows(m, p); }
    else if p[0] in {1, 2, 3, 4, 7, 9} { SaveOnFollows(m, p); }
    else { SaveOffFollows(m, p); }
  }

  /** The saved state follows the terminal through every sequence the renderer emits. */
  lemma {:induction false} SaveFollows(m: Saved, p: seq<nat>)
    requires Saves(m) && Emitted(p)
    ensures Saves(Save(m, p)) && Denotes(Save(m, p)) == Interpret(Denotes(m), p)
    decreases |p|
  {
    if |p| > 0 {
      SaveFirstFollows(m, p);
      SaveFollows(SaveFirst(m, p), p[Taken(p)..]);
    }
  }

  /** The part of a state that restoring the keys below `n` has rebuilt so far. */
  function DenotesBelow(m: Saved, n: nat): Attributes {
    Attributes(n > 1 && 1 in m, n > 2 && 2 in m, n > 3 && 3 in m, n > 4 && 4 in m, n > 7 && 7 in m, n > 9 && 9 in m,
               if n > 38 then SavedColor(m, 38) else DefaultColor, if n > 48 then SavedColor(m, 48) else DefaultColor)
  }

  lemma InterpretFirst(a: Attributes, p: seq<nat>)
    requires |p| > 0 && Taken(p) == |p|
    ensures Interpret(a, p) == Assign(a, FirstEffect(p)) && InterpretAll(a, [p]) == Interpret(a, p)
  {
    assert p[|p|..] == [] && [p][..0] == [];
  }

  lemma RestoreKey(m: Saved, n: nat)
    requires Saves(m) && n in m
    ensures Interpret(DenotesBelow(m, n), m[n]) == DenotesBelow(m, n + 1)
  {
    var p := m[n];
    assert Taken(p) == |p| && p[..|p|] == p;
    assert |p| == 1 ==> p == [p[0]];
    InterpretFirst(DenotesBelow(m, n), p);
    hide Interpret;
  }

  lemma {:induction false} RestoreBelow(m: Saved, n: nat)
    requires Saves(m)
    ensures InterpretAll(PLAIN, SavedBelow(m, n)) == DenotesBelow(m, n)
  {
    if n > 0 {
      RestoreBelow(m, n - 1);
      if n - 1 in m {
        assert SavedBelow(m, n)[..|SavedBelow(m, n)| - 1] == SavedBelow(m, n - 1);
        RestoreKey(m, n - 1);
      } else {
        assert SavedBelow(m, n) == SavedBelow(m, n - 1);
      }
    }
  }

  /** Restoring brings any terminal state back to exactly what was saved. */
  lemma RestoreRestores(m: Saved, a: Attributes)
    requires Saves(m)
    ensures InterpretAll(a, Restore(m)) == Denotes(m)
  {
    InterpretAppend(a, [[0]], SavedBelow(m, KEYS));
    assert [[0]][..0] == [];
    assert InterpretAll(a, [[0]]) == Interpret(a, [0]);
    assert [0][1..] == [];
    assert Interpret(a, [0]) == PLAIN;
    RestoreBelow(m, KEYS);
    assert DenotesBelow(m, KEYS) == Denotes(m);
  }
}
