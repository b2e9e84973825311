/**
 Indents: every line with text begins with one, or with a prefix of the
 caller's, and each indent written is the one in force.
 */
module WrapIndent {
  import opened Options
  import opened WrapLayout
  import opened WrapLaws
  import opened WrapExact

  // ---------- Lines begin with an indent ----------

  /** The last line has begun: with an indent, or with a prefix of at least one column. */
  predicate Begun(out: seq<Token>) {
    |out| > 0 &&
    match out[|out| - 1]
    case Pad(_) => true
    case Start(columns) => columns > 0
    case Break(_) => false
    case _ => Begun(out[..|out| - 1])
  }

  /** No text stands on a line that has not begun. */
  predicate AllBegun(out: seq<Token>) {
    |out| == 0 || (AllBegun(out[..|out| - 1]) && (out[|out| - 1].Piece? ==> Begun(out[..|out| - 1])))
  }

  lemma BegunMore(out: seq<Token>, t: Token)
    ensures Begun(out + [t]) == (t.Pad? || (t.Start? && t.columns > 0) || ((t.Piece? || t.Space?) && Begun(out)))
    ensures AllBegun(out + [t]) <==> AllBegun(out) && (t.Piece? ==> Begun(out))
  {
    assert (out + [t])[..|out|] == out;
  }

  /** Only a line that has begun takes columns. */
  ghost predicate Headed(s: State) { AllBegun(s.out) && (s.column > 0 ==> Begun(s.out)) }

  lemma PlacedIsHeaded(s: State, w: nat)
    requires Headed(s)
    ensures Headed(Placed(s, w)) && Begun(Placed(s, w).out)
  {
    hide Begun, AllBegun;
    var line := if s.hasText && Over(s, Separator(s) + w) then Newline(s, false) else s;
    BegunMore(s.out, Break(false));
    BegunMore(line.out, Pad(line.indent));
    BegunMore(Indented(line).out, Space);
  }

  lemma SliceIsHeaded(s: State, g: Glyph)
    requires Headed(s) && Begun(s.out)
    ensures Headed(Slice(s, g)) && Begun(Slice(s, g).out)
  {
    hide Begun, AllBegun;
    var n := Newline(s, false);
    BegunMore(s.out, Break(false));
    BegunMore(n.out, Pad(n.indent));
    BegunMore(Indented(n).out, Piece(g.cells, g.width, true));
    BegunMore(s.out, Piece(g.cells, g.width, true));
  }

  lemma {:induction false} SlicesAreHeaded(s: State, glyphs: seq<Glyph>)
    requires Headed(s) && Begun(s.out)
    ensures Headed(Slices(s, glyphs)) && Begun(Slices(s, glyphs).out)
  {
    hide Headed, Begun, Slice;
    if |glyphs| > 0 {
      SlicesAreHeaded(s, glyphs[..|glyphs| - 1]);
      SliceIsHeaded(Slices(s, glyphs[..|glyphs| - 1]), glyphs[|glyphs| - 1]);
    }
  }

  lemma FlushIsHeaded(s: State)
    requires Segments(s.segment) && Headed(s)
    ensures Headed(FlushWord(s))
  {
    hide Begun, AllBegun, Placed, Slices, Glyphs;
    if |s.word| > 0 {
      var w, glyphs := WordWidth(s), Glyphs(s.segment, s.word);
      var t := Placed(s, w);
      PlacedIsHeaded(s, w);
      PlacedKeepsWord(s, w);
      SlicesAreHeaded(t, glyphs);
      BegunMore(t.out, Piece(t.word, w, t.atomic));
    }
  }

  lemma {:induction false} TextIsHeaded(s: State, text: string, style: Style)
    requires Segments(s.segment) && Headed(s)
    ensures Headed(Text(s, text, style))
  {
    hide FlushWord, Begun, AllBegun;
    if |text| > 0 {
      TextIsHeaded(s, text[..|text| - 1], style);
      FlushIsHeaded(Text(s, text[..|text| - 1], style));
    }
  }

  lemma OpIsHeaded(s: State, op: Op)
    requires Segments(s.segment) && Headed(s)
    ensures Headed(Do(s, op))
  {
    hide FlushWord, Text, Begun, AllBegun;
    FlushIsHeaded(s);
    match op
    case DoText(text, style) => TextIsHeaded(s, text, style);
    case DoHardBreak => BegunMore(Finish(s).out, Break(true));
    case DoReset(column, indent) => BegunMore(s.out, Start(column));
    case _ =>
  }

  /** On every run, each line with text begins with an indent or a prefix. */
  lemma {:induction false} RunIsHeaded(width: Option<nat>, segment: Segmenter, ops: seq<Op>)
    requires Segments(segment)
    ensures Headed(DoAll(Fresh(width, segment), ops))
  {
    hide Headed, Do;
    if |ops| > 0 {
      RunIsHeaded(width, segment, ops[..|ops| - 1]);
      OpIsHeaded(DoAll(Fresh(width, segment), ops[..|ops| - 1]), ops[|ops| - 1]);
    } else {
      assert Headed(Fresh(width, segment)) by { FreshIsHeaded(width, segment); }
    }
  }

  lemma FreshIsHeaded(width: Option<nat>, segment: Segmenter)
    ensures Headed(Fresh(width, segment))
  {
  }

  // ---------- Which indent ----------

  /** The indent asked for last, at most one column less than the page. */
  function IndentAsked(width: Option<nat>, ops: seq<Op>): nat
    requires width.Some? ==> width.value > 0
  {
    if |ops| == 0 then 0
    else
      match ops[|ops| - 1]
      case DoReset(_, indent) => if width.Some? && indent >= width.value then width.value - 1 else indent
      case DoSetIndent(indent) => if width.Some? && indent >= width.value then width.value - 1 else indent
      case _ => IndentAsked(width, ops[..|ops| - 1])
  }

  lemma OpIndent(s: State, op: Op)
    requires Segments(s.segment) && (s.width.Some? ==> s.width.value > 0)
    ensures Do(s, op).indent
         == match op
            case DoReset(_, indent) => if s.width.Some? && indent >= s.width.value then s.width.value - 1 else indent
            case DoSetIndent(indent) => if s.width.Some? && indent >= s.width.value then s.width.value - 1 else indent
            case _ => s.indent
  {
    hide FlushWord, Text;
    FlushKeeps(s);
  }

  lemma {:induction false} IndentIsAsked(width: Option<nat>, segment: Segmenter, ops: seq<Op>)
    requires Segments(segment)
    ensures var s := DoAll(Fresh(width, segment), ops);
            (s.width.Some? ==> s.width.value > 0) && s.indent == IndentAsked(s.width, ops)
  {
    hide Do;
    if |ops| > 0 {
      IndentIsAsked(width, segment, ops[..|ops| - 1]);
      OpIndent(DoAll(Fresh(width, segment), ops[..|ops| - 1]), ops[|ops| - 1]);
    }
  }

  /** The indents of a page from `from` on are `n`. */
  ghost predicate PadsFrom(out: seq<Token>, from: nat, n: nat) {
    forall i :: from <= i < |out| && out[i].Pad? ==> out[i].n == n
  }

  lemma PlacedPads(s: State, w: nat, from: nat)
    requires PadsFrom(s.out, from, s.indent)
    ensures PadsFrom(Placed(s, w).out, from, s.indent) && Placed(s, w).indent == s.indent
  {
  }

  lemma {:induction false} SlicesPad(s: State, glyphs: seq<Glyph>, from: nat)
    requires PadsFrom(s.out, from, s.indent)
    ensures PadsFrom(Slices(s, glyphs).out, from, s.indent)
  {
    if |glyphs| > 0 {
      SlicesPad(s, glyphs[..|glyphs| - 1], from);
      SlicesKeep(s, glyphs[..|glyphs| - 1]);
      hide Slices;
    }
  }

  lemma FlushPads(s: State, from: nat)
    requires Segments(s.segment) && PadsFrom(s.out, from, s.indent)
    ensures PadsFrom(FlushWord(s).out, from, s.indent)
  {
    hide Placed, Slices, Glyphs;
    if |s.word| > 0 {
      PlacedPads(s, WordWidth(s), from);
      SlicesPad(Placed(s, WordWidth(s)), Glyphs(s.segment, s.word), from);
    }
  }

  lemma {:induction false} TextPads(s: State, text: string, style: Style, from: nat)
    requires Segments(s.segment) && PadsFrom(s.out, from, s.indent)
    ensures PadsFrom(Text(s, text, style).out, from, s.indent)
  {
    hide FlushWord, PadsFrom;
    if |text| > 0 {
      TextPads(s, text[..|text| - 1], style, from);
      FlushPads(Text(s, text[..|text| - 1], style), from);
    }
  }

  lemma OpPads(s: State, op: Op)
    requires Segments(s.segment)
    ensures PadsFrom(Do(s, op).out, |s.out|, s.indent)
  {
    hide FlushWord, Text;
    FlushPads(s, |s.out|);
    if op.DoText? { TextPads(s, op.text, op.style, |s.out|); }
  }

  /** Operation `k` of the run writes token `i` of the page. */
  ghost predicate Writes(s: State, ops: seq<Op>, k: nat, i: nat)
    requires Segments(s.segment) && k < |ops|
  {
    |DoAll(s, ops[..k]).out| <= i < |DoAll(s, ops[..k + 1]).out|
  }

  /** Token `i` was written by operation `k`, with the indent that was asked for by then. */
  ghost predicate InForce(s: State, ops: seq<Op>, k: nat, i: nat, n: nat)
    requires Segments(s.segment) && k < |ops| && (s.width.Some? ==> s.width.value > 0)
  {
    Writes(s, ops, k, i) && n == IndentAsked(s.width, ops[..k])
  }

  lemma InForceEarlier(s: State, ops: seq<Op>, k: nat, i: nat, n: nat)
    requires Segments(s.segment) && k < |ops| - 1 && (s.width.Some? ==> s.width.value > 0)
    requires InForce(s, ops[..|ops| - 1], k, i, n)
    ensures InForce(s, ops, k, i, n)
  {
    assert ops[..|ops| - 1][..k] == ops[..k] && ops[..|ops| - 1][..k + 1] == ops[..k + 1];
  }

  /**
   On every run, each indent on the page is the one that was in force when it
   was written: the one asked for last, at most one column less than the page.
   */
  lemma {:induction false} IndentsAreInForce(width: Option<nat>, segment: Segmenter, ops: seq<Op>, i: nat)
    requires Segments(segment)
    requires var page := DoAll(Fresh(width, segment), ops).out; i < |page| && page[i].Pad?
    ensures var s := Fresh(width, segment);
            && (s.width.Some? ==> s.width.value > 0)
            && exists k :: 0 <= k < |ops| && InForce(s, ops, k, i, DoAll(s, ops).out[i].n)
    decreases |ops|
  {
    hide Do, InForce, IndentAsked;
    var s, front := Fresh(width, segment), ops[..|ops| - 1];
    var t := DoAll(s, front);
    OpGrows(t, ops[|ops| - 1]);
    if i < |t.out| {
      IndentsAreInForce(width, segment, front, i);
      var k :| 0 <= k < |front| && InForce(s, front, k, i, t.out[i].n);
      InForceEarlier(s, ops, k, i, t.out[i].n);
    } else {
      LastIsInForce(width, segment, ops, i);
    }
  }

  lemma LastIsInForce(width: Option<nat>, segment: Segmenter, ops: seq<Op>, i: nat)
    requires Segments(segment) && |ops| > 0
    requires var s := Fresh(width, segment);
             var t, page := DoAll(s, ops[..|ops| - 1]).out, DoAll(s, ops).out;
             |t| <= i < |page| && page[i].Pad?
    ensures var s := Fresh(width, segment);
            && (s.width.Some? ==> s.width.value > 0) && InForce(s, ops, |ops| - 1, i, DoAll(s, ops).out[i].n)
  {
    hide Do, IndentAsked;
    var s, front := Fresh(width, segment), ops[..|ops| - 1];
    OpPads(DoAll(s, front), ops[|ops| - 1]);
    IndentIsAsked(width, segment, front);
    assert ops[..|ops|] == ops;
  }
}
