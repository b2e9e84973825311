/**
 Widths: every piece on a page is a whole word with the sum of the widths of its
 graphemes, or one grapheme of a word with its own.
 */
module WrapMeasure {
  import opened Options
  import opened WrapLayout
  import opened WrapLaws

  ghost predicate OneOf(segment: Segmenter, word: seq<Cell>, g: Glyph)
    requires Segments(segment)
  {
    g in Glyphs(segment, word)
  }

  /** A piece as wide as its graphemes. */
  ghost predicate Measured(segment: Segmenter, t: Token)
    requires Segments(segment)
  {
    t.Piece? ==>
      || t.width == TotalWidth(Glyphs(segment, t.cells))
      || (t.single && exists word :: OneOf(segment, word, Glyph(t.cells, t.width)))
  }

  ghost predicate AllMeasured(s: State)
    requires Segments(s.segment)
  {
    forall i :: 0 <= i < |s.out| ==> Measured(s.segment, s.out[i])
  }

  lemma PlacedIsMeasured(s: State, w: nat)
    requires Segments(s.segment) && AllMeasured(s)
    ensures Placed(s, w).segment == s.segment && AllMeasured(Placed(s, w))
  {
  }

  lemma SliceIsMeasured(s: State, word: seq<Cell>, g: Glyph)
    requires Segments(s.segment) && AllMeasured(s) && OneOf(s.segment, word, g)
    ensures Slice(s, g).segment == s.segment && AllMeasured(Slice(s, g))
  {
    hide OneOf;
    assert Measured(s.segment, Piece(g.cells, g.width, true));
  }

  lemma {:induction false} SlicesAreMeasured(s: State, word: seq<Cell>, glyphs: seq<Glyph>)
    requires Segments(s.segment) && AllMeasured(s) && forall g :: g in glyphs ==> OneOf(s.segment, word, g)
    ensures Slices(s, glyphs).segment == s.segment && AllMeasured(Slices(s, glyphs))
  {
    hide AllMeasured, OneOf, Slice, Segments;
    if |glyphs| > 0 {
      assert forall g :: g in glyphs[..|glyphs| - 1] ==> g in glyphs;
      SlicesAreMeasured(s, word, glyphs[..|glyphs| - 1]);
      SliceIsMeasured(Slices(s, glyphs[..|glyphs| - 1]), word, glyphs[|glyphs| - 1]);
    }
  }

  lemma FlushIsMeasured(s: State)
    requires Segments(s.segment) && AllMeasured(s)
    ensures FlushWord(s).segment == s.segment && AllMeasured(FlushWord(s))
  {
    if |s.word| > 0 {
      var w, glyphs := WordWidth(s), Glyphs(s.segment, s.word);
      var t := Placed(s, w);
      PlacedIsMeasured(s, w);
      PlacedKeepsWord(s, w);
      hide Placed, Slices, Glyphs, TotalWidth;
      assert forall g :: g in glyphs ==> OneOf(s.segment, s.word, g);
      SlicesAreMeasured(t, s.word, glyphs);
    }
  }

  lemma {:induction false} TextIsMeasured(s: State, text: string, style: Style)
    requires Segments(s.segment) && AllMeasured(s)
    ensures AllMeasured(Text(s, text, style))
  {
    hide FlushWord, Measured;
    if |text| > 0 {
      TextIsMeasured(s, text[..|text| - 1], style);
      FlushIsMeasured(Text(s, text[..|text| - 1], style));
    }
  }

  lemma OpIsMeasured(s: State, op: Op)
    requires Segments(s.segment) && AllMeasured(s)
    ensures AllMeasured(Do(s, op))
  {
    hide FlushWord, Text;
    FlushIsMeasured(s);
    if op.DoText? { TextIsMeasured(s, op.text, op.style); }
  }

  /** On every run, every piece on the page is as wide as it is. */
  lemma {:induction false} RunIsMeasured(width: Option<nat>, segment: Segmenter, ops: seq<Op>)
    requires Segments(segment)
    ensures AllMeasured(DoAll(Fresh(width, segment), ops))
  {
    hide AllMeasured, Do, Segments;
    if |ops| > 0 {
      RunIsMeasured(width, segment, ops[..|ops| - 1]);
      OpIsMeasured(DoAll(Fresh(width, segment), ops[..|ops| - 1]), ops[|ops| - 1]);
    } else {
      NothingIsMeasured(width, segment);
    }
  }

  lemma NothingIsMeasured(width: Option<nat>, segment: Segmenter)
    requires Segments(segment)
    ensures AllMeasured(Fresh(width, segment))
  {
  }
}
