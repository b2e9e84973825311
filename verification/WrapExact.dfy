/**
 Exactly which runs of the wrapper keep every line tight: those in which no
 word is placed behind text of no width that an indent has moved, so that the
 indent, which the check for room did not count, pushes it over the edge.
 */
module WrapExact {
  import opened Options
  import opened WrapLayout
  import opened WrapLaws

  /** Between operations, wherever `set_indent` was called. */
  ghost predicate Ready(s: State) { Tracks(s) && (s.hasText ==> EndsInText(s.out)) }

  /** The first thing a flush puts on the line: an atomic word, or one grapheme. */
  function Lead(s: State): nat
    requires Segments(s.segment) && |s.word| > 0
  {
    if s.atomic then WordWidth(s)
    else
      SomeGlyphs(s);
      Glyphs(s.segment, s.word)[0].width
  }

  /** The word fits behind text of no width at column 0, but not once the indent is written between them. */
  predicate Crosses(s: State)
    requires Segments(s.segment)
  {
    && |s.word| > 0 && s.hasText && s.column == 0 && s.indent > 0
    && !Over(s, Separator(s) + WordWidth(s)) && Over(s, s.indent + Separator(s) + Lead(s))
  }

  // ---------- One flush ----------

  lemma {:induction false} SlicesFirst(s: State, g: Glyph, rest: seq<Glyph>)
    ensures Slices(s, [g] + rest) == Slices(Slice(s, g), rest)
    decreases |rest|
  {
    hide Slice;
    if |rest| == 0 {
      assert [g] + rest == [g] && [g][..0] == [];
    } else {
      assert ([g] + rest)[..|rest|] == [g] + rest[..|rest| - 1];
      SlicesFirst(s, g, rest[..|rest| - 1]);
    }
  }

  lemma {:induction false} SlicesGrow(s: State, glyphs: seq<Glyph>)
    ensures s.out <= Slices(s, glyphs).out
  {
    if |glyphs| > 0 { SlicesGrow(s, glyphs[..|glyphs| - 1]); }
  }

  lemma {:induction false} TightBefore(width: nat, out: seq<Token>, more: seq<Token>)
    requires out <= more && Tight(width, more)
    ensures Tight(width, out)
    decreases |more|
  {
    if |out| < |more| {
      assert out <= more[..|more| - 1];
      TightBefore(width, out, more[..|more| - 1]);
    } else {
      assert out == more;
    }
  }

  /** The line after an indent has been written behind text of no width. */
  lemma Moved(s: State)
    requires Tracks(s) && s.hasText && s.column == 0 && s.indent > 0
    ensures var t := Spaced(Indented(s));
            && Indent(t) && t.hasText && !t.pendingSpace && !EndsInText(t.out) && t.out != []
            && t.column == s.indent + Separator(s) && t.width == s.width && s.out <= t.out
            && t.word == s.word && t.atomic == s.atomic && t.segment == s.segment
  {
    hide Tight, LineWidth, LineHasText, EndsInText;
    var width := s.width.value;
    More(width, s.out, Pad(s.indent));
    More(width, Indented(s).out, Space);
  }

  lemma WholeWordLeads(glyphs: seq<Glyph>)
    requires |glyphs| > 0
    ensures glyphs[0].width <= TotalWidth(glyphs)
  {
  }

  lemma SomeGlyphs(s: State)
    requires Segments(s.segment) && |s.word| > 0
    ensures |Glyphs(s.segment, s.word)| > 0
  {
    JoinedNone();
  }

  /** The slices behind a moved line stay tight if the first of them fits. */
  lemma MovedSlices(t: State, glyphs: seq<Glyph>)
    requires Indent(t) && t.hasText && |glyphs| > 0 && !Over(t, glyphs[0].width)
    ensures AtRest(Slices(t, glyphs))
  {
    hide Tight, LineWidth, LineHasText, EndsInText;
    var g, rest := glyphs[0], glyphs[1..];
    assert glyphs == [g] + rest;
    SlicesFirst(t, g, rest);
    AddTracks(t, g.cells, g.width, true);
    hide Tracks;
    SlicesTrack(Slice(t, g), rest);
  }

  lemma MovedFlush(s: State)
    requires Ready(s) && |s.word| > 0 && s.hasText && s.column == 0 && s.indent > 0
    requires !Over(s, Separator(s) + WordWidth(s)) && !Crosses(s)
    ensures Ready(FlushWord(s))
  {
    Moved(s);
    SomeGlyphs(s);
    var t, w, glyphs := Spaced(Indented(s)), WordWidth(s), Glyphs(s.segment, s.word);
    assert Placed(s, w) == t;
    hide Tight, LineWidth, LineHasText, EndsInText, Placed, Glyphs, Slices, Add, Indented, Spaced;
    if !t.atomic && Over(t, w) {
      MovedSlices(t, glyphs);
    } else {
      AddTracks(t, t.word, w, t.atomic);
    }
  }

  lemma FlushReady(s: State)
    requires Ready(s) && !Crosses(s)
    ensures Ready(FlushWord(s))
  {
    hide Tight, LineWidth, LineHasText, EndsInText, Glyphs, Lead;
    if |s.word| > 0 {
      if Grounded(s) {
        FlushTracks(s);
      } else if !Over(s, Separator(s) + WordWidth(s)) {
        MovedFlush(s);
      } else {
        NewLineFlush(s);
      }
    }
  }

  /** A word that does not fit goes to a new line, and there nothing stands in its way. */
  lemma NewLineFlush(s: State)
    requires Ready(s) && |s.word| > 0 && s.hasText && Over(s, Separator(s) + WordWidth(s))
    ensures Ready(FlushWord(s))
  {
    var n := Newline(s, false);
    NewlineTracks(s, false);
    FlushTracks(n);
    hide Tight, LineWidth, LineHasText, EndsInText, Glyphs, Slices;
    assert Placed(s, WordWidth(s)) == Placed(n, WordWidth(n));
    assert FlushWord(s) == FlushWord(n);
  }

  /** Slices whose first has no room break the line behind a separator or an indent. */
  lemma SlicesSpoil(t: State, glyphs: seq<Glyph>)
    requires t.width.Some? && t.hasText && !EndsInText(t.out) && |glyphs| > 0 && Over(t, glyphs[0].width)
    ensures !Tight(t.width.value, Slices(t, glyphs).out)
  {
    hide Tight, LineWidth, LineHasText, EndsInText;
    var width, g, rest := t.width.value, glyphs[0], glyphs[1..];
    assert glyphs == [g] + rest;
    SlicesFirst(t, g, rest);
    More(width, t.out, Break(false));
    SlicesGrow(Slice(t, g), rest);
    assert t.out + [Break(false)] <= Slice(t, g).out;
    if Tight(width, Slices(t, glyphs).out) { TightBefore(width, t.out + [Break(false)], Slices(t, glyphs).out); }
  }

  lemma WholeWordSpoils(t: State, cells: seq<Cell>, w: nat, single: bool)
    requires Tracks(t) && t.hasText && Over(t, w)
    ensures !Tight(t.width.value, Add(t, cells, w, single).out)
  {
    hide Tight, LineWidth, LineHasText;
    More(t.width.value, t.out, Piece(cells, w, single));
  }

  /** A word that crosses makes a line that is not tight. */
  lemma FlushCrosses(s: State)
    requires Ready(s) && Crosses(s)
    ensures !Tight(s.width.value, FlushWord(s).out)
  {
    Moved(s);
    SomeGlyphs(s);
    var t, w, glyphs := Spaced(Indented(s)), WordWidth(s), Glyphs(s.segment, s.word);
    assert Placed(s, w) == t;
    WholeWordLeads(glyphs);
    hide Tight, LineWidth, LineHasText, EndsInText, Placed, Glyphs, Indented, Spaced, TotalWidth, Slices, Add;
    if t.atomic { WholeWordSpoils(t, t.word, w, true); } else { SlicesSpoil(t, glyphs); }
  }

  // ---------- Operations and runs ----------

  /** Some word that the operation flushes crosses. */
  ghost predicate TextCrosses(s: State, text: string, style: Style)
    requires Segments(s.segment)
  {
    exists i :: 0 <= i < |text| && CrossesAt(s, text, style, i)
  }

  predicate CrossesAt(s: State, text: string, style: Style, i: nat)
    requires Segments(s.segment) && i < |text|
  {
    IsBreak(text[i]) && Crosses(Text(s, text[..i], style))
  }

  ghost predicate OpCrosses(s: State, op: Op)
    requires Segments(s.segment)
  {
    match op
    case DoText(text, style) => TextCrosses(s, text, style)
    case DoSoftBreak | DoFinish | DoHardBreak => Crosses(s)
    case _ => false
  }

  lemma FlushGrows(s: State)
    requires Segments(s.segment)
    ensures s.out <= FlushWord(s).out
  {
    if |s.word| > 0 {
      PlacedBreaks(s, WordWidth(s));
      SlicesGrow(Placed(s, WordWidth(s)), Glyphs(s.segment, s.word));
      hide Placed, Glyphs, Slices;
    }
  }

  lemma {:induction false} TextGrows(s: State, text: string, style: Style, i: nat)
    requires Segments(s.segment) && i <= |text|
    ensures Text(s, text[..i], style).out <= Text(s, text, style).out
    decreases |text|
  {
    hide FlushWord;
    if i < |text| {
      assert text[..|text| - 1][..i] == text[..i];
      TextGrows(s, text[..|text| - 1], style, i);
      FlushGrows(Text(s, text[..|text| - 1], style));
    } else {
      assert text[..i] == text;
    }
  }

  lemma OpGrows(s: State, op: Op)
    requires Segments(s.segment)
    ensures s.out <= Do(s, op).out
  {
    hide FlushWord, Text;
    FlushGrows(s);
    FlushKeeps(s);
    match op
    case DoText(text, style) =>
      TextGrows(s, text, style, 0);
      assert Text(s, text[..0], style) == s by { NoText(s, text[..0], style); }
    case _ =>
  }

  lemma NoText(s: State, text: string, style: Style)
    requires Segments(s.segment) && |text| == 0
    ensures Text(s, text, style) == s
  {
  }

  lemma {:induction false} TextReady(s: State, text: string, style: Style)
    requires Ready(s) && !TextCrosses(s, text, style)
    ensures Ready(Text(s, text, style))
  {
    hide Tight, LineWidth, LineHasText, EndsInText, FlushWord, Crosses;
    if |text| > 0 {
      var front := text[..|text| - 1];
      forall i | 0 <= i < |front| ensures !CrossesAt(s, front, style, i) {
        assert text[..i] == front[..i] && !CrossesAt(s, text, style, i);
      }
      TextReady(s, front, style);
      assert !CrossesAt(s, text, style, |text| - 1);
      if IsBreak(text[|text| - 1]) { FlushReady(Text(s, front, style)); }
    }
  }

  /** A text crosses before its last character or in it. */
  lemma TextCrossesLast(s: State, text: string, style: Style)
    requires Segments(s.segment) && |text| > 0 && TextCrosses(s, text, style)
    ensures TextCrosses(s, text[..|text| - 1], style) || CrossesAt(s, text, style, |text| - 1)
  {
    hide Crosses;
    var k :| 0 <= k < |text| && CrossesAt(s, text, style, k);
    if k < |text| - 1 {
      assert text[..|text| - 1][..k] == text[..k];
      assert CrossesAt(s, text[..|text| - 1], style, k);
    }
  }

  /** The first word that crosses spoils the text. */
  lemma {:induction false} TextSpoils(s: State, text: string, style: Style)
    requires Ready(s) && TextCrosses(s, text, style)
    ensures !Tight(s.width.value, Text(s, text, style).out)
  {
    hide Tight, LineWidth, LineHasText, EndsInText, FlushWord, Crosses;
    var front := text[..|text| - 1];
    TextCrossesLast(s, text, style);
    if TextCrosses(s, front, style) {
      TextSpoils(s, front, style);
      TextGrows(s, text, style, |text| - 1);
      if Tight(s.width.value, Text(s, text, style).out) {
        TightBefore(s.width.value, Text(s, front, style).out, Text(s, text, style).out);
      }
    } else {
      TextReady(s, front, style);
      FlushCrosses(Text(s, front, style));
    }
  }

  lemma OpReady(s: State, op: Op)
    requires Ready(s) && !OpCrosses(s, op)
    ensures Ready(Do(s, op))
  {
    hide Tight, LineWidth, LineHasText, EndsInText, FlushWord, Text, Crosses;
    FlushKeeps(s);
    match op
    case DoText(text, style) => TextReady(s, text, style);
    case DoSoftBreak => FlushReady(s);
    case DoFinish => FlushReady(s);
    case DoHardBreak =>
      FlushReady(s);
      HardBreakReady(Finish(s));
    case DoReset(column, indent) => More(s.width.value, s.out, Start(column));
    case _ =>
  }

  lemma HardBreakReady(s: State)
    requires Ready(s)
    ensures Ready(Newline(s, true))
  {
    hide Tight, LineWidth, LineHasText, EndsInText;
    More(s.width.value, s.out, Break(true));
  }

  lemma OpSpoils(s: State, op: Op)
    requires Ready(s) && OpCrosses(s, op)
    ensures !Tight(s.width.value, Do(s, op).out)
  {
    hide LineWidth, LineHasText, EndsInText, FlushWord, Text, Crosses, Tight;
    match op
    case DoText(text, style) => TextSpoils(s, text, style);
    case DoSoftBreak => FlushCrosses(s);
    case DoFinish => FlushCrosses(s);
    case DoHardBreak =>
      FlushCrosses(s);
      FlushKeeps(s);
      More(s.width.value, Finish(s).out, Break(true));
  }

  ghost predicate CrossesIn(s: State, ops: seq<Op>, k: nat)
    requires Segments(s.segment) && k < |ops|
  {
    OpCrosses(DoAll(s, ops[..k]), ops[k])
  }

  /** Some operation of the run flushes a word that crosses. */
  ghost predicate RunCrosses(s: State, ops: seq<Op>)
    requires Segments(s.segment)
  {
    exists k :: 0 <= k < |ops| && CrossesIn(s, ops, k)
  }

  lemma CrossesEarlier(s: State, ops: seq<Op>, k: nat)
    requires Segments(s.segment) && k < |ops| - 1
    ensures CrossesIn(s, ops[..|ops| - 1], k) == CrossesIn(s, ops, k)
  {
    assert ops[..|ops| - 1][..k] == ops[..k];
  }

  /** A run crosses before its last operation or in it. */
  lemma CrossesLast(s: State, ops: seq<Op>)
    requires Segments(s.segment) && |ops| > 0
    ensures RunCrosses(s, ops) <==> RunCrosses(s, ops[..|ops| - 1]) || CrossesIn(s, ops, |ops| - 1)
  {
    hide CrossesIn;
    var front := ops[..|ops| - 1];
    forall k | 0 <= k < |front| ensures CrossesIn(s, front, k) == CrossesIn(s, ops, k) { CrossesEarlier(s, ops, k); }
    if RunCrosses(s, front) {
      var k :| 0 <= k < |front| && CrossesIn(s, front, k);
      assert CrossesIn(s, ops, k);
    }
  }

  lemma {:induction false} RunIsTight(s: State, ops: seq<Op>)
    requires Ready(s)
    ensures !RunCrosses(s, ops) ==> Ready(DoAll(s, ops))
    ensures RunCrosses(s, ops) ==> !Tight(s.width.value, DoAll(s, ops).out)
  {
    assert Segments(s.segment) && s.width.Some?;
    hide Tight, Ready, OpCrosses, Do, Crosses, Segments, RunCrosses;
    if |ops| > 0 {
      var front, op := ops[..|ops| - 1], ops[|ops| - 1];
      var t := DoAll(s, front);
      RunIsTight(s, front);
      CrossesLast(s, ops);
      if RunCrosses(s, front) {
        OpGrows(t, op);
        if Tight(s.width.value, DoAll(s, ops).out) { TightBefore(s.width.value, t.out, DoAll(s, ops).out); }
      } else if OpCrosses(t, op) {
        OpSpoils(t, op);
      } else {
        OpReady(t, op);
      }
    } else {
      NothingCrosses(s, ops);
    }
  }

  lemma NothingCrosses(s: State, ops: seq<Op>)
    requires Segments(s.segment) && |ops| == 0
    ensures !RunCrosses(s, ops)
  {
  }

  /**
   The pages of a new writer are tight exactly when no word crosses: when
   `set_indent` never moves text of no width at column 0 in front of a word
   that has room without the indent and none with it.
   */
  lemma PagesAreTightExactlyWhen(width: nat, segment: Segmenter, ops: seq<Op>)
    requires Segments(segment)
    ensures Tight(if width == 0 then 1 else width, DoAll(New(width, segment), ops).out)
       <==> !RunCrosses(New(width, segment), ops)
  {
    RunIsTight(New(width, segment), ops);
  }
}
