/**
 What holds of every page the word wrapper lays out: nothing pushed is lost,
 moved or restyled; the way text was cut into calls does not show; no line is
 wider than the page unless it holds a single thing that cannot be split; and
 breaks are forced.
 */
module WrapLaws {
  import opened Options
  import opened Sequences
  import opened WrapLayout

  // ---------- Content ----------

  /** What is left of a page without breaks, indents and separators. */
  function Content(out: seq<Token>): seq<Cell> {
    if |out| == 0 then []
    else Content(out[..|out| - 1]) + (if out[|out| - 1].Piece? then out[|out| - 1].cells else [])
  }

  /** What an operation pushes: text without its white space, code as it is. */
  function Pushed(op: Op): seq<Cell> {
    match op
    case DoText(text, style) => PushedText(text, style)
    case DoCode(text, style) => Styled(text, style)
    case _ => []
  }

  function PushedText(text: string, style: Style): seq<Cell> {
    if |text| == 0 then []
    else PushedText(text[..|text| - 1], style)
         + (if IsBreak(text[|text| - 1]) then [] else [Cell(text[|text| - 1], style)])
  }

  function AllPushed(ops: seq<Op>): seq<Cell> {
    if |ops| == 0 then [] else AllPushed(ops[..|ops| - 1]) + Pushed(ops[|ops| - 1])
  }

  lemma ContentMore(out: seq<Token>, t: Token)
    ensures Content(out + [t]) == Content(out) + (if t.Piece? then t.cells else [])
  {
    assert (out + [t])[..|out|] == out;
  }

  lemma PlacedAddsNothing(s: State, w: nat)
    ensures Content(Placed(s, w).out) == Content(s.out) && Placed(s, w).word == s.word
  {
    hide Content;
    var separator := if s.pendingSpace && s.hasText then 1 else 0;
    var s1 := if s.hasText && Over(s, separator + w) then Newline(s, false) else s;
    ContentMore(s.out, Break(false));
    ContentMore(s1.out, Pad(s1.indent));
    ContentMore(Indented(s1).out, Space);
  }

  lemma {:induction false} JoinedMore(glyphs: seq<Glyph>, g: Glyph)
    ensures Joined(glyphs + [g]) == Joined(glyphs) + g.cells
    ensures TotalWidth(glyphs + [g]) == TotalWidth(glyphs) + g.width
  {
    if |glyphs| > 0 {
      assert (glyphs + [g])[1..] == glyphs[1..] + [g];
      JoinedMore(glyphs[1..], g);
    } else {
      assert (glyphs + [g])[1..] == [];
    }
  }

  lemma SliceAddsGlyph(t: State, g: Glyph)
    ensures Content(Slice(t, g).out) == Content(t.out) + g.cells
  {
    hide Content;
    var n := Newline(t, false);
    ContentMore(t.out, Break(false));
    ContentMore(n.out, Pad(n.indent));
    ContentMore(t.out, Piece(g.cells, g.width, true));
    ContentMore(Indented(n).out, Piece(g.cells, g.width, true));
  }

  lemma {:induction false} SlicesAddWord(s: State, glyphs: seq<Glyph>)
    ensures Content(Slices(s, glyphs).out) == Content(s.out) + Joined(glyphs)
  {
    hide Content, Slice, Joined;
    if |glyphs| > 0 {
      var front, g := glyphs[..|glyphs| - 1], glyphs[|glyphs| - 1];
      SlicesAddWord(s, front);
      SliceAddsGlyph(Slices(s, front), g);
      JoinedMore(front, g);
      assert front + [g] == glyphs;
      assert Content(s.out) + Joined(front) + g.cells == Content(s.out) + (Joined(front) + g.cells);
    } else {
      assert Content(s.out) + [] == Content(s.out);
      assert Joined(glyphs) == [] by { JoinedNone(); }
    }
  }

  lemma JoinedNone()
    ensures Joined([]) == []
  {
  }

  /** A flush moves exactly the pending word onto the page. */
  lemma FlushConserves(s: State)
    requires Segments(s.segment)
    ensures Content(FlushWord(s).out) == Content(s.out) + s.word && FlushWord(s).word == []
  {
    FlushKeeps(s);
    if |s.word| > 0 {
      hide Content, Slices, Placed;
      var t, glyphs := Placed(s, WordWidth(s)), Glyphs(s.segment, s.word);
      PlacedAddsNothing(s, WordWidth(s));
      SlicesAddWord(t, glyphs);
      ContentMore(t.out, Piece(t.word, TotalWidth(glyphs), t.atomic));
    }
  }

  function Everything(s: State): seq<Cell> { Content(s.out) + s.word }

  lemma {:induction false} TextConserves(s: State, text: string, style: Style)
    requires Segments(s.segment)
    ensures Everything(Text(s, text, style)) == Everything(s) + PushedText(text, style)
  {
    hide Content, FlushWord, IsBreak;
    if |text| > 0 {
      var front, c := text[..|text| - 1], text[|text| - 1];
      TextConserves(s, front, style);
      var t := Text(s, front, style);
      if IsBreak(c) {
        FlushConserves(t);
        assert Content(t.out) + t.word + [] == Content(t.out) + t.word;
        assert PushedText(front, style) + [] == PushedText(front, style);
      } else {
        var cell := [Cell(c, style)];
        Associates(Content(t.out), t.word, cell);
        Associates(Everything(s), PushedText(front, style), cell);
      }
    } else {
      assert Everything(s) + [] == Everything(s);
    }
  }

  lemma OpConserves(s: State, op: Op)
    requires Segments(s.segment)
    ensures Everything(Do(s, op)) == Everything(s) + Pushed(op)
  {
    hide Content, FlushWord, Text;
    FlushConserves(s);
    assert Everything(s) + [] == Everything(s);
    match op
    case DoText(text, style) => TextConserves(s, text, style);
    case DoCode(text, style) =>
      assert Content(s.out) + (s.word + Styled(text, style)) == Content(s.out) + s.word + Styled(text, style);
    case DoHardBreak => ContentMore(Finish(s).out, Break(true));
    case DoReset(column, indent) => ContentMore(s.out, Start(column));
    case _ =>
  }

  /** On every run, page plus pending word hold what was pushed, in order, each byte with its style. */
  lemma {:induction false} RunConserves(s: State, ops: seq<Op>)
    requires Segments(s.segment)
    ensures Everything(DoAll(s, ops)) == Everything(s) + AllPushed(ops)
  {
    hide Everything, Pushed, Do, Segments;
    if |ops| > 0 {
      var front, op := ops[..|ops| - 1], ops[|ops| - 1];
      RunConserves(s, front);
      OpConserves(DoAll(s, front), op);
      Associates(Everything(s), AllPushed(front), Pushed(op));
    } else {
      assert Everything(s) + [] == Everything(s);
    }
  }

  /** Cutting one call of `text` in two at any point changes nothing. */
  lemma {:induction false} TextSplits(s: State, a: string, b: string, style: Style)
    requires Segments(s.segment)
    ensures Text(s, a + b, style) == Text(Text(s, a, style), b, style)
    decreases |b|
  {
    hide FlushWord, Segments;
    if |b| == 0 {
      assert a + b == a;
    } else {
      assert (a + b)[..|a + b| - 1] == a + b[..|b| - 1];
      TextSplits(s, a, b[..|b| - 1], style);
    }
  }

  /** Text without white space. */
  predicate Unbroken(word: string) { forall k :: 0 <= k < |word| ==> !IsBreak(word[k]) }

  lemma {:induction false} WordJoins(s: State, word: string, style: Style)
    requires Segments(s.segment) && Unbroken(word)
    ensures Text(s, word, style) == s.(word := s.word + Styled(word, style))
  {
    if |word| > 0 {
      var front := word[..|word| - 1];
      WordJoins(s, front, style);
      assert Styled(word, style) == Styled(front, style) + [Cell(word[|word| - 1], style)];
      assert s.word + Styled(front, style) + [Cell(word[|word| - 1], style)] == s.word + Styled(word, style);
    } else {
      assert s.word + Styled(word, style) == s.word;
    }
  }

  /** Text up to and beyond a stretch without white space. */
  lemma NextPiece(s: State, text: string, style: Style, pos: nat, stop: nat)
    requires Segments(s.segment) && pos <= stop <= |text| && Unbroken(text[pos..stop])
    ensures var t := Text(s, text[..pos], style);
            Text(s, text[..stop], style) == t.(word := t.word + Styled(text[pos..stop], style))
    ensures stop < |text| && IsBreak(text[stop]) ==>
              Text(s, text[..stop + 1], style) == SoftBreak(Text(s, text[..stop], style))
  {
    hide FlushWord;
    assert text[..stop] == text[..pos] + text[pos..stop];
    TextSplits(s, text[..pos], text[pos..stop], style);
    WordJoins(Text(s, text[..pos], style), text[pos..stop], style);
    if stop < |text| { assert text[..stop + 1][..stop] == text[..stop]; }
  }

  // ---------- Lines ----------

  /** Columns taken on the last line of a page. */
  function LineWidth(out: seq<Token>): nat {
    if |out| == 0 then 0 else Advance(LineWidth(out[..|out| - 1]), out[|out| - 1])
  }

  function Advance(w: nat, t: Token): nat {
    match t
    case Piece(_, width, _) => w + width
    case Space => w + 1
    case Pad(n) => w + n
    case Break(_) => 0
    case Start(columns) => columns
  }

  /** The last line holds text, beyond its indent or prefix. */
  predicate LineHasText(out: seq<Token>) {
    |out| > 0 &&
    match out[|out| - 1]
    case Piece(_, _, _) => true
    case Break(_) => false
    case Start(_) => false
    case _ => LineHasText(out[..|out| - 1])
  }

  predicate EndsInText(out: seq<Token>) { |out| > 0 && out[|out| - 1].Piece? }

  /** A token may follow a page: too wide only when alone and unsplittable; no wrap after a separator. */
  predicate MayFollow(width: nat, out: seq<Token>, t: Token) {
    match t
    case Piece(_, w, single) => LineWidth(out) + w <= width || (!LineHasText(out) && single)
    case Break(hard) => hard || EndsInText(out)
    case _ => true
  }

  predicate Tight(width: nat, out: seq<Token>) {
    |out| == 0 || (Tight(width, out[..|out| - 1]) && MayFollow(width, out[..|out| - 1], out[|out| - 1]))
  }

  lemma More(width: nat, out: seq<Token>, t: Token)
    ensures LineWidth(out + [t]) == Advance(LineWidth(out), t)
    ensures LineHasText(out + [t]) == (t.Piece? || ((t.Space? || t.Pad?) && LineHasText(out)))
    ensures EndsInText(out + [t]) == t.Piece?
    ensures Tight(width, out + [t]) <==> Tight(width, out) && MayFollow(width, out, t)
  {
    assert (out + [t])[..|out|] == out;
  }

  /** The writer's column is that of the page. */
  ghost predicate Counted(s: State) { Sound(s) && s.width.Some? && s.column == LineWidth(s.out) }

  /** The writer's own bookkeeping agrees with the page. */
  ghost predicate Tracks(s: State) {
    Counted(s) && s.hasText == LineHasText(s.out) && Tight(s.width.value, s.out)
  }

  /** No text of no width stands on an unindented line of an indented block. */
  predicate Grounded(s: State) { s.hasText && s.column == 0 ==> s.indent == 0 }

  /** Between operations. */
  ghost predicate AtRest(s: State) {
    Tracks(s) && Grounded(s) && (s.hasText ==> EndsInText(s.out))
  }

  /** After an indent, ready for text. */
  ghost predicate Indent(s: State) { Tracks(s) && (s.column == 0 ==> s.indent == 0) }

  lemma NewlineTracks(s: State, hard: bool)
    requires Tracks(s) && (hard || EndsInText(s.out))
    ensures AtRest(Newline(s, hard)) && !Newline(s, hard).hasText
  {
    hide Tight, LineWidth, LineHasText, EndsInText;
    More(s.width.value, s.out, Break(hard));
  }

  lemma IndentedTracks(s: State)
    requires Tracks(s)
    ensures Indent(Indented(s)) && Indented(s).hasText == s.hasText
  {
    hide Tight, LineWidth, LineHasText, EndsInText;
    More(s.width.value, s.out, Pad(s.indent));
  }

  lemma AddTracks(s: State, cells: seq<Cell>, w: nat, single: bool)
    requires Indent(s) && (!Over(s, w) || (!s.hasText && single))
    ensures AtRest(Add(s, cells, w, single)) && Indent(Add(s, cells, w, single))
  {
    hide Tight, LineWidth, LineHasText, EndsInText;
    More(s.width.value, s.out, Piece(cells, w, single));
  }

  lemma SpacedTracks(s: State, w: nat)
    requires Indent(s) && (s.hasText ==> !Over(s, w + if s.pendingSpace then 1 else 0))
    ensures Indent(Spaced(s)) && (s.hasText ==> !Over(Spaced(s), w))
  {
    hide Tight, LineWidth, LineHasText, EndsInText;
    More(s.width.value, s.out, Space);
  }

  lemma PlacedTracks(s: State, w: nat)
    requires AtRest(s)
    ensures Indent(Placed(s, w)) && (Placed(s, w).hasText ==> !Over(Placed(s, w), w))
  {
    hide Tracks, EndsInText;
    if s.hasText && Over(s, w + if s.pendingSpace then 1 else 0) {
      NewlineTracks(s, false);
      IndentedTracks(Newline(s, false));
      SpacedTracks(Indented(Newline(s, false)), w);
    } else {
      IndentedTracks(s);
      SpacedTracks(Indented(s), w);
    }
  }

  lemma SliceTracks(s: State, g: Glyph)
    requires Indent(s) && (s.hasText ==> AtRest(s))
    ensures Indent(Slice(s, g)) && AtRest(Slice(s, g))
  {
    hide Tight, LineWidth, LineHasText, EndsInText;
    if s.hasText && Over(s, g.width) {
      NewlineTracks(s, false);
      IndentedTracks(Newline(s, false));
      AddTracks(Indented(Newline(s, false)), g.cells, g.width, true);
    } else {
      AddTracks(s, g.cells, g.width, true);
    }
  }

  lemma {:induction false} SlicesTrack(s: State, glyphs: seq<Glyph>)
    requires Indent(s) && (s.hasText ==> AtRest(s))
    ensures Indent(Slices(s, glyphs)) && (|glyphs| > 0 || s.hasText ==> AtRest(Slices(s, glyphs)))
    ensures Slices(s, glyphs).hasText == (|glyphs| > 0 || s.hasText)
  {
    if |glyphs| > 0 {
      hide Tracks, EndsInText;
      SlicesTrack(s, glyphs[..|glyphs| - 1]);
      SliceTracks(Slices(s, glyphs[..|glyphs| - 1]), glyphs[|glyphs| - 1]);
    }
  }

  lemma PlacedKeepsWord(s: State, w: nat)
    ensures var t := Placed(s, w); t.word == s.word && t.segment == s.segment && t.atomic == s.atomic
  {
  }

  lemma FlushTracks(s: State)
    requires AtRest(s)
    ensures AtRest(FlushWord(s))
  {
    hide Tight, LineWidth, LineHasText, EndsInText, Placed, Glyphs, Slices, Add;
    if |s.word| > 0 {
      var w, glyphs := WordWidth(s), Glyphs(s.segment, s.word);
      var t := Placed(s, w);
      PlacedTracks(s, w);
      PlacedKeepsWord(s, w);
      if !t.atomic && Over(t, w) {
        assert |glyphs| > 0 by { JoinedNone(); }
        SlicesTrack(t, glyphs);
      } else {
        AddTracks(t, t.word, w, t.atomic);
      }
    }
  }

  /** A new writer for a page. */
  function New(width: nat, segment: Segmenter): State { Fresh(Some(width), segment) }

  /** A segmentation into one grapheme: of no width when it is one character, else two columns wide. */
  function Narrow(t: string): (sizes: seq<Size>)
    ensures TotalLength(sizes) == |t|
  {
    if |t| == 0 then [] else [Size(|t|, if |t| == 1 then 0 else 2)]
  }

  lemma OneGrapheme(word: seq<Cell>)
    requires |word| > 0 && Segments(Narrow)
    ensures Glyphs(Narrow, word) == [Glyph(word, if |word| == 1 then 0 else 2)]
    ensures TotalWidth(Glyphs(Narrow, word)) == if |word| == 1 then 0 else 2
  {
    var sizes := Narrow(Letters(word));
    assert sizes[1..] == [] && word[..|word|] == word && word[|word|..] == [];
    assert Cut(word[|word|..], sizes[1..]) == [];
  }

  function AfterWidthless(style: Style): State {
    State(Some(4), Narrow, 0, 0, true, true, [], false, [Pad(0), Piece([Cell('z', style)], 0, false)])
  }

  lemma WidthlessText(style: Style)
    requires Segments(Narrow)
    ensures DoAll(New(4, Narrow), [DoText("z ", style)]) == AfterWidthless(style)
  {
    var s := New(4, Narrow);
    assert [DoText("z ", style)][..0] == [];
    assert "z "[..1] == "z" && "z"[..0] == "";
    var t := Text(s, "z", style);
    assert Text(s, "z"[..0], style) == s;
    assert s.word + [Cell('z', style)] == [Cell('z', style)];
    assert t.word == [Cell('z', style)];
    assert t == s.(word := [Cell('z', style)]);
    OneGrapheme(t.word);
    hide Glyphs, TotalWidth;
    assert FlushWord(t) == AfterWidthless(style).(pendingSpace := false);
  }

  lemma AtomicWordAfterIt(style: Style)
    requires Segments(Narrow)
    ensures var s := Code(SetIndent(AfterWidthless(style), 2), "ab", style);
            FlushWord(s).out == AfterWidthless(style).out + [Pad(2)] + [Space] + [Piece(Styled("ab", style), 2, true)]
  {
    var s := Code(SetIndent(AfterWidthless(style), 2), "ab", style);
    assert [] + Styled("ab", style) == Styled("ab", style);
    OneGrapheme(s.word);
    hide Glyphs, TotalWidth, Styled;
    assert WordWidth(s) == 2;
  }

  lemma TooWide(page: seq<Token>, word: seq<Cell>)
    requires LineWidth(page) == 0 && LineHasText(page)
    ensures !Tight(4, page + [Pad(2)] + [Space] + [Piece(word, 2, true)])
  {
    hide Tight, LineWidth, LineHasText;
    More(4, page, Pad(2));
    More(4, page + [Pad(2)], Space);
    More(4, page + [Pad(2)] + [Space], Piece(word, 2, true));
  }

  lemma WidthlessLine(style: Style)
    ensures LineWidth(AfterWidthless(style).out) == 0 && LineHasText(AfterWidthless(style).out)
  {
    var piece := Piece([Cell('z', style)], 0, false);
    assert AfterWidthless(style).out == [] + [Pad(0)] + [piece];
    More(4, [], Pad(0));
    More(4, [] + [Pad(0)], piece);
  }

  /** The wide line a word that crosses makes: text of no width, then an indent moved in front of an atomic word. */
  lemma IndentAfterWidthlessText(style: Style)
    ensures Segments(Narrow) && DoAll(New(4, Narrow), [DoText("z ", style)]) == AfterWidthless(style)
    ensures !Tight(4, FlushWord(Code(SetIndent(AfterWidthless(style), 2), "ab", style)).out)
  {
    assert Segments(Narrow);
    hide *;
    WidthlessText(style);
    AtomicWordAfterIt(style);
    WidthlessLine(style);
    TooWide(AfterWidthless(style).out, Styled("ab", style));
  }

  // ---------- Breaks are forced ----------

  /** The separator a word would get on this line. */
  function Separator(s: State): nat { if s.pendingSpace && s.hasText then 1 else 0 }

  /** The wrap at `i` was needed: the grapheme that follows it did not fit on the line before. */
  ghost predicate NeededByNext(width: nat, out: seq<Token>, i: nat)
    requires i < |out|
  {
    i + 2 < |out| && out[i + 2].Piece? && LineWidth(out[..i]) + out[i + 2].width > width
  }

  ghost predicate SliceBreaksNeeded(s: State, out: seq<Token>) {
    s.width.Some? ==>
      forall i :: |s.out| <= i < |out| && out[i] == Break(false) ==> NeededByNext(s.width.value, out, i)
  }

  lemma SliceCounts(s: State, g: Glyph)
    requires Counted(s)
    ensures Counted(Slice(s, g))
  {
    hide LineWidth, LineHasText, EndsInText, Tight;
    var width, n := s.width.value, Newline(s, false);
    More(width, s.out, Break(false));
    More(width, n.out, Pad(n.indent));
    More(width, Indented(n).out, Piece(g.cells, g.width, true));
    More(width, s.out, Piece(g.cells, g.width, true));
  }

  lemma {:induction false} SlicesCount(s: State, glyphs: seq<Glyph>)
    requires Counted(s)
    ensures Counted(Slices(s, glyphs))
  {
    hide Counted, Slice;
    if |glyphs| > 0 {
      SlicesCount(s, glyphs[..|glyphs| - 1]);
      SliceCounts(Slices(s, glyphs[..|glyphs| - 1]), glyphs[|glyphs| - 1]);
    }
  }

  lemma PlacedCounts(s: State, w: nat)
    requires Counted(s)
    ensures Counted(Placed(s, w))
  {
    hide LineWidth, LineHasText, EndsInText, Tight;
    var width := s.width.value;
    var line := if s.hasText && Over(s, Separator(s) + w) then Newline(s, false) else s;
    More(width, s.out, Break(false));
    More(width, line.out, Pad(line.indent));
    More(width, Indented(line).out, Space);
  }

  lemma FlushCounts(s: State)
    requires Counted(s)
    ensures Counted(FlushWord(s))
  {
    hide LineWidth, LineHasText, EndsInText, Tight, Placed, Glyphs, Slices;
    if |s.word| > 0 {
      var w, glyphs := WordWidth(s), Glyphs(s.segment, s.word);
      var t := Placed(s, w);
      PlacedCounts(s, w);
      PlacedKeepsWord(s, w);
      SlicesCount(t, glyphs);
      More(t.width.value, t.out, Piece(t.word, w, t.atomic));
    }
  }

  lemma OneSliceNeeded(s: State, t: State, g: Glyph)
    requires Counted(t) && t.width == s.width && |s.out| <= |t.out| && SliceBreaksNeeded(s, t.out)
    ensures t.out <= Slice(t, g).out && SliceBreaksNeeded(s, Slice(t, g).out)
  {
    var out := Slice(t, g).out;
    var breaks := t.hasText && Over(t, g.width);
    assert breaks ==> out == t.out + [Break(false), Pad(t.indent), Piece(g.cells, g.width, true)];
    assert !breaks ==> out == t.out + [Piece(g.cells, g.width, true)];
    hide LineWidth;
    forall i | |s.out| <= i < |out| && out[i] == Break(false) ensures NeededByNext(s.width.value, out, i) {
      if i < |t.out| {
        assert t.out[i] == Break(false) && NeededByNext(s.width.value, t.out, i);
        assert t.out[..i] == out[..i];
      } else {
        assert i == |t.out| && out[..i] == t.out;
      }
    }
  }

  /** Inside a word, the writer wraps only before a grapheme that would not have fitted. */
  lemma {:induction false} SliceBreaksAreNeeded(s: State, glyphs: seq<Glyph>)
    requires Counted(s)
    ensures s.out <= Slices(s, glyphs).out && SliceBreaksNeeded(s, Slices(s, glyphs).out)
  {
    if |glyphs| > 0 {
      var front := glyphs[..|glyphs| - 1];
      SliceBreaksAreNeeded(s, front);
      SlicesCount(s, front);
      SlicesKeep(s, front);
      hide Counted, SliceBreaksNeeded, Slice;
      OneSliceNeeded(s, Slices(s, front), glyphs[|glyphs| - 1]);
    }
  }

  lemma PlacedBreaks(s: State, w: nat)
    ensures s.out <= Placed(s, w).out && Placed(s, w).width == s.width && Placed(s, w).word == s.word
    ensures forall k :: |s.out| <= k < |Placed(s, w).out| && Placed(s, w).out[k] == Break(false) ==>
              k == |s.out| && s.hasText && Over(s, Separator(s) + w)
    ensures s.hasText && Over(s, Separator(s) + w) ==>
              |s.out| < |Placed(s, w).out| && Placed(s, w).out[|s.out|] == Break(false)
  {
  }

  /** The word has no room behind the text on its line. */
  ghost predicate NoRoom(s: State)
    requires Segments(s.segment)
  {
    && |s.word| > 0 && s.hasText
    && s.width.Some? && LineWidth(s.out) + Separator(s) + WordWidth(s) > s.width.value
  }

  /**
   A flush wraps before a word only when the word has no room, and then always;
   inside the word it wraps only when a grapheme has none.
   */
  lemma FlushBreaksAreNeeded(s: State, i: nat)
    requires Counted(s)
    ensures |s.out| <= i < |FlushWord(s).out| && FlushWord(s).out[i] == Break(false) ==>
              (i == |s.out| && NoRoom(s)) || NeededByNext(s.width.value, FlushWord(s).out, i)
    ensures NoRoom(s) ==> |s.out| < |FlushWord(s).out| && FlushWord(s).out[|s.out|] == Break(false)
  {
    hide Placed, LineWidth, Glyphs;
    if |s.word| > 0 {
      var w, glyphs := WordWidth(s), Glyphs(s.segment, s.word);
      var t := Placed(s, w);
      PlacedCounts(s, w);
      PlacedBreaks(s, w);
      if !t.atomic && Over(t, w) {
        SliceBreaksAreNeeded(t, glyphs);
        assert FlushWord(s).out == Slices(t, glyphs).out;
      } else {
        assert FlushWord(s).out == t.out + [Piece(t.word, w, t.atomic)];
      }
    }
  }
}
