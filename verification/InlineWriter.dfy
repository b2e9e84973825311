/**
 The word wrapper as it works: styles kept as spans of a word's text, one span
 cursor that moves through the slices of a wide word, and fields updated in
 place. Every method does what `WrapLayout` says.
 */
module InlineWriter {
  import opened Options
  import opened Sequences
  import opened WrapLayout
  import opened WrapLaws

  datatype Span = Span(start: nat, end: nat, style: Style)

  /** What reaches the terminal: styled bytes, line feeds, separators and indents. */
  datatype Out = Put(cell: Cell) | LineFeed | Separating | Indenting(n: nat)

  function Puts(cells: seq<Cell>): seq<Out> {
    seq(|cells|, i requires 0 <= i < |cells| => Put(cells[i]))
  }

  function Written(t: Token): seq<Out> {
    match t
    case Piece(cells, _, _) => Puts(cells)
    case Space => [Separating]
    case Pad(n) => [Indenting(n)]
    case Break(_) => [LineFeed]
    case Start(_) => []
  }

  function Page(out: seq<Token>): seq<Out> {
    if |out| == 0 then [] else Page(out[..|out| - 1]) + Written(out[|out| - 1])
  }

  lemma PageMore(out: seq<Token>, t: Token)
    ensures Page(out + [t]) == Page(out) + Written(t)
  {
    assert (out + [t])[..|out|] == out;
  }

  // ---------- Spans ----------

  /** Spans follow one another from the start of the text to `end`, none of them empty. */
  ghost predicate Contiguous(spans: seq<Span>, end: nat) {
    && (forall k :: 0 <= k < |spans| ==> spans[k].start < spans[k].end)
    && (forall k :: 0 < k < |spans| ==> spans[k].start == spans[k - 1].end)
    && (if |spans| == 0 then end == 0 else spans[0].start == 0 && spans[|spans| - 1].end == end)
  }

  lemma {:induction false} SpanEnds(spans: seq<Span>, end: nat, k: nat)
    requires Contiguous(spans, end) && k < |spans|
    ensures spans[k].end <= end
    decreases |spans| - k
  {
    if k + 1 < |spans| { SpanEnds(spans, end, k + 1); }
  }

  /** Byte `i` of the text has the style of the span that holds it. */
  ghost predicate Shows(cells: seq<Cell>, text: string, spans: seq<Span>) {
    && |cells| == |text|
    && (forall i :: 0 <= i < |text| ==> cells[i].b == text[i])
    && (forall k, i :: 0 <= k < |spans| && spans[k].start <= i < spans[k].end && i < |text| ==>
          cells[i].style == spans[k].style)
  }

  lemma SpanSlice(cells: seq<Cell>, text: string, spans: seq<Span>, k: nat, from: nat, to: nat)
    requires Shows(cells, text, spans) && k < |spans| && spans[k].start <= from <= to <= spans[k].end && to <= |text|
    ensures Styled(text[from..to], spans[k].style) == cells[from..to]
  {
  }

  /** One more stretch of output: what the cursor's span holds of the slice. */
  lemma NextStretch(cells: seq<Cell>, start: nat, from: nat, to: nat)
    requires start <= from <= to <= |cells|
    ensures Puts(cells[start..to]) == Puts(cells[start..from]) + Puts(cells[from..to])
  {
    assert cells[start..to] == cells[start..from] + cells[from..to];
  }

  /** The text and spans of a word, and the styled bytes they stand for. */
  ghost predicate Holds(cells: seq<Cell>, text: string, spans: seq<Span>) {
    Contiguous(spans, |text|) && Shows(cells, text, spans)
  }

  /** The spans after a push: the last one grows if it has the same style, else a new one follows. */
  function Grown(spans: seq<Span>, from: nat, to: nat, style: Style): seq<Span> {
    var last := |spans| - 1;
    if last >= 0 && spans[last].style == style then spans[last := spans[last].(end := to)]
    else spans + [Span(from, to, style)]
  }

  lemma PushStaysContiguous(spans: seq<Span>, from: nat, to: nat, style: Style)
    requires Contiguous(spans, from) && from < to
    ensures Contiguous(Grown(spans, from, to, style), to)
  {
  }

  lemma PushShows(cells: seq<Cell>, text: string, spans: seq<Span>, more: string, style: Style)
    requires Contiguous(spans, |text|) && Shows(cells, text, spans)
    ensures Shows(cells + Styled(more, style), text + more, Grown(spans, |text|, |text| + |more|, style))
  {
    forall k | 0 <= k < |spans| ensures spans[k].end <= |text| { SpanEnds(spans, |text|, k); }
  }

  lemma Pushes(cells: seq<Cell>, text: string, spans: seq<Span>, more: string, style: Style)
    requires Holds(cells, text, spans) && |more| > 0
    ensures Holds(cells + Styled(more, style), text + more, Grown(spans, |text|, |text| + |more|, style))
  {
    hide Contiguous, Shows, Grown, Styled;
    PushStaysContiguous(spans, |text|, |text + more|, style);
    PushShows(cells, text, spans, more, style);
  }

  lemma NothingPushed(cells: seq<Cell>, more: string, style: Style)
    requires |more| == 0
    ensures cells + Styled(more, style) == cells
  {
  }

  class Word {
    var text: string
    var spans: seq<Span>
    var atomic: bool
    ghost var cells: seq<Cell>

    ghost predicate Valid()
      reads this
    {
      Holds(cells, text, spans)
    }

    constructor ()
      ensures Valid() && text == "" && cells == [] && !atomic
    {
      text, spans, atomic, cells := "", [], false, [];
    }

    method Push(more: string, style: Style)
      requires Valid()
      modifies this
      ensures Valid() && atomic == old(atomic)
      ensures cells == old(cells) + Styled(more, style)
    {
      hide Holds, Styled;
      if |more| > 0 {
        Pushes(cells, text, spans, more, style);
        if |spans| > 0 && spans[|spans| - 1].style == style {
          spans := spans[|spans| - 1 := spans[|spans| - 1].(end := |text| + |more|)];
        } else {
          spans := spans + [Span(|text|, |text| + |more|, style)];
        }
        text := text + more;
        cells := cells + Styled(more, style);
      } else {
        NothingPushed(cells, more, style);
      }
    }

    /** The cursor is at the first span that reaches past `position`. */
    ghost predicate CursorAt(index: nat, position: nat)
      reads this
    {
      && index <= |spans|
      && (index > 0 ==> spans[index - 1].end <= position)
      && (index < |spans| ==> spans[index].start <= position < spans[index].end)
    }

    /** `write_part`: the bytes from `start` to `end`, each with its own style; the cursor moves on. */
    method WritePart(start: nat, end: nat, index: nat) returns (out: seq<Out>, next: nat)
      requires Valid() && start <= end <= |text| && CursorAt(index, start)
      ensures out == Puts(cells[start..end]) && CursorAt(next, end)
    {
      out, next := [], index;
      ghost var done := start;
      assert cells[start..start] == [] && Puts([]) == [];
      while next < |spans|
        invariant index <= next <= |spans| && start <= done <= end
        invariant out == Puts(cells[start..done])
        invariant next > 0 ==> spans[next - 1].end <= end
        invariant next < |spans| ==> spans[next].start <= end && done == Max(start, spans[next].start)
        invariant next == |spans| ==> done == end
      {
        var span := spans[next];
        SpanEnds(spans, |text|, next);
        var from, to := Max(span.start, start), Min(span.end, end);
        if from < to {
          SpanSlice(cells, text, spans, next, from, to);
          NextStretch(cells, start, from, to);
          out := out + Puts(Styled(text[from..to], span.style));
          done := to;
        }
        if span.end > end {
          break;
        }
        next := next + 1;
      }
    }

    method Clear()
      requires Valid()
      modifies this
      ensures Valid() && text == "" && cells == [] && !atomic
    {
      text, spans, atomic, cells := "", [], false, [];
    }
  }

  // ---------- Grapheme boundaries ----------

  function SumWidth(sizes: seq<Size>): nat {
    if |sizes| == 0 then 0 else sizes[0].width + SumWidth(sizes[1..])
  }

  lemma {:induction false} CutWidth(cells: seq<Cell>, sizes: seq<Size>)
    requires TotalLength(sizes) == |cells|
    ensures TotalWidth(Cut(cells, sizes)) == SumWidth(sizes) && |Cut(cells, sizes)| == |sizes|
    decreases |sizes|
  {
    if |sizes| > 0 {
      CutWidth(cells[sizes[0].length..], sizes[1..]);
      assert Cut(cells, sizes)[1..] == Cut(cells[sizes[0].length..], sizes[1..]);
    }
  }

  lemma {:induction false} LengthTo(sizes: seq<Size>, k: nat)
    requires k < |sizes|
    ensures TotalLength(sizes[..k + 1]) == TotalLength(sizes[..k]) + sizes[k].length <= TotalLength(sizes)
    decreases k
  {
    if k == 0 {
      assert sizes[..1][1..] == [];
    } else {
      LengthTo(sizes[1..], k - 1);
      assert sizes[..k][1..] == sizes[1..][..k - 1] && sizes[..k + 1][1..] == sizes[1..][..k];
    }
  }

  lemma CutFirst(cells: seq<Cell>, sizes: seq<Size>)
    requires TotalLength(sizes) == |cells| && |sizes| > 0
    ensures sizes[0].length <= |cells| && TotalLength(sizes[1..]) == |cells| - sizes[0].length
    ensures Cut(cells, sizes)
         == [Glyph(cells[..sizes[0].length], sizes[0].width)] + Cut(cells[sizes[0].length..], sizes[1..])
  {
    hide Joined, TotalWidth;
  }

  lemma LengthFromFirst(sizes: seq<Size>, k: nat)
    requires 0 < k <= |sizes|
    ensures TotalLength(sizes[..k]) == sizes[0].length + TotalLength(sizes[1..][..k - 1])
  {
    assert sizes[..k][1..] == sizes[1..][..k - 1];
  }

  lemma NoLength(sizes: seq<Size>)
    ensures TotalLength(sizes[..0]) == 0
  {
  }

  /** Grapheme `k` of a word holds the bytes between its boundaries. */
  lemma {:induction false} CutAt(cells: seq<Cell>, sizes: seq<Size>, k: nat)
    requires TotalLength(sizes) == |cells| && k < |sizes|
    ensures |Cut(cells, sizes)| == |sizes|
    ensures var from := TotalLength(sizes[..k]);
            from + sizes[k].length <= |cells|
            && Cut(cells, sizes)[k] == Glyph(cells[from..from + sizes[k].length], sizes[k].width)
    decreases |sizes|
  {
    hide SumWidth, TotalWidth, Joined, Cut, TotalLength;
    CutWidth(cells, sizes);
    CutFirst(cells, sizes);
    if k > 0 {
      var rest, tail := cells[sizes[0].length..], sizes[1..];
      CutAt(rest, tail, k - 1);
      LengthFromFirst(sizes, k);
      SubSlice(cells, sizes[0].length, TotalLength(tail[..k - 1]), sizes[k].length);
    } else {
      NoLength(sizes);
    }
  }

  lemma SubSlice(cells: seq<Cell>, skip: nat, from: nat, n: nat)
    requires skip + from + n <= |cells|
    ensures cells[skip..][from..from + n] == cells[skip + from..skip + from + n]
  {
  }

  function Owed(cells: seq<Cell>, start: nat, end: nat): seq<Out>
    requires start <= end <= |cells|
  {
    Puts(cells[start..end])
  }

  predicate Holding(cells: seq<Cell>, offset: nat, glyph: Glyph) {
    offset + |glyph.cells| <= |cells| && glyph.cells == cells[offset..offset + |glyph.cells|]
  }

  /** Bytes of a glyph join the owed ones as its piece joins the page. */
  lemma OwedMore(out: seq<Out>, tokens: seq<Token>, cells: seq<Cell>, start: nat, offset: nat, glyph: Glyph, single: bool)
    requires start <= offset <= |cells| && Holding(cells, offset, glyph)
    requires out + Owed(cells, start, offset) == Page(tokens)
    ensures out + Owed(cells, start, offset + |glyph.cells|)
         == Page(tokens + [Piece(glyph.cells, glyph.width, single)])
  {
    var before, bytes := Owed(cells, start, offset), Puts(glyph.cells);
    assert Owed(cells, start, offset + |glyph.cells|) == before + bytes by {
      NextStretch(cells, start, offset, offset + |glyph.cells|);
    }
    hide Owed, Puts, Holding, Page;
    PageMore(tokens, Piece(glyph.cells, glyph.width, single));
    Associates(out, before, bytes);
  }

  /** The graphemes of a word and their boundaries in its bytes. */
  ghost predicate Boundaries(cells: seq<Cell>, sizes: seq<Size>, glyphs: seq<Glyph>) {
    TotalLength(sizes) == |cells| && glyphs == Cut(cells, sizes)
  }

  lemma OneBoundary(cells: seq<Cell>, sizes: seq<Size>, glyphs: seq<Glyph>, k: nat)
    requires Boundaries(cells, sizes, glyphs) && k < |sizes|
    ensures |glyphs| == |sizes| && Holding(cells, TotalLength(sizes[..k]), glyphs[k])
    ensures |glyphs[k].cells| == sizes[k].length && glyphs[k].width == sizes[k].width
    ensures TotalLength(sizes[..k + 1]) == TotalLength(sizes[..k]) + sizes[k].length
  {
    CutAt(cells, sizes, k);
    LengthTo(sizes, k);
  }

  lemma AllBoundaries(cells: seq<Cell>, sizes: seq<Size>, glyphs: seq<Glyph>)
    requires Boundaries(cells, sizes, glyphs)
    ensures |glyphs| == |sizes| && TotalLength(sizes[..|sizes|]) == |cells| && glyphs[..|sizes|] == glyphs
  {
    CutWidth(cells, sizes);
    assert sizes[..|sizes|] == sizes;
  }

  lemma SlicesNext(s: State, glyphs: seq<Glyph>, k: nat)
    requires k < |glyphs|
    ensures Slices(s, glyphs[..k + 1]) == Slice(Slices(s, glyphs[..k]), glyphs[k])
  {
    assert glyphs[..k + 1][..k] == glyphs[..k];
  }

  // ---------- The writer ----------

  class Writer {
    var width: Option<nat>
    var column: nat
    var indent: nat
    var hasText: bool
    var pendingSpace: bool
    var out: seq<Out>
    const word: Word
    const segment: Segmenter
    ghost var tokens: seq<Token>

    /** What the fields stand for. */
    ghost function Now(): State
      reads this, word
    {
      State(width, segment, column, indent, hasText, pendingSpace, word.cells, word.atomic, tokens)
    }

    ghost predicate Valid()
      reads this, word
    {
      word.Valid() && Segments(segment) && out == Page(tokens)
    }

    /** Inside a wide word: the bytes from `start` to `offset` are placed but not yet written. */
    ghost predicate InSlice(start: nat, offset: nat, index: nat)
      reads this, word
    {
      && word.Valid() && Segments(segment) && start <= offset <= |word.cells| == |word.text|
      && word.CursorAt(index, start) && out + Owed(word.cells, start, offset) == Page(tokens)
    }

    constructor (segment: Segmenter, width: Option<nat>)
      requires Segments(segment)
      ensures Valid() && fresh(word)
      ensures Now() == Fresh(width, segment)
    {
      this.segment := segment;
      this.width := if width.Some? then Some(Max(width.value, 1)) else None;
      column, indent, hasText, pendingSpace, out, tokens := 0, 0, false, false, [], [];
      word := new Word();
    }

    method Emit(token: Token)
      requires Valid() && !token.Piece?
      modifies this`out, this`tokens
      ensures Valid() && tokens == old(tokens) + [token]
    {
      PageMore(tokens, token);
      hide Page, Segments, Holds;
      match token {
        case Space => out := out + [Separating];
        case Pad(n) => out := out + [Indenting(n)];
        case Break(_) => out := out + [LineFeed];
        case Start(_) =>
      }
      tokens := tokens + [token];
    }

    method NewlineNow(hard: bool)
      requires Valid()
      modifies this
      ensures Valid() && Now() == Newline(old(Now()), hard)
    {
      hide Page, Segments, Holds;
      Emit(Break(hard));
      column, hasText, pendingSpace := 0, false, false;
    }

    method WriteIndent()
      requires Valid()
      modifies this
      ensures Valid() && Now() == Indented(old(Now()))
    {
      hide Page, Segments, Holds;
      if column == 0 {
        Emit(Pad(indent));
        column := column + indent;
      }
    }

    method WriteSeparator()
      requires Valid()
      modifies this
      ensures Valid() && Now() == Spaced(old(Now()))
    {
      hide Page, Segments, Holds;
      if pendingSpace && hasText {
        Emit(Space);
        column := column + 1;
      }
      pendingSpace := false;
    }

    /** `out` receives the bytes of a slice. */
    method Pay(start: nat, end: nat, index: nat) returns (next: nat)
      requires InSlice(start, end, index)
      modifies this`out
      ensures Valid() && InSlice(end, end, next)
    {
      hide Page, Segments, Holds;
      var part;
      part, next := word.WritePart(start, end, index);
      out := out + part;
      assert out + Owed(word.cells, end, end) == out;
    }

    /** A slice ends before the grapheme at `offset`, and with it the line. */
    method EndSlice(start: nat, offset: nat, index: nat) returns (next: nat)
      requires InSlice(start, offset, index)
      modifies this
      ensures InSlice(offset, offset, next) && Now() == Indented(Newline(old(Now()), false))
    {
      hide Newline, Indented, Page, Segments, Holds;
      next := Pay(start, offset, index);
      NewlineNow(false);
      WriteIndent();
      assert out + Owed(word.cells, offset, offset) == out;
    }

    /** A piece of the word is placed: its columns count now, its bytes follow with the slice. */
    method CountPiece(start: nat, offset: nat, index: nat, width: nat, single: bool, ghost glyph: Glyph)
      requires InSlice(start, offset, index) && Holding(word.cells, offset, glyph) && glyph.width == width
      modifies this`column, this`hasText, this`tokens
      ensures InSlice(start, offset + |glyph.cells|, index)
      ensures Now() == Add(old(Now()), glyph.cells, glyph.width, single)
    {
      hide Owed, Puts, Page, Holds, Segments;
      OwedMore(out, tokens, word.cells, start, offset, glyph, single);
      tokens := tokens + [Piece(glyph.cells, glyph.width, single)];
      column := column + width;
      hasText := true;
    }

    /** One turn of the slicing loop: a grapheme that does not fit starts a new line. */
    method SliceGrapheme(start: nat, offset: nat, size: Size, index: nat, ghost glyph: Glyph)
      returns (start': nat, next: nat)
      requires InSlice(start, offset, index) && Holding(word.cells, offset, glyph)
      requires |glyph.cells| == size.length && glyph.width == size.width
      modifies this
      ensures InSlice(start', offset + size.length, next)
      ensures Now() == Slice(old(Now()), glyph)
    {
      hide Newline, Indented, Add, InSlice;
      start', next := start, index;
      if width.Some? && hasText && column + size.width > width.value {
        next := EndSlice(start, offset, index);
        start' := offset;
      }
      CountPiece(start', offset, next, size.width, true, glyph);
    }

    lemma StartOfWord()
      requires Valid()
      ensures InSlice(0, 0, 0) && |word.cells| == |word.text|
    {
      assert out + Owed(word.cells, 0, 0) == out;
    }

    /** The first `k` graphemes have been placed, starting from `before`. */
    ghost predicate Midway(before: State, sizes: seq<Size>, glyphs: seq<Glyph>, k: nat, start: nat, offset: nat,
                           index: nat)
      reads this, word
    {
      && Boundaries(word.cells, sizes, glyphs) && k <= |sizes| == |glyphs|
      && offset == TotalLength(sizes[..k]) && InSlice(start, offset, index) && Now() == Slices(before, glyphs[..k])
    }

    method TakeGrapheme(ghost before: State, sizes: seq<Size>, ghost glyphs: seq<Glyph>, k: nat, start: nat, offset: nat,
                        index: nat)
      returns (start': nat, offset': nat, next: nat)
      requires Midway(before, sizes, glyphs, k, start, offset, index) && k < |sizes|
      modifies this
      ensures Midway(before, sizes, glyphs, k + 1, start', offset', next)
    {
      hide InSlice, Boundaries, Holding, Slice, Slices, TotalLength, Now;
      OneBoundary(word.cells, sizes, glyphs, k);
      SlicesNext(before, glyphs, k);
      start', next := SliceGrapheme(start, offset, sizes[k], index, glyphs[k]);
      offset' := offset + sizes[k].length;
    }

    lemma BeforeWord(sizes: seq<Size>, glyphs: seq<Glyph>)
      requires Valid() && Boundaries(word.cells, sizes, glyphs)
      ensures Midway(Now(), sizes, glyphs, 0, 0, 0, 0)
    {
      StartOfWord();
      AllBoundaries(word.cells, sizes, glyphs);
    }

    lemma AfterWord(before: State, sizes: seq<Size>, glyphs: seq<Glyph>, start: nat, offset: nat, index: nat)
      requires Midway(before, sizes, glyphs, |sizes|, start, offset, index)
      ensures word.Valid() && InSlice(start, |word.cells|, index) && Now() == Slices(before, glyphs)
    {
      AllBoundaries(word.cells, sizes, glyphs);
    }

    /** A word wider than its line, grapheme by grapheme. */
    method WriteSliced(sizes: seq<Size>, ghost glyphs: seq<Glyph>)
      requires Valid() && Boundaries(word.cells, sizes, glyphs)
      modifies this
      ensures Valid() && Now() == Slices(old(Now()), glyphs)
    {
      hide Midway, Boundaries, InSlice, Slices;
      var start: nat, offset: nat, index: nat, k: nat := 0, 0, 0, 0;
      BeforeWord(sizes, glyphs);
      while k < |sizes|
        invariant k <= |sizes| && Midway(old(Now()), sizes, glyphs, k, start, offset, index)
      {
        start, offset, index := TakeGrapheme(old(Now()), sizes, glyphs, k, start, offset, index);
        k := k + 1;
      }
      AfterWord(old(Now()), sizes, glyphs, start, offset, index);
      FinishWord(start, index);
    }

    method FinishWord(start: nat, index: nat)
      requires word.Valid() && InSlice(start, |word.cells|, index)
      modifies this`out
      ensures Valid() && Now() == old(Now())
    {
      hide Owed, Puts, Page, Holds, Segments;
      var _ := Pay(start, |word.text|, index);
    }

    /** A word that stays in one piece. */
    method WriteWhole(wordWidth: nat)
      requires Valid()
      modifies this
      ensures Valid() && Now() == Add(old(Now()), word.cells, wordWidth, word.atomic)
    {
      StartOfWord();
      assert word.cells[0..|word.cells|] == word.cells;
      hide Add, InSlice;
      CountPiece(0, 0, 0, wordWidth, word.atomic, Glyph(word.cells, wordWidth));
      FinishWord(0, 0);
    }

    lemma WidthOfWord(sizes: seq<Size>)
      requires Valid() && sizes == segment(word.text)
      ensures Boundaries(word.cells, sizes, Glyphs(segment, word.cells))
      ensures SumWidth(sizes) == WordWidth(Now()) == TotalWidth(Glyphs(segment, word.cells))
    {
      assert Letters(word.cells) == word.text;
      CutWidth(word.cells, sizes);
    }

    /** Where the word starts: after a break, an indent and a separator, as far as they are due. */
    method Place(wordWidth: nat)
      requires Valid()
      modifies this
      ensures Valid() && Now() == Placed(old(Now()), wordWidth)
    {
      hide Valid, Newline, Indented, Spaced;
      var separator := if pendingSpace && hasText then 1 else 0;
      if width.Some? && hasText && column + separator + wordWidth > width.value {
        NewlineNow(false);
      }
      WriteIndent();
      WriteSeparator();
    }

    method Fill(sizes: seq<Size>, wordWidth: nat, ghost glyphs: seq<Glyph>)
      requires Valid() && Boundaries(word.cells, sizes, glyphs) && wordWidth == TotalWidth(glyphs)
      modifies this
      ensures Valid() && Now() == Filled(old(Now()), glyphs)
    {
      hide Valid, Boundaries, Slices, TotalWidth;
      if width.Some? && !word.atomic && column + wordWidth > width.value {
        WriteSliced(sizes, glyphs);
      } else {
        WriteWhole(wordWidth);
      }
    }

    /** `flush_word` */
    method Flush()
      requires Valid()
      modifies this, word
      ensures Valid() && Now() == FlushWord(old(Now()))
    {
      hide Placed, Filled, Glyphs, TotalWidth, SumWidth, Boundaries;
      if |word.text| == 0 {
        return;
      }
      var sizes := segment(word.text);
      var wordWidth := SumWidth(sizes);
      WidthOfWord(sizes);
      ghost var glyphs := Glyphs(segment, word.cells);
      Place(wordWidth);
      Fill(sizes, wordWidth, glyphs);
      word.Clear();
    }

    method BreakSoftly()
      requires Valid()
      modifies this, word
      ensures Valid() && Now() == SoftBreak(old(Now()))
    {
      hide FlushWord, Page;
      Flush();
      pendingSpace := true;
    }

    method Complete()
      requires Valid()
      modifies this, word
      ensures Valid() && Now() == Finish(old(Now()))
    {
      hide FlushWord, Page;
      Flush();
      pendingSpace := false;
    }

    method BreakHard()
      requires Valid()
      modifies this, word
      ensures Valid() && Now() == HardBreak(old(Now()))
    {
      hide Finish, Newline;
      Complete();
      NewlineNow(true);
    }

    /** The next white-space character from `pos` on. */
    static method PieceEnd(text: string, pos: nat) returns (stop: nat)
      requires pos <= |text|
      ensures pos <= stop <= |text| && Unbroken(text[pos..stop]) && (stop < |text| ==> IsBreak(text[stop]))
    {
      stop := pos;
      while stop < |text| && !IsBreak(text[stop])
        invariant pos <= stop <= |text|
        invariant forall k :: pos <= k < stop ==> !IsBreak(text[k])
      {
        stop := stop + 1;
      }
    }

    /** One piece and the soft break after it. */
    method AddPiece(ghost before: State, text: string, style: Style, pos: nat) returns (next: nat)
      requires Valid() && pos < |text| && Segments(before.segment)
      requires Now() == Text(before, text[..pos], style)
      modifies this, word
      ensures Valid() && pos < next <= |text| && Now() == Text(before, text[..next], style)
    {
      hide Text, SoftBreak, Styled, Page, IsBreak, Unbroken, Segments, Holds;
      next := PieceEnd(text, pos);
      NextPiece(before, text, style, pos, next);
      word.Push(text[pos..next], style);
      if next < |text| {
        BreakSoftly();
        next := next + 1;
      } else {
        assert pos < |text|;
      }
    }

    /** `text`: piece by piece, each up to and including one white-space character. */
    method AddText(text: string, style: Style)
      requires Valid()
      modifies this, word
      ensures Valid() && Now() == Text(old(Now()), text, style)
    {
      hide Page, Holds, FlushWord;
      var pos := 0;
      while pos < |text|
        invariant pos <= |text| && Valid() && Now() == Text(old(Now()), text[..pos], style)
      {
        pos := AddPiece(old(Now()), text, style, pos);
      }
      assert text[..|text|] == text;
    }

    /** `code`: white space included, and never cut. */
    method AddCode(text: string, style: Style)
      requires Valid()
      modifies word
      ensures Valid() && Now() == Code(old(Now()), text, style)
    {
      hide Page, Styled, Segments, Holds;
      word.Push(text, style);
      word.atomic := true;
    }

    /** `reset`: the caller has started a line with a prefix of `column` columns. */
    method Restart(column: nat, indent: nat)
      requires Valid() && (width.Some? ==> width.value > 0)
      modifies this
      ensures Valid() && Now() == Reset(old(Now()), column, indent)
    {
      hide Page, Segments, Holds;
      Emit(Start(column));
      this.column := column;
      this.indent := if width.None? then indent else Min(indent, width.value - 1);
      hasText, pendingSpace := false, false;
    }

    method ChangeIndent(indent: nat)
      requires Valid() && (width.Some? ==> width.value > 0)
      modifies this`indent
      ensures Valid() && Now() == SetIndent(old(Now()), indent)
    {
      hide Page, Segments, Holds;
      this.indent := if width.None? then indent else Min(indent, width.value - 1);
    }
  }
}
