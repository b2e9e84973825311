/**
 What a page reads as: the bytes that were pushed, with one separator for each
 break between words, and the lines and prefixes that were asked for, each in
 its place. The wrapper only puts line ends of its own into that, some of them
 in place of a separator.
 */
module WrapFlow {
  import opened Options
  import opened WrapLayout
  import opened WrapLaws

  datatype Mark = Byte(cell: Cell) | Gap | Line | Prefix(columns: nat) | Wrap

  function Bytes(cells: seq<Cell>): (m: seq<Mark>)
    ensures |m| == |cells|
  {
    seq(|cells|, i requires 0 <= i < |cells| => Byte(cells[i]))
  }

  function MarksOf(t: Token): seq<Mark> {
    match t
    case Piece(cells, _, _) => Bytes(cells)
    case Space => [Gap]
    case Pad(_) => []
    case Break(hard) => [if hard then Line else Wrap]
    case Start(columns) => [Prefix(columns)]
  }

  function Marks(out: seq<Token>): seq<Mark> {
    if |out| == 0 then [] else Marks(out[..|out| - 1]) + MarksOf(out[|out| - 1])
  }

  // ---------- Text without a page ----------

  /** What was asked for, on a line without end; `word` is not ended yet. */
  datatype Flow = Flow(marks: seq<Mark>, text: bool, owed: bool, word: seq<Cell>)

  const NOTHING_YET := Flow([], false, false, [])

  /** The word ends; behind other words, and if a break was between them, one separator precedes it. */
  function Ended(f: Flow): Flow {
    if |f.word| == 0 then f
    else Flow(f.marks + (if f.owed && f.text then [Gap] else []) + Bytes(f.word), true, false, [])
  }

  function Flowing(f: Flow, text: string, style: Style): Flow {
    if |text| == 0 then f
    else
      var before, c := Flowing(f, text[..|text| - 1], style), text[|text| - 1];
      if IsBreak(c) then Ended(before).(owed := true) else before.(word := before.word + [Cell(c, style)])
  }

  function Asked(f: Flow, op: Op): Flow {
    match op
    case DoText(text, style) => Flowing(f, text, style)
    case DoCode(text, style) => f.(word := f.word + Styled(text, style))
    case DoSoftBreak => Ended(f).(owed := true)
    case DoFinish => Ended(f).(owed := false)
    case DoHardBreak => Flow(Ended(f).marks + [Line], false, false, [])
    case DoReset(column, _) => Flow(f.marks + [Prefix(column)], false, false, f.word)
    case DoSetIndent(_) => f
  }

  function AllAsked(ops: seq<Op>): Flow {
    if |ops| == 0 then NOTHING_YET else Asked(AllAsked(ops[..|ops| - 1]), ops[|ops| - 1])
  }

  // ---------- Wrapping ----------

  /** `m` is `e` with wraps put in, each between two marks or in place of a separator. */
  ghost predicate Wrapped(m: seq<Mark>, e: seq<Mark>)
    decreases |m|
  {
    if |m| == 0 then |e| == 0
    else if m[|m| - 1] == Wrap then
      || Wrapped(m[..|m| - 1], e)
      || (|e| > 0 && e[|e| - 1] == Gap && Wrapped(m[..|m| - 1], e[..|e| - 1]))
    else |e| > 0 && e[|e| - 1] == m[|m| - 1] && Wrapped(m[..|m| - 1], e[..|e| - 1])
  }

  lemma WrappedMore(m: seq<Mark>, e: seq<Mark>, mark: Mark)
    requires Wrapped(m, e)
    ensures mark != Wrap ==> Wrapped(m + [mark], e + [mark])
    ensures Wrapped(m + [Wrap], e) && Wrapped(m + [Wrap], e + [Gap])
  {
    assert (m + [mark])[..|m|] == m && (m + [Wrap])[..|m|] == m;
    assert (e + [mark])[..|e|] == e && (e + [Gap])[..|e|] == e;
  }

  lemma {:induction false} WrappedBytes(m: seq<Mark>, e: seq<Mark>, cells: seq<Cell>)
    requires Wrapped(m, e)
    ensures Wrapped(m + Bytes(cells), e + Bytes(cells))
    decreases |cells|
  {
    if |cells| == 0 {
      assert m + Bytes(cells) == m && e + Bytes(cells) == e;
    } else {
      var front, c := cells[..|cells| - 1], Byte(cells[|cells| - 1]);
      WrappedBytes(m, e, front);
      WrappedMore(m + Bytes(front), e + Bytes(front), c);
      assert m + Bytes(cells) == m + Bytes(front) + [c] && e + Bytes(cells) == e + Bytes(front) + [c];
    }
  }

  /** Without wraps, the page reads exactly as asked. */
  lemma {:induction false} Unwrapped(m: seq<Mark>, e: seq<Mark>)
    requires Wrapped(m, e) && Wrap !in m
    ensures m == e
    decreases |m|
  {
    if |m| > 0 {
      assert m == m[..|m| - 1] + [m[|m| - 1]] && e == e[..|e| - 1] + [e[|e| - 1]];
      Unwrapped(m[..|m| - 1], e[..|e| - 1]);
    }
  }

  lemma MarksMore(out: seq<Token>, t: Token)
    ensures Marks(out + [t]) == Marks(out) + MarksOf(t)
  {
    assert (out + [t])[..|out|] == out;
  }

  // ---------- The writer follows ----------

  ghost predicate Follows(s: State, f: Flow) {
    && s.word == f.word && s.hasText == f.text && s.pendingSpace == f.owed
    && Wrapped(Marks(s.out), f.marks)
  }

  lemma NewlineMarks(s: State)
    ensures Marks(Newline(s, false).out) == Marks(s.out) + [Wrap]
  {
    MarksMore(s.out, Break(false));
  }

  lemma IndentedMarks(s: State)
    ensures var t := Indented(s);
            Marks(t.out) == Marks(s.out) && t.hasText == s.hasText && t.pendingSpace == s.pendingSpace
  {
    MarksMore(s.out, Pad(s.indent));
    assert Marks(s.out) + [] == Marks(s.out);
  }

  lemma SpacedMarks(s: State)
    ensures Marks(Spaced(s).out) == Marks(s.out) + if s.pendingSpace && s.hasText then [Gap] else []
    ensures !Spaced(s).pendingSpace
  {
    MarksMore(s.out, Space);
    assert Marks(s.out) + [] == Marks(s.out);
  }

  lemma PlacedFollows(s: State, f: Flow, w: nat)
    requires Follows(s, f)
    ensures Wrapped(Marks(Placed(s, w).out), f.marks + if f.owed && f.text then [Gap] else [])
    ensures !Placed(s, w).pendingSpace
  {
    hide Wrapped, Marks, Spaced, Indented;
    var line := if s.hasText && Over(s, Separator(s) + w) then Newline(s, false) else s;
    NewlineMarks(s);
    IndentedMarks(line);
    SpacedMarks(Indented(line));
    WrappedMore(Marks(s.out), f.marks, Gap);
    assert Marks(line.out) + [] == Marks(line.out) && f.marks + [] == f.marks;
  }

  lemma SliceFollows(t: State, e: seq<Mark>, g: Glyph)
    requires Wrapped(Marks(t.out), e)
    ensures Wrapped(Marks(Slice(t, g).out), e + Bytes(g.cells))
    ensures Slice(t, g).pendingSpace ==> t.pendingSpace
  {
    hide Wrapped, Marks;
    var line := if t.hasText && Over(t, g.width) then Indented(Newline(t, false)) else t;
    MarksMore(t.out, Break(false));
    MarksMore(Newline(t, false).out, Pad(t.indent));
    WrappedMore(Marks(t.out), e, Gap);
    assert Marks(t.out) + [Wrap] + [] == Marks(t.out) + [Wrap];
    assert Wrapped(Marks(line.out), e);
    MarksMore(line.out, Piece(g.cells, g.width, true));
    WrappedBytes(Marks(line.out), e, g.cells);
  }

  lemma {:induction false} SlicesFollow(t: State, e: seq<Mark>, glyphs: seq<Glyph>)
    requires Wrapped(Marks(t.out), e)
    ensures var u := Slices(t, glyphs);
            && Wrapped(Marks(u.out), e + Bytes(Joined(glyphs))) && (u.pendingSpace ==> t.pendingSpace)
            && (|glyphs| > 0 ==> u.hasText)
  {
    hide Wrapped, Marks, Joined;
    if |glyphs| == 0 {
      JoinedNone();
      assert glyphs == [] && e + Bytes([]) == e;
    } else {
      var front, g := glyphs[..|glyphs| - 1], glyphs[|glyphs| - 1];
      SlicesFollow(t, e, front);
      SliceFollows(Slices(t, front), e + Bytes(Joined(front)), g);
      JoinedMore(front, g);
      assert front + [g] == glyphs;
      assert e + Bytes(Joined(glyphs)) == e + Bytes(Joined(front)) + Bytes(g.cells);
    }
  }

  lemma FlushFollows(s: State, f: Flow)
    requires Segments(s.segment) && Follows(s, f)
    ensures Follows(FlushWord(s), Ended(f))
  {
    hide Wrapped, Marks, Placed, Slices, Glyphs;
    if |s.word| > 0 {
      var w, glyphs := WordWidth(s), Glyphs(s.segment, s.word);
      var t, e := Placed(s, w), f.marks + if f.owed && f.text then [Gap] else [];
      PlacedFollows(s, f, w);
      PlacedKeepsWord(s, w);
      SlicesFollow(t, e, glyphs);
      if |glyphs| == 0 { JoinedNone(); }
      MarksMore(t.out, Piece(t.word, w, t.atomic));
      WrappedBytes(Marks(t.out), e, t.word);
    }
  }

  lemma {:induction false} TextFollows(s: State, f: Flow, text: string, style: Style)
    requires Segments(s.segment) && Follows(s, f)
    ensures Follows(Text(s, text, style), Flowing(f, text, style))
  {
    hide Wrapped, Marks, FlushWord, Ended;
    if |text| > 0 {
      var front := text[..|text| - 1];
      TextFollows(s, f, front, style);
      FlushFollows(Text(s, front, style), Flowing(f, front, style));
    }
  }

  lemma LineFollows(s: State, f: Flow)
    requires Follows(s, f)
    ensures Follows(Newline(s, true), Flow(f.marks + [Line], false, false, f.word))
  {
    hide Wrapped, Marks;
    MarksMore(s.out, Break(true));
    WrappedMore(Marks(s.out), f.marks, Line);
  }

  lemma ResetFollows(s: State, f: Flow, column: nat, indent: nat)
    requires Follows(s, f)
    ensures Follows(Reset(s, column, indent), Flow(f.marks + [Prefix(column)], false, false, f.word))
  {
    hide Wrapped, Marks;
    MarksMore(s.out, Start(column));
    WrappedMore(Marks(s.out), f.marks, Prefix(column));
  }

  lemma OpFollows(s: State, f: Flow, op: Op)
    requires Segments(s.segment) && Follows(s, f)
    ensures Follows(Do(s, op), Asked(f, op))
  {
    hide Wrapped, Marks, FlushWord, Text, Flowing, Newline, Reset, Ended;
    FlushFollows(s, f);
    FlushKeeps(s);
    match op
    case DoText(text, style) => TextFollows(s, f, text, style);
    case DoHardBreak =>
      EndedHasNoWord(f);
      LineFollows(Finish(s), Ended(f).(owed := false));
    case DoReset(column, indent) => ResetFollows(s, f, column, indent);
    case _ =>
  }

  lemma EndedHasNoWord(f: Flow)
    ensures Ended(f).word == []
  {
  }

  lemma FreshFollows(width: Option<nat>, segment: Segmenter)
    ensures Follows(Fresh(width, segment), NOTHING_YET)
  {
  }

  /**
   On every run, at any width, the page reads as asked, with wraps put in or
   in place of separators, and the pending word, the separator owed and the
   empty line are those of the unbounded text.
   */
  lemma {:induction false} RunReads(width: Option<nat>, segment: Segmenter, ops: seq<Op>)
    requires Segments(segment)
    ensures Follows(DoAll(Fresh(width, segment), ops), AllAsked(ops))
  {
    hide Follows, Do, Asked, Segments;
    if |ops| > 0 {
      var front := ops[..|ops| - 1];
      RunReads(width, segment, front);
      OpFollows(DoAll(Fresh(width, segment), front), AllAsked(front), ops[|ops| - 1]);
    } else {
      FreshFollows(width, segment);
    }
  }

  lemma {:induction false} WrapsAreBreaks(out: seq<Token>)
    requires Break(false) !in out
    ensures Wrap !in Marks(out)
  {
    if |out| > 0 {
      assert forall t :: t in out[..|out| - 1] ==> t in out;
      WrapsAreBreaks(out[..|out| - 1]);
      assert out[|out| - 1] in out;
    }
  }

  /**
   Where nothing had to be wrapped, the page reads exactly as asked: words with
   a break between them are one separator apart, others are not.
   */
  lemma UnwrappedReads(width: Option<nat>, segment: Segmenter, ops: seq<Op>)
    requires Segments(segment) && Break(false) !in DoAll(Fresh(width, segment), ops).out
    ensures Marks(DoAll(Fresh(width, segment), ops).out) == AllAsked(ops).marks
  {
    RunReads(width, segment, ops);
    WrapsAreBreaks(DoAll(Fresh(width, segment), ops).out);
    Unwrapped(Marks(DoAll(Fresh(width, segment), ops).out), AllAsked(ops).marks);
  }

  // ---------- Without a width ----------

  lemma {:induction false} NoSliceWraps(s: State, glyphs: seq<Glyph>)
    requires s.width.None? && Break(false) !in s.out
    ensures Break(false) !in Slices(s, glyphs).out && Slices(s, glyphs).width.None?
  {
    if |glyphs| > 0 { NoSliceWraps(s, glyphs[..|glyphs| - 1]); }
  }

  lemma FlushNeverWraps(s: State)
    requires Segments(s.segment) && s.width.None? && Break(false) !in s.out
    ensures Break(false) !in FlushWord(s).out
  {
    if |s.word| > 0 {
      var t := Placed(s, WordWidth(s));
      assert Break(false) !in t.out && t.width.None?;
      hide Placed, Slices, Glyphs;
      NoSliceWraps(t, Glyphs(s.segment, s.word));
    }
  }

  lemma {:induction false} TextNeverWraps(s: State, text: string, style: Style)
    requires Segments(s.segment) && s.width.None? && Break(false) !in s.out
    ensures Break(false) !in Text(s, text, style).out
  {
    hide FlushWord;
    if |text| > 0 {
      TextNeverWraps(s, text[..|text| - 1], style);
      FlushNeverWraps(Text(s, text[..|text| - 1], style));
    }
  }

  lemma OpNeverWraps(s: State, op: Op)
    requires Segments(s.segment) && s.width.None? && Break(false) !in s.out
    ensures Break(false) !in Do(s, op).out
  {
    hide FlushWord, Text;
    FlushNeverWraps(s);
    if op.DoText? { TextNeverWraps(s, op.text, op.style); }
  }

  lemma {:induction false} RunNeverWraps(segment: Segmenter, ops: seq<Op>)
    requires Segments(segment)
    ensures Break(false) !in DoAll(Fresh(None, segment), ops).out
  {
    hide Do;
    if |ops| > 0 {
      RunNeverWraps(segment, ops[..|ops| - 1]);
      OpNeverWraps(DoAll(Fresh(None, segment), ops[..|ops| - 1]), ops[|ops| - 1]);
    }
  }

  /** Without a width, every run reads exactly as asked. */
  lemma UnboundedReads(segment: Segmenter, ops: seq<Op>)
    requires Segments(segment)
    ensures Marks(DoAll(Fresh(None, segment), ops).out) == AllAsked(ops).marks
  {
    hide *;
    RunNeverWraps(segment, ops);
    UnwrappedReads(None, segment, ops);
  }

  // ---------- Lines that were asked for ----------

  /** What stands before each line end that was asked for, in order. */
  function BeforeLines(out: seq<Token>): seq<seq<Cell>> {
    if |out| == 0 then []
    else
      BeforeLines(out[..|out| - 1]) + if out[|out| - 1] == Break(true) then [Content(out[..|out| - 1])] else []
  }

  /** What was pushed before each line end was asked for, in order. */
  function PushedBeforeLines(ops: seq<Op>): seq<seq<Cell>> {
    if |ops| == 0 then []
    else
      PushedBeforeLines(ops[..|ops| - 1])
      + if ops[|ops| - 1].DoHardBreak? then [AllPushed(ops[..|ops| - 1])] else []
  }

  lemma BeforeLinesMore(out: seq<Token>, t: Token)
    ensures BeforeLines(out + [t]) == BeforeLines(out) + if t == Break(true) then [Content(out)] else []
  {
    assert (out + [t])[..|out|] == out;
  }

  lemma {:induction false} SlicesAskNoLine(s: State, glyphs: seq<Glyph>)
    ensures BeforeLines(Slices(s, glyphs).out) == BeforeLines(s.out)
  {
    hide BeforeLines;
    if |glyphs| > 0 {
      var t, g := Slices(s, glyphs[..|glyphs| - 1]), glyphs[|glyphs| - 1];
      SlicesAskNoLine(s, glyphs[..|glyphs| - 1]);
      hide Slices;
      var n := Newline(t, false);
      BeforeLinesMore(t.out, Break(false));
      BeforeLinesMore(n.out, Pad(n.indent));
      BeforeLinesMore(Indented(n).out, Piece(g.cells, g.width, true));
      BeforeLinesMore(t.out, Piece(g.cells, g.width, true));
    }
  }

  lemma PlacedAsksNoLine(s: State, w: nat)
    ensures BeforeLines(Placed(s, w).out) == BeforeLines(s.out)
  {
    hide BeforeLines;
    var line := if s.hasText && Over(s, Separator(s) + w) then Newline(s, false) else s;
    BeforeLinesMore(s.out, Break(false));
    BeforeLinesMore(line.out, Pad(line.indent));
    BeforeLinesMore(Indented(line).out, Space);
  }

  lemma FlushAsksNoLine(s: State)
    requires Segments(s.segment)
    ensures BeforeLines(FlushWord(s).out) == BeforeLines(s.out)
  {
    hide BeforeLines, Placed, Slices, Glyphs;
    if |s.word| > 0 {
      var w, glyphs := WordWidth(s), Glyphs(s.segment, s.word);
      var t := Placed(s, w);
      PlacedAsksNoLine(s, w);
      SlicesAskNoLine(t, glyphs);
      BeforeLinesMore(t.out, Piece(t.word, w, t.atomic));
    }
  }

  lemma {:induction false} TextAsksNoLine(s: State, text: string, style: Style)
    requires Segments(s.segment)
    ensures BeforeLines(Text(s, text, style).out) == BeforeLines(s.out)
  {
    hide BeforeLines, FlushWord;
    if |text| > 0 {
      TextAsksNoLine(s, text[..|text| - 1], style);
      FlushAsksNoLine(Text(s, text[..|text| - 1], style));
    }
  }

  lemma OpAsksLine(s: State, op: Op)
    requires Segments(s.segment)
    ensures BeforeLines(Do(s, op).out) == BeforeLines(s.out) + if op.DoHardBreak? then [Everything(s)] else []
  {
    hide FlushWord, Text, BeforeLines, Content;
    FlushAsksNoLine(s);
    FlushConserves(s);
    assert Content(FlushWord(s).out) == Everything(s);
    match op
    case DoText(text, style) => TextAsksNoLine(s, text, style);
    case DoHardBreak => BeforeLinesMore(Finish(s).out, Break(true));
    case DoReset(column, indent) => BeforeLinesMore(s.out, Start(column));
    case _ =>
  }

  /**
   On every run, the page has exactly the line ends that were asked for besides
   its wraps: as many, and each behind just what had been pushed before it.
   */
  lemma {:induction false} LinesAreKept(width: Option<nat>, segment: Segmenter, ops: seq<Op>)
    requires Segments(segment)
    ensures BeforeLines(DoAll(Fresh(width, segment), ops).out) == PushedBeforeLines(ops)
  {
    hide Do, AllPushed, Everything, Segments;
    if |ops| > 0 {
      var front, s := ops[..|ops| - 1], Fresh(width, segment);
      LinesAreKept(width, segment, front);
      RunConserves(s, front);
      assert Everything(s) + AllPushed(front) == AllPushed(front) by { NothingPushed(width, segment); }
      OpAsksLine(DoAll(s, front), ops[|ops| - 1]);
    }
  }

  lemma NothingPushed(width: Option<nat>, segment: Segmenter)
    ensures Everything(Fresh(width, segment)) == []
  {
  }
}
