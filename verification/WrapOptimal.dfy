/**
 When every word of a paragraph fits on a line of its own, the writer's greedy
 wrapping uses the fewest lines of any layout.
 */
module WrapOptimal {
  import opened Options
  import opened Sequences
  import opened WrapLayout
  import opened WrapLaws

  // ---------- Layouts of a paragraph ----------

  /** Before which words a layout breaks the line. */
  type Layout = seq<bool>

  /** The column after word `n - 1`, when the first line starts at `start` and the others at `indent`. */
  function ColumnAfter(widths: seq<nat>, layout: Layout, start: nat, indent: nat, n: nat): nat
    requires 0 < n <= |widths| == |layout|
  {
    if layout[n - 1] then indent + widths[n - 1]
    else if n == 1 then start + widths[0]
    else ColumnAfter(widths, layout, start, indent, n - 1) + 1 + widths[n - 1]
  }

  /** Every line fits the page. */
  ghost predicate Fits(widths: seq<nat>, layout: Layout, start: nat, indent: nat, page: nat) {
    && |layout| == |widths|
    && forall n :: 0 < n <= |widths| ==> ColumnAfter(widths, layout, start, indent, n) <= page
  }

  function LinesBroken(layout: Layout, n: nat): nat
    requires n <= |layout|
  {
    if n == 0 then 0 else LinesBroken(layout, n - 1) + (if layout[n - 1] then 1 else 0)
  }

  function Wraps(out: seq<Token>): nat {
    if |out| == 0 then 0
    else Wraps(out[..|out| - 1]) + (if out[|out| - 1] == Break(false) then 1 else 0)
  }

  lemma WrapsMore(out: seq<Token>, t: Token)
    ensures Wraps(out + [t]) == Wraps(out) + (if t == Break(false) then 1 else 0)
  {
    assert (out + [t])[..|out|] == out;
  }

  // ---------- A paragraph ----------

  /** A word is pushed in parts of any style, text without white space or code, and ended by white space. */
  datatype Word = Word(parts: seq<Op>, gap: string)

  predicate Part(op: Op) { op.DoCode? || (op.DoText? && Unbroken(op.text)) }

  predicate WholeWord(word: Word) {
    && (forall k :: 0 <= k < |word.parts| ==> Part(word.parts[k])) && |AllPushed(word.parts)| > 0
    && |word.gap| > 0 && forall k :: 0 <= k < |word.gap| ==> IsBreak(word.gap[k])
  }

  const PLAIN := Style(false, false, false, false, false, None, None)

  function Width(segment: Segmenter, word: Word): nat
    requires Segments(segment)
  {
    TotalWidth(Glyphs(segment, AllPushed(word.parts)))
  }

  function Widths(segment: Segmenter, words: seq<Word>): (widths: seq<nat>)
    requires Segments(segment)
    ensures |widths| == |words|
  {
    seq(|words|, k requires 0 <= k < |words| => Width(segment, words[k]))
  }

  /** One word and the white space behind it. */
  function Push(s: State, word: Word): (t: State)
    requires Segments(s.segment)
    ensures t.segment == s.segment && t.width == s.width
  {
    Text(DoAll(s, word.parts), word.gap, PLAIN)
  }

  function Paragraph(s: State, words: seq<Word>): (t: State)
    requires Segments(s.segment)
    ensures t.segment == s.segment && t.width == s.width
  {
    if |words| == 0 then s else Push(Paragraph(s, words[..|words| - 1]), words[|words| - 1])
  }

  lemma LastPart(s: State, parts: seq<Op>)
    requires Segments(s.segment) && |parts| > 0
    ensures var front, last := parts[..|parts| - 1], parts[|parts| - 1];
            && DoAll(s, parts) == Do(DoAll(s, front), last)
            && AllPushed(parts) == AllPushed(front) + Pushed(last)
  {
    hide Do, Pushed;
  }

  lemma NoParts(s: State, parts: seq<Op>)
    requires Segments(s.segment) && |parts| == 0
    ensures DoAll(s, parts) == s && s.word + AllPushed(parts) == s.word
  {
  }

  lemma {:induction false} PartsJoin(s: State, parts: seq<Op>)
    requires Segments(s.segment) && forall k :: 0 <= k < |parts| ==> Part(parts[k])
    ensures var t := DoAll(s, parts); t == s.(word := s.word + AllPushed(parts), atomic := t.atomic)
  {
    hide Do, DoAll, Pushed, AllPushed, Part, Segments;
    if |parts| > 0 {
      var front, last := parts[..|parts| - 1], parts[|parts| - 1];
      PartsJoin(s, front);
      LastPart(s, parts);
      PartJoins(DoAll(s, front), last);
      Associates(s.word, AllPushed(front), Pushed(last));
    } else {
      NoParts(s, parts);
    }
  }

  lemma PartJoins(s: State, op: Op)
    requires Segments(s.segment) && Part(op)
    ensures var t := Do(s, op); t == s.(word := s.word + Pushed(op), atomic := t.atomic)
  {
    if op.DoText? {
      WordJoins(s, op.text, op.style);
      PushedWhole(op.text, op.style);
    }
  }

  lemma {:induction false} PushedWhole(text: string, style: Style)
    requires Unbroken(text)
    ensures PushedText(text, style) == Styled(text, style)
  {
    if |text| > 0 { PushedWhole(text[..|text| - 1], style); }
  }

  /** White space in a row breaks once. */
  lemma {:induction false} GapBreaksOnce(s: State, gap: string)
    requires Segments(s.segment) && |gap| > 0 && forall k :: 0 <= k < |gap| ==> IsBreak(gap[k])
    ensures Text(s, gap, PLAIN) == SoftBreak(s)
  {
    hide FlushWord;
    FlushKeeps(s);
    if |gap| > 1 {
      GapBreaksOnce(s, gap[..|gap| - 1]);
      BreaksAgain(SoftBreak(s));
    } else {
      assert Text(s, gap[..0], PLAIN) == s;
    }
  }

  lemma BreaksAgain(s: State)
    requires Segments(s.segment) && s.word == [] && s.pendingSpace
    ensures SoftBreak(s) == s
  {
  }

  /** A line is being filled with words; nothing is pending but the next separator. */
  ghost predicate Filling(s: State) {
    && AtRest(s) && |s.word| == 0
    && (s.hasText ==> s.pendingSpace) && (s.column == 0 && s.hasText ==> s.indent == 0)
  }

  /** Where the first word of the next line-piece starts if the line is not broken. */
  function StartColumn(s: State): nat { if s.column == 0 then s.indent else s.column }

  /** A break is needed before a word of `w` columns. */
  predicate Breaks(s: State, w: nat)
    requires s.width.Some?
  {
    s.hasText && s.column + 1 + w > s.width.value
  }

  function NextColumn(s: State, w: nat): nat
    requires s.width.Some?
  {
    if Breaks(s, w) then s.indent + w else if s.hasText then s.column + 1 + w else StartColumn(s) + w
  }

  /** From `s` to `t` a word of `w` columns was put on the page, after a break only if needed. */
  ghost predicate PutWord(s: State, t: State, w: nat)
    requires s.width.Some?
  {
    && t.hasText && t.column == NextColumn(s, w)
    && Wraps(t.out) == Wraps(s.out) + (if Breaks(s, w) then 1 else 0)
  }

  ghost predicate Roomy(s: State, w: nat)
    requires s.width.Some?
  {
    s.indent + w <= s.width.value && (!s.hasText ==> StartColumn(s) + w <= s.width.value)
  }

  lemma SettledAt(s: State, w: nat)
    requires s.column == 0 && s.hasText ==> s.indent == 0
    ensures var t := Spaced(Indented(s));
            && t.column == StartColumn(s) + (if s.pendingSpace && s.hasText then 1 else 0)
            && Wraps(t.out) == Wraps(s.out)
            && t.word == s.word && t.atomic == s.atomic && t.width == s.width && t.indent == s.indent
  {
    hide Wraps;
    WrapsMore(s.out, Pad(s.indent));
    WrapsMore(Indented(s).out, Space);
  }

  lemma PlacedAt(s: State, w: nat)
    requires s.width.Some?
    requires (s.hasText ==> s.pendingSpace) && (s.column == 0 && s.hasText ==> s.indent == 0)
    ensures var t := Placed(s, w);
            && t.column + w == NextColumn(s, w) && (t.column == 0 ==> t.indent == 0)
            && Wraps(t.out) == Wraps(s.out) + (if Breaks(s, w) then 1 else 0)
            && t.word == s.word && t.atomic == s.atomic && t.width == s.width && t.indent == s.indent
  {
    hide Wraps;
    var s1 := if Breaks(s, w) then Newline(s, false) else s;
    WrapsMore(s.out, Break(false));
    SettledAt(s1, w);
  }

  /** A word that fits on a line of its own is never cut. */
  lemma FlushFits(s: State)
    requires Segments(s.segment) && s.width.Some? && |s.word| > 0
    requires (s.hasText ==> s.pendingSpace) && (s.column == 0 && s.hasText ==> s.indent == 0)
    requires Roomy(s, WordWidth(s))
    ensures var t := FlushWord(s);
            PutWord(s, t, WordWidth(s)) && (t.column == 0 ==> t.indent == 0)
  {
    hide Wraps, Glyphs, Placed, TotalWidth, Slices;
    var w := WordWidth(s);
    PlacedAt(s, w);
    var t := Placed(s, w);
    WrapsMore(t.out, Piece(t.word, w, t.atomic));
    assert NextColumn(s, w) <= s.width.value;
    assert FlushWord(s) == Add(t, t.word, w, t.atomic).(word := [], atomic := false);
  }

  /** One word with what ends it. */
  lemma OneWord(s: State, word: Word)
    requires Filling(s) && WholeWord(word) && Roomy(s, Width(s.segment, word))
    ensures Filling(Push(s, word)) && Push(s, word).indent == s.indent
    ensures PutWord(s, Push(s, word), Width(s.segment, word))
  {
    hide Tight, LineWidth, LineHasText, EndsInText, Text, Wraps, FlushWord, Glyphs, TotalWidth, AllPushed, DoAll;
    var t := DoAll(s, word.parts);
    PartsJoin(s, word.parts);
    assert s.word + AllPushed(word.parts) == AllPushed(word.parts);
    GapBreaksOnce(t, word.gap);
    StillAtRest(s, AllPushed(word.parts), t.atomic);
    FlushTracks(t);
    FlushKeeps(t);
    assert WordWidth(t) == Width(s.segment, word);
    FlushFits(t);
    assert PutWord(s, FlushWord(t), WordWidth(t));
  }

  lemma StillAtRest(s: State, word: seq<Cell>, atomic: bool)
    requires AtRest(s)
    ensures AtRest(s.(word := word, atomic := atomic))
  {
  }

  /** As few lines as the other layout, and no further along on the last of them. */
  predicate Ahead(lines: nat, column: nat, otherLines: nat, otherColumn: nat) {
    lines < otherLines || (lines == otherLines && column <= otherColumn)
  }

  /** A new paragraph: every word fits on a line, the first one on the line it starts. */
  ghost predicate Starts(s: State, words: seq<Word>) {
    && Filling(s) && !s.hasText
    && (forall k :: 0 <= k < |words| ==> WholeWord(words[k]))
    && (forall k :: 0 <= k < |words| ==> s.indent + Width(s.segment, words[k]) <= s.width.value)
    && (|words| > 0 ==> StartColumn(s) + Width(s.segment, words[0]) <= s.width.value)
  }

  lemma StepAhead(s: State, t: State, w: nat, lines: nat, column: nat, breaks: bool, indent: nat)
    requires s.width.Some? && PutWord(s, t, w) && s.hasText && s.indent == indent
    requires Ahead(Wraps(s.out), s.column, lines, column)
    requires !breaks ==> column + 1 + w <= s.width.value
    requires lines > Wraps(s.out) ==> indent <= column
    ensures Ahead(Wraps(t.out), t.column, lines + (if breaks then 1 else 0), if breaks then indent + w else column + 1 + w)
  {
    hide Wraps;
  }

  /** After its first break a layout is never left of the indent. */
  lemma {:induction false} BrokenLinesAreIndented(widths: seq<nat>, layout: Layout, start: nat, indent: nat, n: nat)
    requires 0 < n <= |widths| == |layout| && LinesBroken(layout, n) > 0
    ensures ColumnAfter(widths, layout, start, indent, n) >= indent
  {
    if n > 1 && !layout[n - 1] { BrokenLinesAreIndented(widths, layout, start, indent, n - 1); }
  }

  /** After `n` words the writer is ahead of the other layout. */
  ghost predicate AheadAfter(s: State, t: State, widths: seq<nat>, layout: Layout, n: nat)
    requires 0 < n <= |widths| == |layout|
  {
    && Filling(t) && t.hasText && t.indent == s.indent && Wraps(s.out) <= Wraps(t.out)
    && Ahead(Wraps(t.out), t.column, Wraps(s.out) + LinesBroken(layout, n),
             ColumnAfter(widths, layout, StartColumn(s), s.indent, n))
  }

  lemma NextAhead(s: State, before: State, t: State, widths: seq<nat>, layout: Layout, n: nat)
    requires 0 < n < |widths| == |layout| && before.width.Some?
    requires AheadAfter(s, before, widths, layout, n)
    requires Filling(t) && t.indent == before.indent && PutWord(before, t, widths[n])
    requires ColumnAfter(widths, layout, StartColumn(s), s.indent, n + 1) <= before.width.value
    ensures AheadAfter(s, t, widths, layout, n + 1)
  {
    hide Filling, Wraps;
    if LinesBroken(layout, n) > 0 { BrokenLinesAreIndented(widths, layout, StartColumn(s), s.indent, n); }
    StepAhead(before, t, widths[n], Wraps(s.out) + LinesBroken(layout, n),
              ColumnAfter(widths, layout, StartColumn(s), s.indent, n), layout[n], s.indent);
  }

  lemma OneMore(s: State, words: seq<Word>, layout: Layout, n: nat)
    requires Starts(s, words) && 0 < n <= |words|
    requires Fits(Widths(s.segment, words), layout, StartColumn(s), s.indent, s.width.value)
    ensures Paragraph(s, words[..n]) == Push(Paragraph(s, words[..n - 1]), words[n - 1])
    ensures var widths := Widths(s.segment, words);
            && ColumnAfter(widths, layout, StartColumn(s), s.indent, n) <= s.width.value
            && widths[n - 1] == Width(s.segment, words[n - 1])
  {
    hide Push, Width, Filling, WholeWord, ColumnAfter;
    assert words[..n][..n - 1] == words[..n - 1];
  }

  lemma {:induction false} GreedyStaysAhead(s: State, words: seq<Word>, layout: Layout, n: nat)
    requires Starts(s, words) && 0 < n <= |words|
    requires Fits(Widths(s.segment, words), layout, StartColumn(s), s.indent, s.width.value)
    ensures AheadAfter(s, Paragraph(s, words[..n]), Widths(s.segment, words), layout, n)
  {
    assert s.width.Some? && |layout| == |words|;
    hide Paragraph, Push, Width, Fits, Widths, Wraps, Filling, WholeWord, Starts;
    OneMore(s, words, layout, n);
    var widths, before := Widths(s.segment, words), Paragraph(s, words[..n - 1]);
    if n == 1 {
      FirstWord(s, words);
      assert LinesBroken(layout, 0) == 0;
    } else {
      GreedyStaysAhead(s, words, layout, n - 1);
      NextWord(s, before, words, n - 1);
      NextAhead(s, before, Push(before, words[n - 1]), widths, layout, n - 1);
    }
  }

  lemma FirstWord(s: State, words: seq<Word>)
    requires Starts(s, words) && |words| > 0
    ensures Paragraph(s, words[..0]) == s
    ensures var t, w := Push(s, words[0]), Width(s.segment, words[0]);
            && Filling(t) && t.hasText && t.indent == s.indent && Wraps(t.out) == Wraps(s.out)
            && t.column == StartColumn(s) + w
  {
    hide Push, Wraps, Width;
    OneWord(s, words[0]);
  }

  lemma NextWord(s: State, before: State, words: seq<Word>, n: nat)
    requires Starts(s, words) && n < |words|
    requires Filling(before) && before.hasText
    requires before.segment == s.segment && before.width == s.width && before.indent == s.indent
    ensures var t := Push(before, words[n]);
            && Filling(t) && t.indent == before.indent && before.width.Some?
            && PutWord(before, t, Width(s.segment, words[n]))
  {
    hide Push, Wraps, Width;
    OneWord(before, words[n]);
  }

  /** The writer's paragraph takes no more lines than any layout of the same words that fits the page. */
  lemma FewestLines(s: State, words: seq<Word>, layout: Layout)
    requires Starts(s, words)
    requires Fits(Widths(s.segment, words), layout, StartColumn(s), s.indent, s.width.value)
    ensures Wraps(Paragraph(s, words).out) - Wraps(s.out) <= LinesBroken(layout, |layout|)
  {
    hide Filling, WholeWord, Width, Wraps;
    if |words| > 0 {
      GreedyStaysAhead(s, words, layout, |words|);
      assert words[..|words|] == words;
    } else {
      assert layout == [];
    }
  }
}
