/**
 The meaning of the streaming word wrapper: what each operation of
 `InlineWriter` adds to the page, grapheme by grapheme, and what holds of the
 page after any run of operations. Graphemes are opaque: a number of bytes
 and a width, given by a segmentation function.
 */
module WrapLayout {
  import opened Options
  import Theme

  datatype Style = Style(bold: bool, italic: bool, strike: bool, reverse: bool, dim: bool,
                         color: Option<Theme.Color>, link: Option<nat>)

  /** A byte with the style it was pushed with. */
  datatype Cell = Cell(b: char, style: Style)

  datatype Size = Size(length: nat, width: nat)

  datatype Glyph = Glyph(cells: seq<Cell>, width: nat)

  /**
   What ends up on the page. `single` marks a piece that cannot be split: one
   grapheme or one atomic word. `Start` writes nothing: the caller has put a
   prefix of that many columns on a new line itself.
   */
  datatype Token =
    | Piece(cells: seq<Cell>, width: nat, single: bool)
    | Space
    | Pad(n: nat)
    | Break(hard: bool)
    | Start(columns: nat)

  type Segmenter = string -> seq<Size>

  datatype State = State(width: Option<nat>, segment: Segmenter, column: nat, indent: nat, hasText: bool,
                         pendingSpace: bool, word: seq<Cell>, atomic: bool, out: seq<Token>)

  /** A new writer: an empty page of at least one column, or without end. */
  function Fresh(width: Option<nat>, segment: Segmenter): State {
    State(if width == Some(0) then Some(1) else width, segment, 0, 0, false, false, [], false, [])
  }

  // ---------- Graphemes of a word ----------

  function TotalLength(sizes: seq<Size>): nat {
    if |sizes| == 0 then 0 else sizes[0].length + TotalLength(sizes[1..])
  }

  /** Segmentation cuts a text into graphemes and leaves nothing out. */
  ghost predicate Segments(segment: Segmenter) {
    forall t :: TotalLength(segment(t)) == |t|
  }

  function Letters(cells: seq<Cell>): (t: string)
    ensures |t| == |cells|
  {
    seq(|cells|, i requires 0 <= i < |cells| => cells[i].b)
  }

  function Cut(cells: seq<Cell>, sizes: seq<Size>): (glyphs: seq<Glyph>)
    requires TotalLength(sizes) == |cells|
    ensures Joined(glyphs) == cells
    decreases |sizes|
  {
    if |sizes| == 0 then []
    else
      var rest := Cut(cells[sizes[0].length..], sizes[1..]);
      var first := Glyph(cells[..sizes[0].length], sizes[0].width);
      assert ([first] + rest)[1..] == rest;
      [first] + rest
  }

  function Joined(glyphs: seq<Glyph>): seq<Cell> {
    if |glyphs| == 0 then [] else glyphs[0].cells + Joined(glyphs[1..])
  }

  function TotalWidth(glyphs: seq<Glyph>): nat {
    if |glyphs| == 0 then 0 else glyphs[0].width + TotalWidth(glyphs[1..])
  }

  function Glyphs(segment: Segmenter, word: seq<Cell>): (glyphs: seq<Glyph>)
    requires Segments(segment)
    ensures Joined(glyphs) == word
  {
    Cut(word, segment(Letters(word)))
  }

  function WordWidth(s: State): nat
    requires Segments(s.segment)
  {
    TotalWidth(Glyphs(s.segment, s.word))
  }

  // ---------- Operations ----------

  function Newline(s: State, hard: bool): State {
    s.(out := s.out + [Break(hard)], column := 0, hasText := false, pendingSpace := false)
  }

  function Indented(s: State): State {
    if s.column == 0 then s.(out := s.out + [Pad(s.indent)], column := s.indent) else s
  }

  function Spaced(s: State): State {
    if s.pendingSpace && s.hasText then s.(out := s.out + [Space], column := s.column + 1, pendingSpace := false)
    else s.(pendingSpace := false)
  }

  function Add(s: State, cells: seq<Cell>, width: nat, single: bool): State {
    s.(out := s.out + [Piece(cells, width, single)], column := s.column + width, hasText := true)
  }

  function Over(s: State, more: nat): bool {
    s.width.Some? && s.column + more > s.width.value
  }

  /** A word too wide for the rest of the line, grapheme by grapheme. */
  function Slice(s: State, g: Glyph): State {
    var line := if s.hasText && Over(s, g.width) then Indented(Newline(s, false)) else s;
    Add(line, g.cells, g.width, true)
  }

  function Slices(s: State, glyphs: seq<Glyph>): State {
    if |glyphs| == 0 then s else Slice(Slices(s, glyphs[..|glyphs| - 1]), glyphs[|glyphs| - 1])
  }

  /** Where a word of width `w` starts: on this line, after a separator, or on the next line. */
  function Placed(s: State, w: nat): State {
    var separator := if s.pendingSpace && s.hasText then 1 else 0;
    Spaced(Indented(if s.hasText && Over(s, separator + w) then Newline(s, false) else s))
  }

  function Filled(s: State, glyphs: seq<Glyph>): State {
    if !s.atomic && Over(s, TotalWidth(glyphs)) then Slices(s, glyphs)
    else Add(s, s.word, TotalWidth(glyphs), s.atomic)
  }

  function FlushWord(s: State): State
    requires Segments(s.segment)
  {
    if |s.word| == 0 then s
    else Filled(Placed(s, WordWidth(s)), Glyphs(s.segment, s.word)).(word := [], atomic := false)
  }

  function SoftBreak(s: State): State
    requires Segments(s.segment)
  {
    FlushWord(s).(pendingSpace := true)
  }

  function Finish(s: State): State
    requires Segments(s.segment)
  {
    FlushWord(s).(pendingSpace := false)
  }

  function HardBreak(s: State): State
    requires Segments(s.segment)
  {
    Newline(Finish(s), true)
  }

  predicate IsBreak(c: char) { c == ' ' || c == '\t' || c == '\r' || c == '\n' }

  function Styled(text: string, style: Style): seq<Cell> {
    seq(|text|, i requires 0 <= i < |text| => Cell(text[i], style))
  }

  /** Text arrives character by character: white space breaks softly, anything else joins the word. */
  function Text(s: State, text: string, style: Style): (t: State)
    requires Segments(s.segment)
    ensures t.segment == s.segment && t.width == s.width && t.indent == s.indent
  {
    if |text| == 0 then s
    else
      var t, c := Text(s, text[..|text| - 1], style), text[|text| - 1];
      if IsBreak(c) then FlushKeeps(t); SoftBreak(t) else t.(word := t.word + [Cell(c, style)])
  }

  function Code(s: State, text: string, style: Style): State {
    s.(word := s.word + Styled(text, style), atomic := true)
  }

  function Clamp(width: Option<nat>, indent: nat): nat {
    if width.None? || indent < width.value then indent else if width.value == 0 then 0 else width.value - 1
  }

  function Reset(s: State, column: nat, indent: nat): State {
    s.(column := column, indent := Clamp(s.width, indent), hasText := false, pendingSpace := false,
       out := s.out + [Start(column)])
  }

  function SetIndent(s: State, indent: nat): State { s.(indent := Clamp(s.width, indent)) }

  /** The page width is at least one column. */
  ghost predicate Sound(s: State) {
    && Segments(s.segment)
    && (s.width.Some? ==> s.width.value > 0 && s.indent < s.width.value)
  }

  lemma {:induction false} SlicesKeep(s: State, glyphs: seq<Glyph>)
    ensures var t := Slices(s, glyphs);
            t.segment == s.segment && t.width == s.width && t.indent == s.indent && t.word == s.word
  {
    if |glyphs| > 0 { SlicesKeep(s, glyphs[..|glyphs| - 1]); }
  }

  lemma FlushKeeps(s: State)
    requires Segments(s.segment)
    ensures var t := FlushWord(s); t.segment == s.segment && t.width == s.width && t.indent == s.indent && t.word == []
  {
    if |s.word| > 0 { SlicesKeep(Placed(s, WordWidth(s)), Glyphs(s.segment, s.word)); }
  }

  // ---------- Runs ----------

  datatype Op =
    | DoText(text: string, style: Style)
    | DoCode(text: string, style: Style)
    | DoSoftBreak
    | DoFinish
    | DoHardBreak
    | DoReset(column: nat, indent: nat)
    | DoSetIndent(indent: nat)

  function Do(s: State, op: Op): (t: State)
    requires Segments(s.segment)
    ensures t.segment == s.segment && t.width == s.width
  {
    FlushKeeps(s);
    match op
    case DoText(text, style) => Text(s, text, style)
    case DoCode(text, style) => Code(s, text, style)
    case DoSoftBreak => SoftBreak(s)
    case DoFinish => Finish(s)
    case DoHardBreak => HardBreak(s)
    case DoReset(column, indent) => Reset(s, column, indent)
    case DoSetIndent(indent) => SetIndent(s, indent)
  }

  function DoAll(s: State, ops: seq<Op>): (t: State)
    requires Segments(s.segment)
    ensures t.segment == s.segment && t.width == s.width
  {
    if |ops| == 0 then s else Do(DoAll(s, ops[..|ops| - 1]), ops[|ops| - 1])
  }
}
