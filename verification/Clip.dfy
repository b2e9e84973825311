/**
 `TerminalLine::clip_with_overlays`: a window of columns cut out of a styled
 line, with highlight overlays, and what a terminal shows for it. Graphemes
 are opaque: some bytes and a width.
 */
module Clip {
  import opened Options
  import opened Sequences
  import opened Sgr

  datatype Grapheme = Grapheme(bytes: string, width: nat)

  datatype Range = Range(start: nat, end: nat)

  /** A style change: it takes effect from the byte at `position`. */
  datatype Style = Style(position: nat, params: seq<nat>)

  datatype Line = Line(graphemes: seq<Grapheme>, styles: seq<Style>)

  // ---------- Layout of a line ----------

  /** Byte offset of grapheme `i`, and column where it starts. */
  function Offset(g: seq<Grapheme>, i: nat): nat
    requires i <= |g|
  {
    if i == 0 then 0 else Offset(g, i - 1) + |g[i - 1].bytes|
  }

  function Column(g: seq<Grapheme>, i: nat): nat
    requires i <= |g|
  {
    if i == 0 then 0 else Column(g, i - 1) + g[i - 1].width
  }

  lemma {:induction false} LayoutGrows(g: seq<Grapheme>, i: nat, j: nat)
    requires i <= j <= |g|
    ensures Offset(g, i) <= Offset(g, j) && Column(g, i) <= Column(g, j)
    decreases j
  {
    if i < j { LayoutGrows(g, i, j - 1); }
  }

  /** `TerminalLine::new` records styles in text order; no grapheme is empty. */
  ghost predicate ValidLine(line: Line) {
    && (forall i :: 0 <= i < |line.graphemes| ==> |line.graphemes[i].bytes| > 0)
    && (forall i, j :: 0 <= i < j < |line.styles| ==> line.styles[i].position <= line.styles[j].position)
    && (forall i :: 0 <= i < |line.styles| ==> Emitted(line.styles[i].params))
  }

  // ---------- The terminal ----------

  datatype Out = Escape(params: seq<nat>) | Byte(b: char)

  datatype Cell = Cell(b: char, attributes: Attributes)

  datatype Screen = Screen(cells: seq<Cell>, attributes: Attributes)

  function Put(s: Screen, o: Out): Screen {
    match o
    case Escape(params) => s.(attributes := Interpret(s.attributes, params))
    case Byte(b) => s.(cells := s.cells + [Cell(b, s.attributes)])
  }

  /** What a terminal in its plain state shows after receiving `out`. */
  function Show(out: seq<Out>): Screen {
    if |out| == 0 then Screen([], PLAIN) else Put(Show(out[..|out| - 1]), out[|out| - 1])
  }

  function Bytes(text: string): seq<Out> { seq(|text|, i requires 0 <= i < |text| => Byte(text[i])) }

  function Escapes(sequences: seq<seq<nat>>): seq<Out> {
    seq(|sequences|, i requires 0 <= i < |sequences| => Escape(sequences[i]))
  }

  function Blanks(n: nat): string { seq(n, _ => ' ') }

  function Painted(text: string, a: Attributes): seq<Cell> {
    seq(|text|, i requires 0 <= i < |text| => Cell(text[i], a))
  }

  lemma ShowOne(out: seq<Out>, o: Out)
    ensures Show(out + [o]) == Put(Show(out), o)
  {
    assert (out + [o])[..|out|] == out;
  }

  lemma {:induction false} ShowBytes(out: seq<Out>, text: string)
    ensures Show(out + Bytes(text)) == Screen(Show(out).cells + Painted(text, Show(out).attributes), Show(out).attributes)
    decreases |text|
  {
    hide Show;
    if |text| == 0 {
      assert out + Bytes(text) == out;
    } else {
      var front, last := text[..|text| - 1], text[|text| - 1];
      ShowBytes(out, front);
      ShowOne(out + Bytes(front), Byte(last));
      assert out + Bytes(text) == out + Bytes(front) + [Byte(last)];
      assert Painted(text, Show(out).attributes)
          == Painted(front, Show(out).attributes) + [Cell(last, Show(out).attributes)];
    }
  }

  lemma {:induction false} ShowEscapes(out: seq<Out>, s: seq<seq<nat>>)
    ensures Show(out + Escapes(s)) == Screen(Show(out).cells, InterpretAll(Show(out).attributes, s))
    decreases |s|
  {
    hide Show, Interpret;
    if |s| == 0 {
      assert out + Escapes(s) == out;
    } else {
      var front, last := s[..|s| - 1], s[|s| - 1];
      ShowEscapes(out, front);
      ShowOne(out + Escapes(front), Escape(last));
      assert out + Escapes(s) == out + Escapes(front) + [Escape(last)];
    }
  }

  // ---------- What the window should show ----------

  /** How many styles take effect at or before byte `b`. */
  function StylesThrough(styles: seq<Style>, b: int): (n: nat)
    ensures n <= |styles|
  {
    if |styles| == 0 then 0
    else if styles[|styles| - 1].position <= b then |styles|
    else StylesThrough(styles[..|styles| - 1], b)
  }

  /** The source state once the first `n` styles have been applied. */
  function Source(styles: seq<Style>, n: nat): Attributes
    requires n <= |styles|
  {
    if n == 0 then PLAIN else Interpret(Source(styles, n - 1), styles[n - 1].params)
  }

  function SourceAt(styles: seq<Style>, b: int): Attributes {
    Source(styles, StylesThrough(styles, b))
  }

  predicate Meets(r: Range, start: nat, end: nat) { r.end > start && r.start < end }

  predicate MeetsAny(ranges: seq<Range>, start: nat, end: nat) {
    exists k :: 0 <= k < |ranges| && Meets(ranges[k], start, end)
  }

  type Overlay = seq<seq<nat>>

  datatype Highlights = Highlights(ranges: seq<Range>, overlay: Overlay, active: seq<Range>, activeOverlay: Overlay)

  /** The active overlay wins over the passive one. */
  function Chosen(h: Highlights, start: nat, end: nat): Option<Overlay> {
    if MeetsAny(h.active, start, end) then Some(h.activeOverlay)
    else if MeetsAny(h.ranges, start, end) then Some(h.overlay)
    else None
  }

  function Covered(a: Attributes, o: Option<Overlay>): Attributes {
    if o.Some? then InterpretAll(a, o.value) else a
  }

  /** The source state at byte `k` of grapheme `i`. */
  function ByteSource(line: Line, i: nat, k: nat): Attributes
    requires i < |line.graphemes|
  {
    SourceAt(line.styles, Offset(line.graphemes, i) + k)
  }

  function GlyphCells(line: Line, i: nat, o: Option<Overlay>, n: nat): seq<Cell>
    requires i < |line.graphemes| && n <= |line.graphemes[i].bytes|
  {
    seq(n, k requires 0 <= k < n =>
      Cell(line.graphemes[i].bytes[k], Covered(ByteSource(line, i, k), o)))
  }

  /** The columns of the window that grapheme `i` reaches into. */
  function Reach(g: seq<Grapheme>, i: nat, start: nat, end: nat): nat
    requires i < |g|
  {
    var from, to := Column(g, i), Column(g, i + 1);
    var lo, hi := if from < start then start else from, if to < end then to else end;
    if lo < hi then hi - lo else 0
  }

  predicate Whole(g: seq<Grapheme>, i: nat, start: nat, end: nat)
    requires i < |g|
  {
    start <= Column(g, i) && Column(g, i + 1) <= end
  }

  /** What one grapheme contributes, and the columns that takes on the screen. */
  datatype Piece = Piece(cells: seq<Cell>, columns: nat)

  /** All the bytes of a grapheme in its columns, or blanks of one column each where it is cut. */
  function PieceOf(line: Line, h: Highlights, i: nat, start: nat, end: nat): Piece
    requires i < |line.graphemes|
  {
    var g := line.graphemes;
    if Column(g, i) >= end then Piece([], 0)
    else
      var o := Chosen(h, Column(g, i), Column(g, i + 1));
      if Whole(g, i, start, end) then Piece(GlyphCells(line, i, o, |g[i].bytes|), g[i].width)
      else
        var blanks := Painted(Blanks(Reach(g, i, start, end)), Covered(SourceAt(line.styles, Offset(g, i + 1) - 1), o));
        Piece(blanks, |blanks|)
  }

  function Part(line: Line, h: Highlights, i: nat, start: nat, end: nat): seq<Cell>
    requires i < |line.graphemes|
  {
    PieceOf(line, h, i, start, end).cells
  }

  function Window(line: Line, h: Highlights, n: nat, start: nat, end: nat): seq<Cell>
    requires n <= |line.graphemes|
  {
    if n == 0 then [] else Window(line, h, n - 1, start, end) + Part(line, h, n - 1, start, end)
  }

  /** The columns that the cells of the window take. */
  function WindowColumns(line: Line, h: Highlights, n: nat, start: nat, end: nat): nat
    requires n <= |line.graphemes|
  {
    if n == 0 then 0 else WindowColumns(line, h, n - 1, start, end) + PieceOf(line, h, n - 1, start, end).columns
  }

  /** The window fills exactly the columns of the line that lie inside it. */
  lemma {:induction false} WindowIsFilled(line: Line, h: Highlights, n: nat, start: nat, end: nat)
    requires n <= |line.graphemes| && start <= end
    ensures WindowColumns(line, h, n, start, end) == Max(0, Min(Column(line.graphemes, n), end) - start)
  {
    hide GlyphCells, Chosen, SourceAt, Covered;
    if n > 0 { WindowIsFilled(line, h, n - 1, start, end); }
  }

  // ---------- Finding the overlay with a moving cursor ----------

  /** Ranges in reading order, none overlapping the next. */
  predicate Ordered(ranges: seq<Range>) {
    && (forall i :: 0 <= i < |ranges| ==> ranges[i].start <= ranges[i].end)
    && (forall i, j :: 0 <= i < j < |ranges| ==> ranges[i].end <= ranges[j].start)
  }

  /** `overlaps`: the cursor skips ranges that ended; it never has to go back. */
  method Overlaps(ranges: seq<Range>, index: nat, start: nat, end: nat) returns (found: bool, next: nat)
    requires Ordered(ranges) && index <= |ranges|
    requires forall k :: 0 <= k < index ==> ranges[k].end <= start
    ensures found <==> MeetsAny(ranges, start, end)
    ensures index <= next <= |ranges|
    ensures forall k :: 0 <= k < next ==> ranges[k].end <= start
  {
    next := index;
    while next < |ranges| && ranges[next].end <= start
      invariant index <= next <= |ranges|
      invariant forall k :: 0 <= k < next ==> ranges[k].end <= start
    {
      next := next + 1;
    }
    found := next < |ranges| && ranges[next].start < end;
    if found {
      assert Meets(ranges[next], start, end);
    } else {
      forall k | 0 <= k < |ranges| ensures !Meets(ranges[k], start, end) {
      }
    }
  }

  // ---------- The clipper ----------

  lemma {:induction false} StylesThroughIs(styles: seq<Style>, b: int, n: nat)
    requires forall i, j :: 0 <= i < j < |styles| ==> styles[i].position <= styles[j].position
    requires n <= |styles|
    requires forall k :: 0 <= k < n ==> styles[k].position <= b
    requires n < |styles| ==> styles[n].position > b
    ensures StylesThrough(styles, b) == n
  {
    if |styles| > n {
      StylesThroughIs(styles[..|styles| - 1], b, n);
    }
  }

  /** The clipper's running state after some output: what is sent, what is saved, what is on. */
  ghost predicate InStep(line: Line, out: seq<Out>, cells: seq<Cell>, saved: Saved, next: nat, on: Option<Overlay>) {
    && next <= |line.styles|
    && Saves(saved) && Denotes(saved) == Source(line.styles, next)
    && Show(out) == Screen(cells, Covered(Source(line.styles, next), on))
  }

  /** Exactly the styles that start before byte `limit` have been sent. */
  ghost predicate SentBefore(line: Line, next: nat, limit: nat) {
    && next <= |line.styles|
    && (forall k :: 0 <= k < next ==> line.styles[k].position < limit)
    && (next < |line.styles| ==> line.styles[next].position >= limit)
  }

  /** A style is sent, saved, and covered again by the overlay that is on. */
  lemma SendStyle(line: Line, out: seq<Out>, cells: seq<Cell>, saved: Saved, next: nat, on: Option<Overlay>)
    requires ValidLine(line) && InStep(line, out, cells, saved, next, on) && next < |line.styles|
    ensures var p := line.styles[next].params;
            InStep(line, out + [Escape(p)] + (if on.Some? then Escapes(on.value) else []), cells,
                   Save(saved, p), next + 1, on)
  {
    var p := line.styles[next].params;
    SaveFollows(saved, p);
    ShowOne(out, Escape(p));
    if on.Some? {
      ShowEscapes(out + [Escape(p)], on.value);
      OverlayWins(Source(line.styles, next), p, on.value);
    } else {
      assert out + [Escape(p)] + [] == out + [Escape(p)];
    }
  }

  /** Switching overlays goes through the restored source state. */
  lemma Switch(line: Line, out: seq<Out>, cells: seq<Cell>, saved: Saved, next: nat, on: Option<Overlay>,
               then_: Option<Overlay>)
    requires InStep(line, out, cells, saved, next, on)
    ensures InStep(line, out + Escapes(Restore(saved)) + (if then_.Some? then Escapes(then_.value) else []), cells,
                   saved, next, then_)
  {
    hide Restore;
    ShowEscapes(out, Restore(saved));
    RestoreRestores(saved, Show(out).attributes);
    if then_.Some? {
      ShowEscapes(out + Escapes(Restore(saved)), then_.value);
    } else {
      assert out + Escapes(Restore(saved)) + [] == out + Escapes(Restore(saved));
    }
  }

  lemma SendText(line: Line, out: seq<Out>, cells: seq<Cell>, saved: Saved, next: nat, on: Option<Overlay>, text: string)
    requires InStep(line, out, cells, saved, next, on)
    ensures InStep(line, out + Bytes(text), cells + Painted(text, Covered(Source(line.styles, next), on)),
                   saved, next, on)
  {
    ShowBytes(out, text);
  }

  /** Send every style that takes effect before byte `limit`, without text. */
  method SkipStyles(line: Line, out: seq<Out>, ghost cells: seq<Cell>, saved: Saved, next: nat, on: Option<Overlay>,
                    ghost from: nat, limit: nat)
    returns (out': seq<Out>, saved': Saved, next': nat)
    requires ValidLine(line) && InStep(line, out, cells, saved, next, on)
    requires SentBefore(line, next, from) && from <= limit
    ensures InStep(line, out', cells, saved', next', on) && SentBefore(line, next', limit)
  {
    out', saved', next' := out, saved, next;
    while next' < |line.styles| && line.styles[next'].position < limit
      invariant next' <= |line.styles| && InStep(line, out', cells, saved', next', on)
      invariant forall k :: 0 <= k < next' ==> line.styles[k].position < limit
    {
      hide InStep, Interpret, Save;
      var p := line.styles[next'].params;
      SendStyle(line, out', cells, saved', next', on);
      out' := out' + [Escape(p)] + (if on.Some? then Escapes(on.value) else []);
      saved' := Save(saved', p);
      next' := next' + 1;
    }
  }

  lemma StretchOfCells(line: Line, i: nat, o: Option<Overlay>, a: nat, b: nat, source: Attributes)
    requires i < |line.graphemes| && a <= b <= |line.graphemes[i].bytes|
    requires forall k: nat :: a <= k < b ==> ByteSource(line, i, k) == source
    ensures GlyphCells(line, i, o, b)
         == GlyphCells(line, i, o, a) + Painted(line.graphemes[i].bytes[a..b], Covered(source, o))
  {
    hide ByteSource, Covered;
    var whole, front := GlyphCells(line, i, o, b), GlyphCells(line, i, o, a);
    var rest := Painted(line.graphemes[i].bytes[a..b], Covered(source, o));
    forall k | 0 <= k < b ensures whole[k] == (front + rest)[k] {
      if k >= a { assert rest[k - a] == whole[k]; }
    }
  }

  /** Bytes `a` to `b` of a grapheme see one source state when no style starts among them. */
  lemma GlyphStretch(line: Line, i: nat, o: Option<Overlay>, a: nat, b: nat, next: nat)
    requires ValidLine(line) && i < |line.graphemes| && a <= b <= |line.graphemes[i].bytes|
    requires next <= |line.styles|
    requires forall k :: 0 <= k < next ==> line.styles[k].position <= Offset(line.graphemes, i) + a
    requires next < |line.styles| && a < b ==> line.styles[next].position >= Offset(line.graphemes, i) + b
    ensures GlyphCells(line, i, o, b)
         == GlyphCells(line, i, o, a) + Painted(line.graphemes[i].bytes[a..b], Covered(Source(line.styles, next), o))
  {
    hide StylesThrough, Offset, Covered, Source, Emitted;
    forall k: nat | a <= k < b ensures ByteSource(line, i, k) == Source(line.styles, next) {
      StylesThroughIs(line.styles, Offset(line.graphemes, i) + k, next);
    }
    StretchOfCells(line, i, o, a, b, Source(line.styles, next));
  }

  /** The bytes of a grapheme up to the next style, and that style. */
  method SendStretch(line: Line, i: nat, out: seq<Out>, ghost cells: seq<Cell>, saved: Saved, next: nat,
                     on: Option<Overlay>, part: nat)
    returns (out': seq<Out>, saved': Saved)
    requires ValidLine(line) && i < |line.graphemes| && part < |line.graphemes[i].bytes| && next < |line.styles|
    requires InStep(line, out, cells + GlyphCells(line, i, on, part), saved, next, on)
    requires forall k :: 0 <= k < next ==> line.styles[k].position <= Offset(line.graphemes, i) + part
    requires Offset(line.graphemes, i) + part <= line.styles[next].position
             < Offset(line.graphemes, i) + |line.graphemes[i].bytes|
    ensures InStep(line, out', cells + GlyphCells(line, i, on, line.styles[next].position - Offset(line.graphemes, i)),
                   saved', next + 1, on)
  {
    var p := line.styles[next];
    var bytes, to := line.graphemes[i].bytes, p.position - Offset(line.graphemes, i);
    ghost var before, after := cells + GlyphCells(line, i, on, part), cells + GlyphCells(line, i, on, to);
    SendText(line, out, before, saved, next, on, bytes[part..to]);
    GlyphStretch(line, i, on, part, to, next);
    assert before + Painted(bytes[part..to], Covered(Source(line.styles, next), on)) == after;
    out' := out + Bytes(bytes[part..to]);
    SendStyle(line, out', after, saved, next, on);
    out' := out' + [Escape(p.params)] + (if on.Some? then Escapes(on.value) else []);
    saved' := Save(saved, p.params);
  }

  lemma RestOfGrapheme(line: Line, i: nat, out: seq<Out>, cells: seq<Cell>, saved: Saved, next: nat,
                       on: Option<Overlay>, part: nat)
    requires ValidLine(line) && i < |line.graphemes| && part <= |line.graphemes[i].bytes| && next <= |line.styles|
    requires InStep(line, out, cells + GlyphCells(line, i, on, part), saved, next, on)
    requires forall k :: 0 <= k < next ==> line.styles[k].position <= Offset(line.graphemes, i) + part
    requires next < |line.styles| ==>
               line.styles[next].position >= Offset(line.graphemes, i) + |line.graphemes[i].bytes|
    ensures InStep(line, out + Bytes(line.graphemes[i].bytes[part..]),
                   cells + GlyphCells(line, i, on, |line.graphemes[i].bytes|), saved, next, on)
  {
    hide InStep;
    var bytes := line.graphemes[i].bytes;
    var before := cells + GlyphCells(line, i, on, part);
    SendText(line, out, before, saved, next, on, bytes[part..]);
    GlyphStretch(line, i, on, part, |bytes|, next);
    assert bytes[part..|bytes|] == bytes[part..];
    assert before + Painted(bytes[part..], Covered(Source(line.styles, next), on))
        == cells + GlyphCells(line, i, on, |bytes|);
  }

  /** One whole grapheme: styles inside it are sent between its bytes and do not split it. */
  method SendGrapheme(line: Line, i: nat, out: seq<Out>, ghost cells: seq<Cell>, saved: Saved, next: nat,
                      on: Option<Overlay>)
    returns (out': seq<Out>, saved': Saved, next': nat)
    requires ValidLine(line) && i < |line.graphemes| && InStep(line, out, cells, saved, next, on)
    requires SentBefore(line, next, Offset(line.graphemes, i) + 1)
    ensures InStep(line, out', cells + GlyphCells(line, i, on, |line.graphemes[i].bytes|), saved', next', on)
    ensures SentBefore(line, next', Offset(line.graphemes, i + 1))
  {
    var bytes, offset := line.graphemes[i].bytes, Offset(line.graphemes, i);
    assert Offset(line.graphemes, i + 1) == offset + |bytes|;
    assert next <= |line.styles|;
    hide InStep, Offset, StylesThrough, Source, Covered, Emitted;
    var part := 0;
    out', saved', next' := out, saved, next;
    assert cells + GlyphCells(line, i, on, 0) == cells;
    while next' < |line.styles| && line.styles[next'].position < offset + |bytes|
      invariant 0 <= part < |bytes| && next' <= |line.styles|
      invariant InStep(line, out', cells + GlyphCells(line, i, on, part), saved', next', on)
      invariant forall k :: 0 <= k < next' ==> line.styles[k].position <= offset + part
      invariant next' < |line.styles| ==> line.styles[next'].position >= offset + part
    {
      out', saved' := SendStretch(line, i, out', cells, saved', next', on, part);
      next', part := next' + 1, line.styles[next'].position - offset;
    }
    RestOfGrapheme(line, i, out', cells, saved', next', on, part);
    out' := out' + Bytes(bytes[part..]);
  }

  lemma NoPart(line: Line, h: Highlights, i: nat, start: nat, end: nat)
    requires i < |line.graphemes| && Column(line.graphemes, i) >= end
    ensures Part(line, h, i, start, end) == []
  {
  }

  lemma {:induction false} NothingPastTheEnd(line: Line, h: Highlights, i: nat, n: nat, start: nat, end: nat)
    requires i <= n <= |line.graphemes| && Column(line.graphemes, i) >= end
    ensures Window(line, h, n, start, end) == Window(line, h, i, start, end)
    decreases n
  {
    hide Part, Column;
    if i < n {
      NothingPastTheEnd(line, h, i, n - 1, start, end);
      LayoutGrows(line.graphemes, i, n - 1);
      NoPart(line, h, n - 1, start, end);
      assert Window(line, h, n - 1, start, end) + [] == Window(line, h, n - 1, start, end);
    }
  }

  /** A grapheme that does not fit: its styles are sent, and blanks for the columns it reaches into. */
  method CutGrapheme(line: Line, i: nat, start: nat, end: nat, out: seq<Out>, ghost cells: seq<Cell>,
                     saved: Saved, next: nat, on: Option<Overlay>)
    returns (out': seq<Out>, saved': Saved, next': nat)
    requires ValidLine(line) && i < |line.graphemes| && start < end && Column(line.graphemes, i) < end
    requires InStep(line, out, cells, saved, next, on) && SentBefore(line, next, Offset(line.graphemes, i) + 1)
    ensures InStep(line, out', cells + Painted(Blanks(Reach(line.graphemes, i, start, end)),
                                               Covered(SourceAt(line.styles, Offset(line.graphemes, i + 1) - 1), on)),
                   saved', next', on)
    ensures SentBefore(line, next', Offset(line.graphemes, i + 1))
  {
    var g := line.graphemes;
    hide InStep, Emitted;
    assert Offset(g, i) + 1 <= Offset(g, i + 1);
    out', saved', next' := SkipStyles(line, out, cells, saved, next, on, Offset(g, i) + 1, Offset(g, i + 1));
    StylesThroughIs(line.styles, Offset(g, i + 1) - 1, next');
    hide StylesThrough, SentBefore, Offset, Covered;
    if Column(g, i + 1) > start {
      var blanks := Blanks(Min(Column(g, i + 1), end) - Max(Column(g, i), start));
      assert |blanks| == Reach(g, i, start, end);
      SendText(line, out', cells, saved', next', on, blanks);
      out' := out' + Bytes(blanks);
    } else {
      assert cells + Painted(Blanks(0), Covered(Source(line.styles, next'), on)) == cells;
    }
  }

  /** One grapheme of the loop, whole or cut; `next` counts the styles sent so far. */
  method ClipGrapheme(line: Line, h: Highlights, i: nat, start: nat, end: nat, out: seq<Out>, ghost cells: seq<Cell>,
                      saved: Saved, next: nat, on: Option<Overlay>)
    returns (out': seq<Out>, saved': Saved, next': nat)
    requires ValidLine(line) && i < |line.graphemes| && start < end && Column(line.graphemes, i) < end
    requires InStep(line, out, cells, saved, next, on) && SentBefore(line, next, Offset(line.graphemes, i) + 1)
    requires on == Chosen(h, Column(line.graphemes, i), Column(line.graphemes, i + 1))
    ensures InStep(line, out', cells + Part(line, h, i, start, end), saved', next', on)
    ensures SentBefore(line, next', Offset(line.graphemes, i + 1))
  {
    hide InStep, SentBefore, Chosen, Covered, SourceAt;
    if start <= Column(line.graphemes, i) && Column(line.graphemes, i + 1) <= end {
      out', saved', next' := SendGrapheme(line, i, out, cells, saved, next, on);
    } else {
      out', saved', next' := CutGrapheme(line, i, start, end, out, cells, saved, next, on);
    }
  }

  /** The ranges before the cursor all ended at or before `column`. */
  ghost predicate Passed(ranges: seq<Range>, index: nat, column: nat) {
    index <= |ranges| && forall k :: 0 <= k < index ==> ranges[k].end <= column
  }

  /** The overlay for the columns of one grapheme, with both cursors moved up to it. */
  method Choose(h: Highlights, rangeIndex: nat, activeIndex: nat, start: nat, end: nat)
    returns (highlight: Option<Overlay>, nextRange: nat, nextActive: nat)
    requires Ordered(h.ranges) && Ordered(h.active) && start <= end
    requires Passed(h.ranges, rangeIndex, start) && Passed(h.active, activeIndex, start)
    ensures highlight == Chosen(h, start, end)
    ensures Passed(h.ranges, nextRange, end) && Passed(h.active, nextActive, end)
  {
    nextRange := rangeIndex;
    var found;
    found, nextActive := Overlaps(h.active, activeIndex, start, end);
    if found {
      return Some(h.activeOverlay), nextRange, nextActive;
    }
    found, nextRange := Overlaps(h.ranges, rangeIndex, start, end);
    highlight := if found then Some(h.overlay) else None;
  }

  /** Change overlay only when it differs; going through the source state. */
  method SwitchTo(line: Line, out: seq<Out>, ghost cells: seq<Cell>, saved: Saved, ghost next: nat,
                  on: Option<Overlay>, highlight: Option<Overlay>)
    returns (out': seq<Out>)
    requires InStep(line, out, cells, saved, next, on)
    ensures InStep(line, out', cells, saved, next, highlight)
  {
    out' := out;
    if on != highlight {
      Switch(line, out, cells, saved, next, on, highlight);
      out' := out + Escapes(Restore(saved)) + (if highlight.Some? then Escapes(highlight.value) else []);
    }
  }

  /** The two range cursors and the overlay that is on, together with the saved source state. */
  datatype Cursors = Cursors(saved: Saved, next: nat, on: Option<Overlay>, rangeIndex: nat, activeIndex: nat)

  /** Everything before grapheme `i` has been dealt with. */
  ghost predicate Ready(line: Line, h: Highlights, i: nat, start: nat, end: nat, out: seq<Out>, c: Cursors) {
    && i <= |line.graphemes|
    && InStep(line, out, Window(line, h, i, start, end), c.saved, c.next, c.on)
    && SentBefore(line, c.next, Offset(line.graphemes, i))
    && Passed(h.ranges, c.rangeIndex, Column(line.graphemes, i))
    && Passed(h.active, c.activeIndex, Column(line.graphemes, i))
  }

  /** One grapheme under its overlay. */
  method SendUnder(line: Line, h: Highlights, i: nat, start: nat, end: nat, out: seq<Out>, ghost cells: seq<Cell>,
                   saved: Saved, next: nat, on: Option<Overlay>, highlight: Option<Overlay>)
    returns (out': seq<Out>, saved': Saved, next': nat)
    requires ValidLine(line) && i < |line.graphemes| && start < end && Column(line.graphemes, i) < end
    requires InStep(line, out, cells, saved, next, on) && SentBefore(line, next, Offset(line.graphemes, i) + 1)
    requires highlight == Chosen(h, Column(line.graphemes, i), Column(line.graphemes, i + 1))
    ensures InStep(line, out', cells + Part(line, h, i, start, end), saved', next', highlight)
    ensures SentBefore(line, next', Offset(line.graphemes, i + 1))
  {
    hide InStep, SentBefore, Part, Chosen, ValidLine, Column, Offset;
    out' := SwitchTo(line, out, cells, saved, next, on, highlight);
    out', saved', next' := ClipGrapheme(line, h, i, start, end, out', cells, saved, next, highlight);
  }

  /** One turn of the loop: styles, then the overlay, then the grapheme. */
  method ClipStep(line: Line, h: Highlights, i: nat, start: nat, end: nat, out: seq<Out>, c: Cursors)
    returns (out': seq<Out>, c': Cursors)
    requires ValidLine(line) && Ordered(h.ranges) && Ordered(h.active)
    requires i < |line.graphemes| && start < end && Column(line.graphemes, i) < end
    requires Ready(line, h, i, start, end, out, c)
    ensures Ready(line, h, i + 1, start, end, out', c')
    ensures Column(line.graphemes, i + 1) == Column(line.graphemes, i) + line.graphemes[i].width
  {
    ghost var cells := Window(line, h, i, start, end);
    assert Window(line, h, i + 1, start, end) == cells + Part(line, h, i, start, end);
    var offset, column := Offset(line.graphemes, i), Column(line.graphemes, i);
    var after := column + line.graphemes[i].width;
    assert after == Column(line.graphemes, i + 1);
    hide InStep, SentBefore, Part, Chosen, Passed, Ordered, ValidLine, Column, Offset, Window;
    var saved, next;
    out', saved, next := SkipStyles(line, out, cells, c.saved, c.next, c.on, offset, offset + 1);
    var highlight, rangeIndex, activeIndex := Choose(h, c.rangeIndex, c.activeIndex, column, after);
    out', saved, next := SendUnder(line, h, i, start, end, out', cells, saved, next, c.on, highlight);
    c' := Cursors(saved, next, highlight, rangeIndex, activeIndex);
  }

  lemma Begin(line: Line, h: Highlights, start: nat, end: nat)
    ensures Ready(line, h, 0, start, end, [], Cursors(map[], 0, None, 0, 0)) && Column(line.graphemes, 0) == 0
  {
  }

  /** What the clip of a window promises: the window on the screen, and the plain state after it. */
  ghost predicate Shows(line: Line, h: Highlights, start: nat, end: nat, result: seq<Out>) {
    Show(result) == Screen(Window(line, h, |line.graphemes|, start, end), PLAIN)
  }

  lemma ResetIsPlain(a: Attributes)
    ensures Interpret(a, [0]) == PLAIN
  {
    assert [0][1..] == [];
  }

  lemma Finish(line: Line, h: Highlights, i: nat, start: nat, end: nat, out: seq<Out>, c: Cursors)
    requires Ready(line, h, i, start, end, out, c)
    requires i < |line.graphemes| ==> Column(line.graphemes, i) >= end
    ensures Shows(line, h, start, end, out + [Escape([0])])
  {
    hide Show, Interpret, Window, SentBefore, Passed, Source, Covered, Denotes, Saves;
    ShowOne(out, Escape([0]));
    ResetIsPlain(Show(out).attributes);
    if i < |line.graphemes| {
      NothingPastTheEnd(line, h, i, |line.graphemes|, start, end);
    }
  }

  /**
   The clip. A terminal that receives it shows, grapheme by grapheme, the
   source line inside the window, every byte in the source state at that byte
   under the overlay its grapheme meets, and ends in its plain state.
   */
  method ClipWithOverlays(line: Line, start: nat, width: nat, h: Highlights) returns (result: seq<Out>)
    requires ValidLine(line) && Ordered(h.ranges) && Ordered(h.active)
    ensures if width == 0 then result == [] else Shows(line, h, start, start + width, result)
  {
    hide *;
    if width == 0 {
      return [];
    }
    var end := start + width;
    result := [];
    var column, i := 0, 0;
    var c := Cursors(map[], 0, None, 0, 0);
    Begin(line, h, start, end);
    while i < |line.graphemes| && column < end
      invariant i <= |line.graphemes| && column == Column(line.graphemes, i)
      invariant Ready(line, h, i, start, end, result, c)
    {
      result, c := ClipStep(line, h, i, start, end, result, c);
      column, i := column + line.graphemes[i].width, i + 1;
    }
    Finish(line, h, i, start, end, result, c);
    result := result + [Escape([0])];
  }
}
