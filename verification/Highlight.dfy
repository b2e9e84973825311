/**
 How search matches become highlighted cells: the byte ranges found in each
 line turn into columns (`column_ranges`), the columns of all rows into one
 list of spans, the spans of a row into merged ranges (`row_ranges`), and
 those drive the clipper.
 */
module Highlight {
  import opened Clip
  import opened Sequences

  /** `LinkSpan`: columns of one row. */
  datatype Span = Span(row: nat, start: nat, end: nat)

  // ---------- column_ranges ----------

  function EndOffset(g: seq<Grapheme>, i: nat): nat
    requires i < |g|
  {
    Offset(g, i + 1)
  }

  /** `partition_point`: the first grapheme that ends after byte `b`. */
  function FirstEndingAfter(g: seq<Grapheme>, b: nat, n: nat): (k: nat)
    requires n <= |g|
    ensures k <= n
    ensures forall i :: 0 <= i < k ==> EndOffset(g, i) <= b
    ensures forall i :: k <= i < n ==> EndOffset(g, i) > b
  {
    if n == 0 then 0
    else if EndOffset(g, n - 1) <= b then (EndsBelow(g, n, b); n)
    else FirstEndingAfter(g, b, n - 1)
  }

  lemma {:induction false} EndsBelow(g: seq<Grapheme>, n: nat, b: nat)
    requires 0 < n <= |g| && EndOffset(g, n - 1) <= b
    ensures forall i :: 0 <= i < n ==> EndOffset(g, i) <= b
  {
    forall i | 0 <= i < n ensures EndOffset(g, i) <= b { LayoutGrows(g, i + 1, n); }
  }

  /** `partition_point`: the first grapheme that does not start before byte `b`. */
  function FirstStartingFrom(g: seq<Grapheme>, b: nat, n: nat): (k: nat)
    requires n <= |g|
    ensures k <= n
    ensures forall i :: 0 <= i < k ==> Offset(g, i) < b
    ensures forall i :: k <= i < n ==> Offset(g, i) >= b
  {
    if n == 0 then 0
    else if Offset(g, n - 1) < b then (StartsBelow(g, n, b); n)
    else FirstStartingFrom(g, b, n - 1)
  }

  lemma {:induction false} StartsBelow(g: seq<Grapheme>, n: nat, b: nat)
    requires 0 < n <= |g| && Offset(g, n - 1) < b
    ensures forall i :: 0 <= i < n ==> Offset(g, i) < b
  {
    forall i | 0 <= i < n ensures Offset(g, i) < b { LayoutGrows(g, i, n - 1); }
  }

  /** A grapheme lies, at least in part, in one of the byte ranges. */
  predicate Touched(g: seq<Grapheme>, i: nat, ranges: seq<Range>)
    requires i < |g|
  {
    MeetsAny(ranges, Offset(g, i), Offset(g, i + 1))
  }

  /** The column ranges cover exactly the graphemes that the byte ranges touch, zero-width ones aside. */
  ghost predicate SameGraphemes(g: seq<Grapheme>, columns: seq<Range>, ranges: seq<Range>) {
    forall i :: 0 <= i < |g| && g[i].width > 0 ==>
      (MeetsAny(columns, Column(g, i), Column(g, i + 1)) <==> Touched(g, i, ranges))
  }

  lemma ColumnsOfBytes(g: seq<Grapheme>, r: Range, i: nat)
    requires i < |g| && g[i].width > 0
    ensures var first, last := FirstEndingAfter(g, r.start, |g|), FirstStartingFrom(g, r.end, |g|);
            Meets(r, Offset(g, i), Offset(g, i + 1))
            <==>
            (first < last && Meets(Range(Column(g, first), Column(g, last)), Column(g, i), Column(g, i + 1)))
  {
    var first, last := FirstEndingAfter(g, r.start, |g|), FirstStartingFrom(g, r.end, |g|);
    assert EndOffset(g, i) == Offset(g, i + 1);
    if i < first { LayoutGrows(g, i + 1, first); } else { LayoutGrows(g, first, i); }
    if i < last { LayoutGrows(g, i + 1, last); } else { LayoutGrows(g, last, i); }
  }

  lemma MeetsMore(ranges: seq<Range>, r: Range, start: nat, end: nat)
    ensures MeetsAny(ranges + [r], start, end) <==> MeetsAny(ranges, start, end) || Meets(r, start, end)
  {
    var more := ranges + [r];
    assert more[|ranges|] == r;
    assert forall k :: 0 <= k < |ranges| ==> more[k] == ranges[k];
  }

  lemma OneMoreRange(g: seq<Grapheme>, columns: seq<Range>, ranges: seq<Range>, r: Range)
    requires SameGraphemes(g, columns, ranges)
    ensures var first, last := FirstEndingAfter(g, r.start, |g|), FirstStartingFrom(g, r.end, |g|);
            SameGraphemes(g, if first < last then columns + [Range(Column(g, first), Column(g, last))] else columns,
                          ranges + [r])
  {
    hide FirstEndingAfter, FirstStartingFrom, MeetsAny, Meets, Offset, Column;
    var first, last := FirstEndingAfter(g, r.start, |g|), FirstStartingFrom(g, r.end, |g|);
    forall i | 0 <= i < |g| && g[i].width > 0
      ensures var more := if first < last then columns + [Range(Column(g, first), Column(g, last))] else columns;
              MeetsAny(more, Column(g, i), Column(g, i + 1)) <==> Touched(g, i, ranges + [r])
    {
      ColumnsOfBytes(g, r, i);
      MeetsMore(ranges, r, Offset(g, i), Offset(g, i + 1));
      MeetsMore(columns, Range(Column(g, first), Column(g, last)), Column(g, i), Column(g, i + 1));
    }
  }

  /** Ranges in the order of where they start. */
  ghost predicate Starting(ranges: seq<Range>) {
    && (forall k :: 0 <= k < |ranges| ==> ranges[k].start <= ranges[k].end)
    && (forall i, j :: 0 <= i < j < |ranges| ==> ranges[i].start <= ranges[j].start)
  }

  lemma {:induction false} LaterEndsLater(g: seq<Grapheme>, a: nat, b: nat, n: nat)
    requires a <= b && n <= |g|
    ensures FirstEndingAfter(g, a, n) <= FirstEndingAfter(g, b, n)
  {
    if n > 0 { LaterEndsLater(g, a, b, n - 1); }
  }

  lemma LaterStartsLater(g: seq<Grapheme>, a: nat, b: nat)
    requires a <= b
    ensures Column(g, FirstEndingAfter(g, a, |g|)) <= Column(g, FirstEndingAfter(g, b, |g|))
  {
    LaterEndsLater(g, a, b, |g|);
    LayoutGrows(g, FirstEndingAfter(g, a, |g|), FirstEndingAfter(g, b, |g|));
  }

  /** `column_ranges` */
  method ColumnRanges(g: seq<Grapheme>, ranges: seq<Range>) returns (columns: seq<Range>)
    requires Starting(ranges)
    ensures SameGraphemes(g, columns, ranges) && Starting(columns)
  {
    columns := [];
    hide SameGraphemes, Column;
    assert SameGraphemes(g, [], ranges[..0]) by { NoRanges(g, ranges[..0]); }
    for n := 0 to |ranges|
      invariant SameGraphemes(g, columns, ranges[..n]) && Starting(columns)
      invariant forall k :: 0 <= k < |columns| ==>
                  exists m :: 0 <= m < n && columns[k].start == Column(g, FirstEndingAfter(g, ranges[m].start, |g|))
    {
      var r := ranges[n];
      var first, last := FirstEndingAfter(g, r.start, |g|), FirstStartingFrom(g, r.end, |g|);
      OneMoreRange(g, columns, ranges[..n], r);
      assert ranges[..n + 1] == ranges[..n] + [r];
      if first < last {
        LayoutGrows(g, first, last);
        forall k | 0 <= k < |columns| ensures columns[k].start <= Column(g, first) {
          var m :| 0 <= m < n && columns[k].start == Column(g, FirstEndingAfter(g, ranges[m].start, |g|));
          LaterStartsLater(g, ranges[m].start, r.start);
        }
        columns := columns + [Range(Column(g, first), Column(g, last))];
      }
    }
    assert ranges[..|ranges|] == ranges;
  }

  lemma NoRanges(g: seq<Grapheme>, none: seq<Range>)
    requires none == []
    ensures SameGraphemes(g, [], none)
  {
  }

  // ---------- row_ranges ----------

  ghost predicate SpansSorted(spans: seq<Span>) {
    && (forall k :: 0 <= k < |spans| ==> spans[k].start <= spans[k].end)
    && (forall i, j :: 0 <= i < j < |spans| ==>
          spans[i].row < spans[j].row || (spans[i].row == spans[j].row && spans[i].start <= spans[j].start))
  }

  /** Some span of the row, among the first `n`, meets the columns. */
  ghost predicate RowMeets(spans: seq<Span>, n: nat, row: nat, start: nat, end: nat)
    requires n <= |spans|
  {
    exists k :: 0 <= k < n && spans[k].row == row && spans[k].end > start && spans[k].start < end
  }

  /** The ranges cover the columns that the row's spans cover. */
  ghost predicate SameColumns(ranges: seq<Range>, spans: seq<Span>, n: nat, row: nat)
    requires n <= |spans|
  {
    forall start, end :: 0 <= start < end ==>
      (MeetsAny(ranges, start, end) <==> RowMeets(spans, n, row, start, end))
  }

  /** Ranges in reading order with a gap between each and the next. */
  ghost predicate Apart(ranges: seq<Range>) {
    && (forall i :: 0 <= i < |ranges| ==> ranges[i].start <= ranges[i].end)
    && (forall i, j :: 0 <= i < j < |ranges| ==> ranges[i].end < ranges[j].start)
  }

  /** One span of the row, merged into the ranges built so far. */
  function Merge(ranges: seq<Range>, s: Span): seq<Range> {
    if |ranges| > 0 && ranges[|ranges| - 1].end >= s.start then
      var last := ranges[|ranges| - 1];
      ranges[|ranges| - 1 := Range(last.start, Max(last.end, s.end))]
    else ranges + [Range(s.start, s.end)]
  }

  lemma MergeMeets(ranges: seq<Range>, s: Span, start: nat, end: nat)
    requires s.start <= s.end && start < end
    requires |ranges| > 0 ==> ranges[|ranges| - 1].start <= s.start
    ensures MeetsAny(Merge(ranges, s), start, end)
            <==> (MeetsAny(ranges, start, end) || Meets(Range(s.start, s.end), start, end))
  {
    if |ranges| > 0 && ranges[|ranges| - 1].end >= s.start {
      var n := |ranges| - 1;
      MeetsMore(ranges[..n], ranges[n], start, end);
      assert ranges == ranges[..n] + [ranges[n]];
      MeetsMore(ranges[..n], Merge(ranges, s)[n], start, end);
      assert Merge(ranges, s) == ranges[..n] + [Merge(ranges, s)[n]];
    } else {
      MeetsMore(ranges, Range(s.start, s.end), start, end);
    }
  }

  lemma OneMoreSpan(ranges: seq<Range>, spans: seq<Span>, n: nat, row: nat)
    requires n < |spans| && spans[n].row == row && spans[n].start <= spans[n].end
    requires |ranges| > 0 ==> ranges[|ranges| - 1].start <= spans[n].start
    requires SameColumns(ranges, spans, n, row)
    ensures SameColumns(Merge(ranges, spans[n]), spans, n + 1, row)
  {
    hide Merge, MeetsAny;
    forall start: nat, end: nat | start < end
      ensures MeetsAny(Merge(ranges, spans[n]), start, end) <==> RowMeets(spans, n + 1, row, start, end)
    {
      MergeMeets(ranges, spans[n], start, end);
      assert RowMeets(spans, n + 1, row, start, end)
        <==> (RowMeets(spans, n, row, start, end) || Meets(Range(spans[n].start, spans[n].end), start, end));
    }
  }

  /** The cursor stands at the first span of `row` or of a later one. */
  ghost predicate AtRow(spans: seq<Span>, index: nat, row: nat) {
    && index <= |spans|
    && (forall k :: 0 <= k < index ==> spans[k].row < row)
    && (forall k :: index <= k < |spans| ==> spans[k].row >= row)
  }

  /** `row_ranges`: it consumes the row's spans and leaves the cursor at the next row. */
  method RowRanges(spans: seq<Span>, index: nat, row: nat) returns (ranges: seq<Range>, next: nat)
    requires SpansSorted(spans) && AtRow(spans, index, row)
    ensures Apart(ranges) && Ordered(ranges)
    ensures SameColumns(ranges, spans, |spans|, row)
    ensures AtRow(spans, next, row + 1)
  {
    ranges, next := [], index;
    while next < |spans| && spans[next].row == row
      invariant index <= next <= |spans|
      invariant forall k :: index <= k < next ==> spans[k].row == row
      invariant Apart(ranges) && SameColumns(ranges, spans, next, row)
      invariant |ranges| > 0 && next < |spans| && spans[next].row == row ==>
                  ranges[|ranges| - 1].start <= spans[next].start
    {
      OneMoreSpan(ranges, spans, next, row);
      hide SameColumns;
      ranges, next := Merge(ranges, spans[next]), next + 1;
    }
    forall k | next <= k < |spans| ensures spans[k].row >= row + 1 {
      if k > next { assert spans[next].row <= spans[k].row; }
    }
    assert SameColumns(ranges, spans, |spans|, row) by {
      forall start: nat, end: nat | start < end
        ensures RowMeets(spans, next, row, start, end) <==> RowMeets(spans, |spans|, row, start, end)
      {
      }
    }
  }

  // ---------- From a search to the rows on the screen ----------

  function ToSpans(columns: seq<Range>, row: nat): (spans: seq<Span>)
    ensures |spans| == |columns|
    ensures forall k :: 0 <= k < |spans| ==> spans[k] == Span(row, columns[k].start, columns[k].end)
  {
    seq(|columns|, k requires 0 <= k < |columns| => Span(row, columns[k].start, columns[k].end))
  }

  /** The spans of `row` cover exactly the graphemes a match touches. */
  ghost predicate RowFollows(spans: seq<Span>, row: nat, g: seq<Grapheme>, found: seq<Range>) {
    forall i :: 0 <= i < |g| && g[i].width > 0 ==>
      (RowMeets(spans, |spans|, row, Column(g, i), Column(g, i + 1)) <==> Touched(g, i, found))
  }

  lemma SpansOfRow(spans: seq<Span>, columns: seq<Range>, row: nat, start: nat, end: nat)
    requires forall k :: 0 <= k < |spans| ==> spans[k].row < row
    ensures var all := spans + ToSpans(columns, row);
            RowMeets(all, |all|, row, start, end) <==> MeetsAny(columns, start, end)
  {
    var all := spans + ToSpans(columns, row);
    if MeetsAny(columns, start, end) {
      var k :| 0 <= k < |columns| && Meets(columns[k], start, end);
      assert all[|spans| + k] == Span(row, columns[k].start, columns[k].end);
    }
    if RowMeets(all, |all|, row, start, end) {
      var k :| 0 <= k < |all| && all[k].row == row && all[k].end > start && all[k].start < end;
      assert k >= |spans|;
      assert Meets(columns[k - |spans|], start, end);
    }
  }

  lemma SpansOfEarlierRow(spans: seq<Span>, more: seq<Span>, row: nat, start: nat, end: nat)
    requires forall k :: 0 <= k < |more| ==> more[k].row > row
    ensures RowMeets(spans + more, |spans + more|, row, start, end) <==> RowMeets(spans, |spans|, row, start, end)
  {
    var all := spans + more;
    if RowMeets(spans, |spans|, row, start, end) {
      var k :| 0 <= k < |spans| && spans[k].row == row && spans[k].end > start && spans[k].start < end;
      assert all[k] == spans[k];
    }
  }

  lemma NewRowFollows(spans: seq<Span>, columns: seq<Range>, row: nat, g: seq<Grapheme>, found: seq<Range>)
    requires forall k :: 0 <= k < |spans| ==> spans[k].row < row
    requires SameGraphemes(g, columns, found)
    ensures RowFollows(spans + ToSpans(columns, row), row, g, found)
  {
    hide ToSpans, RowMeets, MeetsAny, Touched, Column;
    forall i | 0 <= i < |g| && g[i].width > 0
      ensures var all := spans + ToSpans(columns, row);
              RowMeets(all, |all|, row, Column(g, i), Column(g, i + 1)) <==> Touched(g, i, found)
    {
      SpansOfRow(spans, columns, row, Column(g, i), Column(g, i + 1));
    }
  }

  lemma OldRowFollows(spans: seq<Span>, more: seq<Span>, row: nat, g: seq<Grapheme>, found: seq<Range>)
    requires forall k :: 0 <= k < |more| ==> more[k].row > row
    requires RowFollows(spans, row, g, found)
    ensures RowFollows(spans + more, row, g, found)
  {
    hide RowMeets, Touched, Column;
    forall i | 0 <= i < |g| && g[i].width > 0
      ensures RowMeets(spans + more, |spans + more|, row, Column(g, i), Column(g, i + 1)) <==> Touched(g, i, found)
    {
      SpansOfEarlierRow(spans, more, row, Column(g, i), Column(g, i + 1));
    }
  }

  /** The search over all lines: `found` holds, line by line, the byte ranges of the matches. */
  method SearchSpans(lines: seq<seq<Grapheme>>, found: seq<seq<Range>>) returns (spans: seq<Span>)
    requires |found| == |lines| && forall r :: 0 <= r < |found| ==> Starting(found[r])
    ensures SpansSorted(spans)
    ensures forall r :: 0 <= r < |lines| ==> RowFollows(spans, r, lines[r], found[r])
  {
    spans := [];
    for row := 0 to |lines|
      invariant SpansSorted(spans) && forall k :: 0 <= k < |spans| ==> spans[k].row < row
      invariant forall r :: 0 <= r < row ==> RowFollows(spans, r, lines[r], found[r])
    {
      hide RowFollows, SameGraphemes;
      var columns := ColumnRanges(lines[row], found[row]);
      NewRowFollows(spans, columns, row, lines[row], found[row]);
      forall r | 0 <= r < row ensures RowFollows(spans + ToSpans(columns, row), r, lines[r], found[r]) {
        OldRowFollows(spans, ToSpans(columns, row), r, lines[r], found[r]);
      }
      spans := spans + ToSpans(columns, row);
    }
  }

  /** `partition_point`: the first span at `row` or below it. */
  function FirstOfRow(spans: seq<Span>, row: nat, n: nat): (k: nat)
    requires SpansSorted(spans) && n <= |spans|
    requires forall j :: n <= j < |spans| ==> spans[j].row >= row
    ensures AtRow(spans, k, row)
  {
    if n == 0 then 0 else if spans[n - 1].row < row then n else FirstOfRow(spans, row, n - 1)
  }

  /** The highlight ranges of the rows of one frame, from row `y` down. */
  method FrameRanges(spans: seq<Span>, count: nat, y: nat, height: nat) returns (rows: seq<seq<Range>>)
    requires SpansSorted(spans)
    ensures |rows| == Max(0, Min(height, count - y))
    ensures forall r :: 0 <= r < |rows| ==>
              Apart(rows[r]) && Ordered(rows[r]) && SameColumns(rows[r], spans, |spans|, y + r)
  {
    rows := [];
    var index := FirstOfRow(spans, y, |spans|);
    hide SameColumns, Apart, Ordered, SpansSorted, AtRow;
    while |rows| < height && y + |rows| < count
      invariant |rows| <= Max(0, Min(height, count - y))
      invariant AtRow(spans, index, y + |rows|)
      invariant forall r :: 0 <= r < |rows| ==>
                  Apart(rows[r]) && Ordered(rows[r]) && SameColumns(rows[r], spans, |spans|, y + r)
    {
      var ranges;
      ranges, index := RowRanges(spans, index, y + |rows|);
      rows := rows + [ranges];
    }
  }

  /**
   What a reader sees: in every row of the frame, the clipper chooses an
   overlay for a grapheme exactly when a match touches it.
   */
  lemma MatchesAreHighlighted(spans: seq<Span>, row: nat, ranges: seq<Range>, g: seq<Grapheme>, found: seq<Range>,
                              i: nat, overlay: Overlay)
    requires RowFollows(spans, row, g, found) && SameColumns(ranges, spans, |spans|, row)
    requires i < |g| && g[i].width > 0
    ensures Chosen(Highlights(ranges, overlay, [], []), Column(g, i), Column(g, i + 1)).Some? <==> Touched(g, i, found)
  {
    assert Column(g, i) < Column(g, i + 1);
    assert !MeetsAny([], Column(g, i), Column(g, i + 1));
  }
}
