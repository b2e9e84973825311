/**
 Every wrap on a page is forced, on every run: the word that follows had no
 room behind the text on its line, or a grapheme of a sliced word had none.
 */
module WrapBreaks {
  import opened Options
  import opened WrapLayout
  import opened WrapLaws
  import opened WrapExact

  // ---------- Which flushes wrap ----------

  /** A flush from here breaks the line at `i`, before the word. */
  ghost predicate Wraps(s: State, i: nat)
    requires Segments(s.segment)
  {
    |s.out| == i && NoRoom(s)
  }

  ghost predicate WrapsAt(s: State, text: string, style: Style, k: nat, i: nat)
    requires Segments(s.segment) && k < |text|
  {
    IsBreak(text[k]) && Wraps(Text(s, text[..k], style), i)
  }

  ghost predicate TextWraps(s: State, text: string, style: Style, i: nat)
    requires Segments(s.segment)
  {
    exists k :: 0 <= k < |text| && WrapsAt(s, text, style, k, i)
  }

  ghost predicate OpWraps(s: State, op: Op, i: nat)
    requires Segments(s.segment)
  {
    match op
    case DoText(text, style) => TextWraps(s, text, style, i)
    case DoSoftBreak | DoFinish | DoHardBreak => Wraps(s, i)
    case _ => false
  }

  ghost predicate WrapsIn(s: State, ops: seq<Op>, k: nat, i: nat)
    requires Segments(s.segment) && k < |ops|
  {
    OpWraps(DoAll(s, ops[..k]), ops[k], i)
  }

  /** Some flush of the run had no room for its word and began at `i`. */
  ghost predicate RunWraps(s: State, ops: seq<Op>, i: nat)
    requires Segments(s.segment)
  {
    exists k :: 0 <= k < |ops| && WrapsIn(s, ops, k, i)
  }

  /** A text wraps before its last character or in it. */
  lemma TextWrapsLast(s: State, text: string, style: Style, i: nat)
    requires Segments(s.segment) && |text| > 0
    ensures TextWraps(s, text, style, i)
       <==> TextWraps(s, text[..|text| - 1], style, i) || WrapsAt(s, text, style, |text| - 1, i)
  {
    hide Wraps;
    var front := text[..|text| - 1];
    forall k | 0 <= k < |front| ensures WrapsAt(s, front, style, k, i) == WrapsAt(s, text, style, k, i) {
      assert front[..k] == text[..k];
    }
    hide WrapsAt;
    if TextWraps(s, front, style, i) {
      var k :| 0 <= k < |front| && WrapsAt(s, front, style, k, i);
      assert WrapsAt(s, text, style, k, i);
    }
  }

  /** A run wraps before its last operation or in it. */
  lemma RunWrapsLast(s: State, ops: seq<Op>, i: nat)
    requires Segments(s.segment) && |ops| > 0
    ensures RunWraps(s, ops, i) <==> RunWraps(s, ops[..|ops| - 1], i) || WrapsIn(s, ops, |ops| - 1, i)
  {
    hide OpWraps;
    var front := ops[..|ops| - 1];
    forall k | 0 <= k < |front| ensures WrapsIn(s, front, k, i) == WrapsIn(s, ops, k, i) {
      assert front[..k] == ops[..k];
    }
    hide WrapsIn;
    if RunWraps(s, front, i) {
      var k :| 0 <= k < |front| && WrapsIn(s, front, k, i);
      assert WrapsIn(s, ops, k, i);
    }
  }

  // ---------- What a page gains ----------

  /** Going from one page to a longer one, every new wrap is forced, and there is one at `i` if `wraps`. */
  ghost predicate Forced(width: nat, before: seq<Token>, after: seq<Token>, i: nat, wraps: bool) {
    && before <= after
    && (|before| <= i < |after| && after[i] == Break(false) ==> wraps || NeededByNext(width, after, i))
    && (wraps ==> |before| <= i < |after| && after[i] == Break(false))
  }

  /** What forced a wrap stays true as the page grows. */
  lemma ForcedThenForced(width: nat, a: seq<Token>, b: seq<Token>, c: seq<Token>, i: nat, early: bool, late: bool)
    requires Forced(width, a, b, i, early) && Forced(width, b, c, i, late)
    ensures Forced(width, a, c, i, early || late)
  {
    hide LineWidth;
    if i < |b| { assert b[..i] == c[..i]; }
  }

  lemma FlushForced(s: State, i: nat)
    requires Counted(s)
    ensures Counted(FlushWord(s)) && Forced(s.width.value, s.out, FlushWord(s).out, i, Wraps(s, i))
  {
    hide FlushWord, LineWidth, NeededByNext;
    FlushCounts(s);
    FlushGrows(s);
    FlushBreaksAreNeeded(s, i);
  }

  lemma {:induction false} TextForced(s: State, text: string, style: Style, i: nat)
    requires Counted(s)
    ensures Counted(Text(s, text, style))
    ensures Forced(s.width.value, s.out, Text(s, text, style).out, i, TextWraps(s, text, style, i))
  {
    hide FlushWord, LineWidth, Forced, Wraps, TextWraps;
    if |text| > 0 {
      var front := text[..|text| - 1];
      var t := Text(s, front, style);
      TextForced(s, front, style, i);
      TextWrapsLast(s, text, style, i);
      if IsBreak(text[|text| - 1]) {
        FlushForced(t, i);
        ForcedThenForced(s.width.value, s.out, t.out, FlushWord(t).out, i, TextWraps(s, front, style, i), Wraps(t, i));
      }
    } else {
      NothingForced(s.width.value, s.out, i);
      NoTextWraps(s, text, style, i);
    }
  }

  lemma NothingForced(width: nat, out: seq<Token>, i: nat)
    ensures Forced(width, out, out, i, false)
  {
  }

  lemma NoTextWraps(s: State, text: string, style: Style, i: nat)
    requires Segments(s.segment) && |text| == 0
    ensures !TextWraps(s, text, style, i)
  {
  }

  lemma NoOpsWrap(s: State, ops: seq<Op>, i: nat)
    requires Segments(s.segment) && |ops| == 0
    ensures !RunWraps(s, ops, i)
  {
  }

  /** A token that is no wrap. */
  lemma PlainToken(width: nat, out: seq<Token>, t: Token, i: nat)
    requires t != Break(false)
    ensures Forced(width, out, out + [t], i, false)
  {
  }

  lemma OpForced(s: State, op: Op, i: nat)
    requires Counted(s)
    ensures Counted(Do(s, op)) && Forced(s.width.value, s.out, Do(s, op).out, i, OpWraps(s, op, i))
  {
    hide FlushWord, Text, LineWidth, LineHasText, EndsInText, Tight, Forced, Wraps, TextWraps;
    var width := s.width.value;
    FlushForced(s, i);
    FlushKeeps(s);
    NothingForced(width, s.out, i);
    match op
    case DoText(text, style) => TextForced(s, text, style, i);
    case DoHardBreak =>
      var t := Finish(s);
      More(width, t.out, Break(true));
      PlainToken(width, t.out, Break(true), i);
      ForcedThenForced(width, s.out, t.out, t.out + [Break(true)], i, Wraps(s, i), false);
    case DoReset(column, indent) =>
      More(width, s.out, Start(column));
      PlainToken(width, s.out, Start(column), i);
    case _ =>
  }

  lemma {:induction false} RunForced(s: State, ops: seq<Op>, i: nat)
    requires Counted(s)
    ensures Counted(DoAll(s, ops)) && Forced(s.width.value, s.out, DoAll(s, ops).out, i, RunWraps(s, ops, i))
  {
    assert Segments(s.segment);
    hide Do, Forced, OpWraps, RunWraps, Counted, Segments;
    if |ops| > 0 {
      var front, op := ops[..|ops| - 1], ops[|ops| - 1];
      var t := DoAll(s, front);
      RunForced(s, front, i);
      RunWrapsLast(s, ops, i);
      OpForced(t, op, i);
      assert s.width.Some? by { CountedWidth(s); }
      ForcedThenForced(s.width.value, s.out, t.out, Do(t, op).out, i, RunWraps(s, front, i), OpWraps(t, op, i));
    } else {
      CountedWidth(s);
      NothingForced(s.width.value, s.out, i);
      NoOpsWrap(s, ops, i);
    }
  }

  lemma CountedWidth(s: State)
    requires Counted(s)
    ensures s.width.Some?
  {
  }

  /**
   On the page of any run, every wrap is forced: a flush began there and its
   word had no room behind the text on the line, or the grapheme behind the wrap
   had none. And every flush without room for its word wraps where it begins.
   */
  lemma RunBreaksAreNeeded(width: nat, segment: Segmenter, ops: seq<Op>, i: nat)
    requires Segments(segment)
    ensures var s, page := New(width, segment), DoAll(New(width, segment), ops).out;
            && (i < |page| && page[i] == Break(false) ==>
                  RunWraps(s, ops, i) || NeededByNext(s.width.value, page, i))
            && (RunWraps(s, ops, i) ==> i < |page| && page[i] == Break(false))
  {
    RunForced(New(width, segment), ops, i);
  }
}
