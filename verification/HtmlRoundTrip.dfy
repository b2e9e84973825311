/**
 Printing and projecting: a tree of elements over text comes back as its text,
 every character in the union of what the elements around it mean, with a mark
 for each block edge, break and rule, and the stack of open elements as it was.
 */
module HtmlRoundTrip {
  import opened Options
  import opened HtmlText
  import opened HtmlPrint
  import opened HtmlTree
  import opened Html

  lemma {:induction false} CellsSplit(a: seq<Piece>, b: seq<Piece>)
    ensures Cells(a + b) == Cells(a) + Cells(b)
  {
    hide Styled;
    if |a| == 0 {
      assert a + b == b;
    } else {
      assert (a + b)[1..] == a[1..] + b;
      CellsSplit(a[1..], b);
    }
  }

  lemma CellsOfText(text: string, look: Look)
    ensures Cells([Text(text, look)]) == Styled(text, look)
  {
    assert [Text(text, look)][1..] == [];
  }

  lemma StyledMore(a: string, b: string, look: Look)
    ensures Styled(a + b, look) == Styled(a, look) + Styled(b, look)
  {
  }

  // ---------- Looks ----------

  /** The stack holds the names of the open elements, each of its kind. */
  ghost predicate Stacked(stack: seq<string>, inside: seq<Opened>) {
    && |stack| == |inside|
    && forall k :: 0 <= k < |inside| ==> stack[k] == inside[k].name && stack[k] in NamesOf(inside[k].kind)
  }

  lemma NameMeans(k: Kind, name: string)
    requires name in NamesOf(k)
    ensures Inline(name) && (Bold(name) <==> k.Strong? || k.Summary?) && (Italic(name) <==> k.Emphasis?)
    ensures (Strike(name) <==> k.Struck?) && (Reverse(name) <==> k.Mono?) && (name == "summary" <==> k.Summary?)
  {
  }

  lemma HasKind(stack: seq<string>, inside: seq<Opened>, p: string -> bool, a: Kind, b: Kind)
    requires |stack| == |inside| && forall k :: 0 <= k < |inside| ==> (p(stack[k]) <==> inside[k].kind in {a, b})
    ensures Has(stack, p) <==> Within(inside, a) || Within(inside, b)
  {
    if Within(inside, a) {
      var k :| 0 <= k < |inside| && inside[k].kind == a;
      assert p(stack[k]);
    }
    if Within(inside, b) {
      var k :| 0 <= k < |inside| && inside[k].kind == b;
      assert p(stack[k]);
    }
  }

  /** The projector's look is what the open elements mean. */
  lemma LookIsMeant(stack: seq<string>, inside: seq<Opened>)
    requires Stacked(stack, inside)
    ensures LookOf(stack) == LookFor(inside)
  {
    hide Bold, Italic, Strike, Reverse, Inline, Has, NamesOf;
    forall k | 0 <= k < |inside|
      ensures Bold(stack[k]) <==> inside[k].kind in {Strong, Summary}
      ensures Italic(stack[k]) <==> inside[k].kind in {Emphasis}
      ensures Strike(stack[k]) <==> inside[k].kind in {Struck}
      ensures Reverse(stack[k]) <==> inside[k].kind in {Mono}
    {
      NameMeans(inside[k].kind, stack[k]);
    }
    HasKind(stack, inside, Bold, Strong, Summary);
    HasKind(stack, inside, Italic, Emphasis, Emphasis);
    HasKind(stack, inside, Strike, Struck, Struck);
    HasKind(stack, inside, Reverse, Mono, Mono);
  }

  // ---------- What stands in front of the rest ----------

  /** `p` projects like `cells` followed by `q`. */
  ghost predicate Prepends(s: State, whole: string, cells: seq<Cell>, t: State, rest: string, strip: bool) {
    var p, q := Projected(s, whole, strip), Projected(t, rest, strip);
    Cells(p.pieces) == cells + Cells(q.pieces) && p.state == q.state
  }

  lemma PrependsTwice(s: State, whole: string, a: seq<Cell>, t: State, middle: string, b: seq<Cell>, u: State,
                      rest: string, strip: bool)
    requires Prepends(s, whole, a, t, middle, strip) && Prepends(t, middle, b, u, rest, strip)
    ensures Prepends(s, whole, a + b, u, rest, strip)
  {
    hide Projected, Cells;
    var c := Cells(Projected(u, rest, strip).pieces);
    assert a + (b + c) == a + b + c;
  }

  /** The projection of what is left starts with one turn. */
  lemma TurnFirst(s: State, rest: string, strip: bool)
    requires |rest| > 0
    ensures var t := OneTurn(s, rest, strip);
            Prepends(s, rest, Cells(t.pieces), t.state, rest[t.consumed..], strip)
  {
    hide OneTurn, Cells;
    var t := OneTurn(s, rest, strip);
    CellsSplit(t.pieces, Projected(t.state, rest[t.consumed..], strip).pieces);
  }

  lemma {:induction false} FindAfter(e: string, tail: string)
    requires forall i :: 0 <= i < |e| ==> e[i] != '<'
    ensures Find(e + tail, Opens) == |e| + Find(tail, Opens)
  {
    FindFirst(e + tail, Opens, |e| + Find(tail, Opens));
  }

  /** Plain text at the front of a rest that is text up to its first tag. */
  lemma LeadingText(s: State, rest: string, strip: bool)
    requires s.raw.None?
    ensures var n := Find(rest, Opens);
            Prepends(s, rest, Styled(Entities(rest[..n]), LookOf(s.stack)), s, rest[n..], strip)
  {
    hide Projected, TokenEnd, TokenTurn, RawTurn, Entities, LookOf;
    var n := Find(rest, Opens);
    if n > 0 {
      TurnFirst(s, rest, strip);
      CellsOfText(Entities(rest[..n]), LookOf(s.stack));
    } else {
      assert Entities(rest[..0]) == "" by { NothingDecodes(rest[..0]); }
      assert rest[0..] == rest;
      var c := Cells(Projected(s, rest, strip).pieces);
      assert Styled("", LookOf(s.stack)) + c == c;
    }
  }

  lemma NothingDecodes(s: string)
    requires |s| == 0
    ensures Entities(s) == ""
  {
  }

  /** Written text comes out as its characters, and leaves the rest to be projected as it would have been. */
  lemma TextProjects(s: State, inside: seq<Opened>, text: seq<Spelling>, tail: string, strip: bool)
    requires s.raw.None? && Stacked(s.stack, inside) && AllProper(text)
    ensures Prepends(s, SpellAll(text) + tail, Styled(Characters(text), LookFor(inside)), s, tail, strip)
  {
    hide Projected, Entities, LookOf, LookFor, Find, SpellAll, Characters, AllProper, Styled, Cells;
    LookIsMeant(s.stack, inside);
    var e, look, read := SpellAll(text), LookFor(inside), Characters(text);
    var n := Find(tail, Opens);
    NoTagInText(text);
    FindAfter(e, tail);
    LeadingText(s, e + tail, strip);
    LeadingText(s, tail, strip);
    assert (e + tail)[..|e| + n] == e + tail[..n] && (e + tail)[|e| + n..] == tail[n..];
    SpelledTextReadsBack(text, tail[..n]);
    StyledMore(read, Entities(tail[..n]), look);
    var c := Cells(Projected(s, tail[n..], strip).pieces);
    var a, b := Styled(read, look), Styled(Entities(tail[..n]), look);
    assert a + b + c == a + (b + c);
  }

  // ---------- Tags ----------

  lemma CellsOfEdge(k: Kind)
    ensures Cells(if k == Summary then [Boundary] else []) == Edge(k)
  {
    assert [Boundary][1..] == [];
  }

  lemma CellsOfMark(piece: Piece)
    requires !piece.Text?
    ensures Cells([piece]) == [Mark(piece)]
  {
    assert [piece][1..] == [];
  }

  /** A token at the front turns into what its tag makes. */
  lemma TokenProjects(s: State, token: string, pieces: seq<Piece>, t: State, tail: string, strip: bool)
    requires s.raw.None? && |token| > 0 && token[0] == '<' && TokenEnd(token + tail) == Some(|token|)
    requires TokenTurn(s, token, strip) == (pieces, t)
    ensures Prepends(s, token + tail, Cells(pieces), t, tail, strip)
  {
    hide Projected, TokenEnd, Cells, RawTurn, TokenTurn;
    var rest := token + tail;
    assert Find(rest, Opens) == 0;
    assert rest[..|token|] == token && rest[|token|..] == tail;
    TurnFirst(s, rest, strip);
  }

  /** A tag at the front, by the name it spells. */
  lemma OpenTurns(s: State, spelt: string, name: string, attrs: seq<Attr>, slash: bool, tail: string, strip: bool)
    requires s.raw.None? && SpeltAs(spelt, name) && ProperAttrs(attrs)
    ensures var (pieces, t) := TagTurn(s, Tag(spelt, false, slash), OpenTag(spelt, attrs, slash), strip);
            Lower(spelt) == name && Prepends(s, OpenTag(spelt, attrs, slash) + tail, Cells(pieces), t, tail, strip)
  {
    hide Prepends, Cells, TagOf, TokenEnd, TagTurn, Lower, ProperAttrs, Tail;
    SpeltIsLower(spelt, name);
    OpenToken(spelt, attrs, slash, tail);
    OpenIsTag(spelt, attrs, slash);
    var (pieces, t) := TagTurn(s, Tag(spelt, false, slash), OpenTag(spelt, attrs, slash), strip);
    TokenProjects(s, OpenTag(spelt, attrs, slash), pieces, t, tail, strip);
  }

  lemma CloseTurns(s: State, spelt: string, name: string, tail: string, strip: bool)
    requires s.raw.None? && SpeltAs(spelt, name)
    ensures var (pieces, t) := TagTurn(s, Tag(spelt, true, false), CloseTag(spelt), strip);
            Lower(spelt) == name && Prepends(s, CloseTag(spelt) + tail, Cells(pieces), t, tail, strip)
  {
    hide Prepends, Cells, TagOf, TokenEnd, TagTurn, Lower;
    SpeltIsLower(spelt, name);
    CloseToken(spelt, tail);
    CloseIsTag(spelt);
    var (pieces, t) := TagTurn(s, Tag(spelt, true, false), CloseTag(spelt), strip);
    TokenProjects(s, CloseTag(spelt), pieces, t, tail, strip);
  }

  /** An opening tag pushes its element and shows at most its edge. */
  lemma OpenProjects(s: State, k: Kind, name: string, spelt: string, attrs: seq<Attr>, tail: string, strip: bool)
    requires s.raw.None? && name in NamesOf(k) && SpeltAs(spelt, name) && ProperAttrs(attrs) && |s.stack| < MAX_OPEN
    ensures Prepends(s, OpenTag(spelt, attrs, false) + tail, Edge(k), s.(stack := s.stack + [name]), tail, strip)
  {
    hide Prepends, Cells, Edge, NamesOf, SpeltAs, ProperAttrs, Tail, Lower, Bold, Italic, Strike, Reverse, Inline;
    OpenTurns(s, spelt, name, attrs, false, tail, strip);
    NameMeans(k, name);
    KnownInline(k, name);
    CellsOfEdge(k);
  }

  lemma KnownInline(k: Kind, name: string)
    requires name in NamesOf(k)
    ensures name !in BLOCKS && name != "br" && name != "hr"
  {
  }

  /** The closing tag of the innermost element pops it and shows at most its edge. */
  lemma CloseProjects(s: State, k: Kind, name: string, spelt: string, tail: string, strip: bool)
    requires s.raw.None? && name in NamesOf(k) && SpeltAs(spelt, name)
    ensures Prepends(s.(stack := s.stack + [name]), CloseTag(spelt) + tail, Edge(k), s, tail, strip)
  {
    hide Prepends, Cells, Edge, NamesOf, SpeltAs, Lower, Bold, Italic, Strike, Reverse, Inline;
    var inner := s.(stack := s.stack + [name]);
    assert inner.stack[..|inner.stack| - 1] == s.stack;
    CloseTurns(inner, spelt, name, tail, strip);
    NameMeans(k, name);
    KnownInline(k, name);
    CellsOfEdge(k);
  }

  /** Either tag of a block makes a boundary. */
  lemma BlockProjects(s: State, name: string, spelt: string, attrs: seq<Attr>, tail: string, strip: bool)
    requires s.raw.None? && name in BLOCKS && SpeltAs(spelt, name) && ProperAttrs(attrs)
    ensures Prepends(s, OpenTag(spelt, attrs, false) + tail, [Mark(Boundary)], s, tail, strip)
    ensures Prepends(s, CloseTag(spelt) + tail, [Mark(Boundary)], s, tail, strip)
  {
    hide Prepends, Cells, SpeltAs, ProperAttrs, Tail, Lower, Inline;
    OpenTurns(s, spelt, name, attrs, false, tail, strip);
    CloseTurns(s, spelt, name, tail, strip);
    CellsOfMark(Boundary);
  }

  lemma VoidProjects(s: State, rule: bool, spelt: string, attrs: seq<Attr>, slash: bool, tail: string, strip: bool)
    requires s.raw.None? && SpeltAs(spelt, if rule then "hr" else "br") && ProperAttrs(attrs)
    ensures Prepends(s, OpenTag(spelt, attrs, slash) + tail, [Mark(if rule then Rule else Break)], s, tail, strip)
  {
    hide Prepends, Cells, SpeltAs, ProperAttrs, Tail, Lower, Inline;
    OpenTurns(s, spelt, if rule then "hr" else "br", attrs, slash, tail, strip);
    CellsOfMark(if rule then Rule else Break);
  }

  lemma ShownIsStyled(s: State, inside: seq<Opened>, token: string, strip: bool)
    requires Stacked(s.stack, inside)
    ensures Cells(if strip then [] else [Text(token, LookOf(s.stack))]) == Shown(token, inside, strip)
  {
    LookIsMeant(s.stack, inside);
    CellsOfText(token, LookOf(s.stack));
  }

  lemma CommentProjects(s: State, inside: seq<Opened>, text: string, tail: string, strip: bool)
    requires s.raw.None? && Stacked(s.stack, inside) && ProperComment(text)
    ensures Prepends(s, CommentToken(text) + tail, Shown(CommentToken(text), inside, strip), s, tail, strip)
  {
    hide Prepends, Cells, TagOf, TokenEnd, ProperComment, LookOf, Stacked, Shown;
    CommentIsToken(text, tail);
    ShownIsStyled(s, inside, CommentToken(text), strip);
    TokenProjects(s, CommentToken(text), if strip then [] else [Text(CommentToken(text), LookOf(s.stack))], s, tail,
                  strip);
  }

  lemma UnknownName(name: string, closing: bool, slash: bool)
    requires Meaningless(name, closing, slash)
    ensures !Inline(name) && name !in BLOCKS && (!closing ==> name != "br" && name != "hr")
    ensures !closing && !slash ==> !RawText(name)
  {
  }

  lemma OtherProjects(s: State, inside: seq<Opened>, name: string, spelt: string, closing: bool, attrs: seq<Attr>,
                      slash: bool, tail: string, strip: bool)
    requires s.raw.None? && Stacked(s.stack, inside) && SpeltAs(spelt, name) && ProperAttrs(attrs)
    requires Meaningless(name, closing, slash)
    ensures var token := OtherToken(spelt, closing, attrs, slash);
            Prepends(s, token + tail, Shown(token, inside, strip), s, tail, strip)
  {
    hide Prepends, Cells, SpeltAs, ProperAttrs, Tail, Lower, Inline, RawText, LookOf, Stacked, Shown;
    UnknownName(name, closing, slash);
    ShownIsStyled(s, inside, OtherToken(spelt, closing, attrs, slash), strip);
    if closing {
      CloseTurns(s, spelt, name, tail, strip);
    } else {
      OpenTurns(s, spelt, name, attrs, slash, tail, strip);
    }
  }

  /** An inline tag that neither opens nor closes an element leaves the stack alone. */
  lemma OddProjects(s: State, inside: seq<Opened>, k: Kind, name: string, spelt: string, closing: bool, attrs: seq<Attr>,
                    slash: bool, tail: string, strip: bool)
    requires s.raw.None? && Stacked(s.stack, inside)
    requires name in NamesOf(k) && SpeltAs(spelt, name) && ProperAttrs(attrs)
    requires if closing then |inside| == 0 || inside[|inside| - 1].name != name else slash || |inside| >= MAX_OPEN
    ensures var token := OtherToken(spelt, closing, attrs, slash);
            Prepends(s, token + tail, Shown(token, inside, strip), s, tail, strip)
  {
    hide Prepends, Cells, SpeltAs, ProperAttrs, Tail, Lower, Bold, Italic, Strike, Reverse, Inline, LookOf, Shown,
      NamesOf;
    NameMeans(k, name);
    KnownInline(k, name);
    ShownIsStyled(s, inside, OtherToken(spelt, closing, attrs, slash), strip);
    if closing {
      CloseTurns(s, spelt, name, tail, strip);
    } else {
      OpenTurns(s, spelt, name, attrs, slash, tail, strip);
    }
  }

  /** A single tag of a block makes a boundary, too. */
  lemma BorderProjects(s: State, name: string, spelt: string, closing: bool, attrs: seq<Attr>, slash: bool, tail: string,
                       strip: bool)
    requires s.raw.None? && name in BLOCKS && SpeltAs(spelt, name) && ProperAttrs(attrs)
    ensures Prepends(s, OtherToken(spelt, closing, attrs, slash) + tail, [Mark(Boundary)], s, tail, strip)
  {
    hide Prepends, Cells, SpeltAs, ProperAttrs, Tail, Lower, Inline;
    CellsOfMark(Boundary);
    if closing {
      CloseTurns(s, spelt, name, tail, strip);
    } else {
      OpenTurns(s, spelt, name, attrs, slash, tail, strip);
    }
  }

  /** What is no tag stays as it is; only declarations are stripped. */
  lemma LooseProjects(s: State, inside: seq<Opened>, inner: string, tail: string, strip: bool)
    requires s.raw.None? && Stacked(s.stack, inside) && NoTag(inner)
    ensures Prepends(s, Bracketed(inner) + tail,
                     Shown(Bracketed(inner), inside, strip && (inner[0] == '!' || inner[0] == '?')), s, tail, strip)
  {
    hide Prepends, Cells, TagOf, TokenEnd, LookOf, Stacked, Shown;
    var token, gone := Bracketed(inner), strip && (inner[0] == '!' || inner[0] == '?');
    NoTagIsToken(inner, tail);
    ShownIsStyled(s, inside, token, gone);
    TokenProjects(s, token, if gone then [] else [Text(token, LookOf(s.stack))], s, tail, strip);
  }

  // ---------- Raw text ----------

  lemma RawName(name: string)
    requires name in RAW
    ensures !Inline(name) && RawText(name) && name !in BLOCKS && name != "br" && name != "hr"
    ensures forall i :: 0 <= i < |name| ==> 'a' <= name[i] <= 'z'
  {
  }

  lemma RawOpens(s: State, inside: seq<Opened>, name: string, spelt: string, attrs: seq<Attr>, tail: string, strip: bool)
    requires s.raw.None? && Stacked(s.stack, inside) && SpeltAs(spelt, name) && name in RAW && ProperAttrs(attrs)
    ensures Prepends(s, OpenTag(spelt, attrs, false) + tail, Shown(OpenTag(spelt, attrs, false), inside, strip),
                     s.(raw := Some(name)), tail, strip)
  {
    hide Prepends, Cells, SpeltAs, ProperAttrs, Tail, Lower, Inline, RawText, LookOf, Stacked, Shown;
    RawName(name);
    ShownIsStyled(s, inside, OpenTag(spelt, attrs, false), strip);
    OpenTurns(s, spelt, name, attrs, false, tail, strip);
  }

  lemma LowerIsSpelt(x: string, name: string)
    requires |name| > 0 && forall i :: 0 <= i < |name| ==> 'a' <= name[i] <= 'z'
    ensures Lower(x) == name <==> SpeltAs(x, name)
  {
    if SpeltAs(x, name) { SpeltIsLower(x, name); }
    if Lower(x) == name {
      forall i | 0 <= i < |name| ensures x[i] == name[i] || x[i] as int + 32 == name[i] as int {
        assert Lower(x)[i] == LowerChar(x[i]);
      }
    }
  }

  lemma ClosesHere(s: string, name: string)
    requires |name| > 0 && forall i :: 0 <= i < |name| ==> 'a' <= name[i] <= 'z'
    ensures Closes(s, 0, name) <==> |s| >= |name| + 2 && s[..2] == "</" && Lower(s[2..2 + |name|]) == name
  {
    if |s| >= |name| + 2 { LowerIsSpelt(s[2..2 + |name|], name); }
  }

  lemma ClosesLater(s: string, i: nat, name: string)
    requires |s| > 0
    ensures Closes(s[1..], i, name) == Closes(s, i + 1, name)
  {
    hide SpeltAs;
    if i + 3 + |name| <= |s| {
      assert s[1..][i + 2..i + 2 + |name|] == s[i + 1 + 2..i + 1 + 2 + |name|];
    }
  }

  lemma {:induction false} FirstClose(s: string, name: string)
    requires |name| > 0 && forall i :: 0 <= i < |name| ==> 'a' <= name[i] <= 'z'
    ensures FindClose(s, name).Some? ==>
              Closes(s, FindClose(s, name).value, name)
              && forall i :: 0 <= i < FindClose(s, name).value ==> !Closes(s, i, name)
    ensures FindClose(s, name).None? ==> forall i: nat :: !Closes(s, i, name)
  {
    hide Lower, SpeltAs;
    ClosesHere(s, name);
    if |s| > 0 {
      FirstClose(s[1..], name);
      forall i: nat ensures Closes(s[1..], i, name) == Closes(s, i + 1, name) { ClosesLater(s, i, name); }
      assert forall i: nat :: i > 0 ==> Closes(s, i, name) == Closes(s[1..], i - 1, name);
    }
  }

  lemma EndTagIs(s: string, name: string, k: nat)
    requires |name| + 2 <= k < |s| && s[k] == '>' && AsciiBlank(s[|name| + 2..k])
    ensures EndTag(s, name) == Some(k + 1)
  {
    var suffix := s[|name| + 2..];
    assert suffix[..k - |name| - 2] == s[|name| + 2..k];
    forall i | 0 <= i < k - |name| - 2 ensures AsciiSpace(suffix[i]) { assert suffix[i] == s[|name| + 2..k][i]; }
    FindFirst(suffix, c => !AsciiSpace(c), k - |name| - 2);
  }

  /** An end tag that is read as one stands there. */
  lemma EndTagEnds(s: string, n: nat, name: string)
    requires Closes(s, n, name) && EndTag(s[n..], name).Some?
    ensures Ends(s, n, name)
  {
    hide SpeltAs;
    var rest := s[n..];
    var suffix := rest[|name| + 2..];
    var blank := Find(suffix, c => !AsciiSpace(c));
    var k := n + 2 + |name| + blank;
    assert s[k] == suffix[blank];
    assert s[n + 2 + |name|..k] == suffix[..blank];
  }

  /** In front of an end tag, what looks like one and is none stays so whatever follows. */
  lemma EndsBefore(text: string, end: string, tail: string, n: nat, name: string)
    requires |end| > 0 && end[0] == '<' && |name| > 0 && forall i :: 0 <= i < |name| ==> 'a' <= name[i] <= 'z'
    requires n < |text| && Ends(text + (end + tail), n, name)
    ensures Ends(text + end, n, name)
  {
    var short, whole := text + end, text + (end + tail);
    var spelt := whole[n + 2..n + 2 + |name|];
    SpeltIsLower(spelt, name);
    var k :| n + 2 + |name| <= k < |whole| && whole[k] == '>' && AsciiBlank(whole[n + 2 + |name|..k]);
    assert forall j :: n + 2 <= j < n + 2 + |name| ==> whole[j] == spelt[j - n - 2] && Letter(spelt[j - n - 2]);
    assert forall j :: n + 2 + |name| <= j < k ==> whole[j] == whole[n + 2 + |name|..k][j - n - 2 - |name|];
    assert whole[n + 1] == '/' && whole[|text|] == '<' && forall j :: n < j <= k ==> whole[j] != '<';
    assert short[n + 2..n + 2 + |name|] == spelt && short[n + 2 + |name|..k] == whole[n + 2 + |name|..k];
    assert short[k] == whole[k];
  }

  lemma EndsLater(s: string, m: nat, i: nat, name: string)
    requires m <= |s| && Ends(s[m..], i, name)
    ensures Ends(s, m + i, name)
  {
    hide SpeltAs;
    var rest := s[m..];
    var k :| i + 2 + |name| <= k < |rest| && rest[k] == '>' && AsciiBlank(rest[i + 2 + |name|..k]);
    assert rest[i + 2..i + 2 + |name|] == s[m + i + 2..m + i + 2 + |name|];
    assert rest[i + 2 + |name|..k] == s[m + i + 2 + |name|..m + k] && s[m + k] == rest[k];
  }

  lemma RawCloses(close: string, blanks: string, name: string, tail: string)
    requires SpeltAs(close, name) && AsciiBlank(blanks)
    ensures var end := RawClose(close, blanks);
            |end + tail| >= |name| + 2 && EndTag(end + tail, name) == Some(|end|) && Closes(end + tail, 0, name)
  {
    var end := RawClose(close, blanks);
    var rest := end + tail;
    assert rest[|name| + 2..|end| - 1] == blanks && rest[2..2 + |name|] == close;
    EndTagIs(rest, name, |end| - 1);
  }

  lemma CellsOfRaw(text: string, token: string, look: Look, strip: bool)
    ensures Cells((if |text| > 0 then [Text(text, look)] else []) + (if strip then [] else [Text(token, look)]))
         == Styled(text, look) + if strip then [] else Styled(token, look)
  {
    CellsOfText(text, look);
    CellsOfText(token, look);
    CellsSplit(if |text| > 0 then [Text(text, look)] else [], if strip then [] else [Text(token, look)]);
    assert Cells([]) == [];
  }

  /** What only looks like an end tag is shown, and the raw text goes on behind its first character. */
  lemma FalseEnd(s: State, inside: seq<Opened>, name: string, rest: string, n: nat, strip: bool)
    requires s.raw == Some(name) && Stacked(s.stack, inside) && FindClose(rest, name) == Some(n)
    requires EndTag(rest[n..], name).None?
    ensures Prepends(s, rest, Styled(rest[..n + 1], LookFor(inside)), s, rest[n + 1..], strip)
  {
    hide Prepends, Cells, LookOf, LookFor, FindClose, EndTag, Stacked, Styled, Projected;
    LookIsMeant(s.stack, inside);
    TurnFirst(s, rest, strip);
    CellsOfRaw(rest[..n], "<", LookFor(inside), false);
    StyledMore(rest[..n], "<", LookFor(inside));
    assert rest[..n] + "<" == rest[..n + 1];
  }

  /** The text of a raw-text element comes out as it stands, up to its end tag. */
  lemma {:induction false} RawEnds(s: State, inside: seq<Opened>, name: string, close: string, blanks: string,
                                   text: string, tail: string, strip: bool)
    requires s.raw.None? && Stacked(s.stack, inside) && SpeltAs(close, name) && AsciiBlank(blanks) && name in RAW
    requires forall i :: 0 <= i < |text| ==> !Ends(text + RawClose(close, blanks), i, name)
    ensures Prepends(s.(raw := Some(name)), text + (RawClose(close, blanks) + tail),
                     Styled(text, LookFor(inside)) + Shown(RawClose(close, blanks), inside, strip), s, tail, strip)
    decreases |text|
  {
    hide Prepends, Cells, Closes, Ends, SpeltAs, LookOf, LookFor, FindClose, EndTag, RawText, Stacked, Styled, Shown,
      AsciiBlank;
    var inner, end := s.(raw := Some(name)), RawClose(close, blanks);
    var rest := text + (end + tail);
    RawName(name);
    FirstClose(rest, name);
    RawCloses(close, blanks, name, tail);
    ClosesBehind(text, end + tail, name);
    var n := FindClose(rest, name).value;
    if n < |text| {
      if EndTag(rest[n..], name).Some? {
        EndTagEnds(rest, n, name);
        EndsBefore(text, end, tail, n, name);
        assert false;
      }
      FalseEnd(inner, inside, name, rest, n, strip);
      var more := text[n + 1..];
      assert (text + end)[n + 1..] == more + end;
      forall i | 0 <= i < |more| ensures !Ends(more + end, i, name) {
        if Ends(more + end, i, name) { EndsLater(text + end, n + 1, i, name); }
      }
      RawEnds(s, inside, name, close, blanks, more, tail, strip);
      assert rest[n + 1..] == more + (end + tail) && rest[..n + 1] == text[..n + 1];
      RawJoins(s, inside, inner, text, n + 1, end, rest, tail, strip);
    } else {
      assert rest[..|text|] == text && rest[|text|..] == end + tail;
      RawEndsHere(s, inside, name, text, end, rest, tail, strip);
    }
  }

  lemma ClosesBehind(text: string, rest: string, name: string)
    requires Closes(rest, 0, name)
    ensures Closes(text + rest, |text|, name)
  {
    hide SpeltAs;
    assert (text + rest)[|text| + 2..|text| + 2 + |name|] == rest[2..2 + |name|];
  }

  lemma RawJoins(s: State, inside: seq<Opened>, inner: State, text: string, m: nat, end: string, rest: string,
                 tail: string, strip: bool)
    requires m <= |text|
    requires Prepends(inner, rest, Styled(text[..m], LookFor(inside)), inner, text[m..] + (end + tail), strip)
    requires Prepends(inner, text[m..] + (end + tail), Styled(text[m..], LookFor(inside)) + Shown(end, inside, strip),
                      s, tail, strip)
    ensures Prepends(inner, rest, Styled(text, LookFor(inside)) + Shown(end, inside, strip), s, tail, strip)
  {
    hide Prepends, Styled, Shown, LookFor;
    var a, b, c := Styled(text[..m], LookFor(inside)), Styled(text[m..], LookFor(inside)), Shown(end, inside, strip);
    PrependsTwice(inner, rest, a, inner, text[m..] + (end + tail), b + c, s, tail, strip);
    StyledMore(text[..m], text[m..], LookFor(inside));
    assert text[..m] + text[m..] == text;
    assert a + (b + c) == a + b + c;
  }

  lemma RawEndsHere(s: State, inside: seq<Opened>, name: string, text: string, end: string, rest: string, tail: string,
                    strip: bool)
    requires s.raw.None? && Stacked(s.stack, inside) && rest == text + (end + tail) && |end| > 0
    requires FindClose(rest, name) == Some(|text|) && EndTag(end + tail, name) == Some(|end|)
    ensures Prepends(s.(raw := Some(name)), rest, Styled(text, LookFor(inside)) + Shown(end, inside, strip), s, tail,
                     strip)
  {
    hide Prepends, Cells, LookOf, LookFor, FindClose, EndTag, Stacked, Styled, Projected;
    var inner := s.(raw := Some(name));
    LookIsMeant(s.stack, inside);
    assert rest[..|text|] == text && rest[|text|..] == end + tail;
    assert rest[|text|..|text| + |end|] == end && rest[|text| + |end|..] == tail;
    TurnFirst(inner, rest, strip);
    CellsOfRaw(text, end, LookFor(inside), strip);
  }

  // ---------- Trees ----------

  /** A printed tree in front of anything projects to its meaning, in front of the projection of that. */
  lemma {:induction false} TreeProjects(s: State, inside: seq<Opened>, nodes: seq<Node>, tail: string, strip: bool)
    requires s.raw.None? && Stacked(s.stack, inside) && Fits(nodes, inside)
    ensures Prepends(s, Print(nodes) + tail, Meaning(nodes, inside, strip), s, tail, strip)
    decreases nodes, 2
  {
    hide Prepends, Stacked, NodeFits, PrintNode, MeaningOf;
    if |nodes| == 0 {
      assert "" + tail == tail;
      PrependsNothing(s, tail, strip);
    } else {
      var first, rest := PrintNode(nodes[0]), Print(nodes[1..]) + tail;
      TreeProjects(s, inside, nodes[1..], tail, strip);
      NodeProjects(s, inside, nodes[0], rest, strip);
      assert Print(nodes) + tail == first + rest;
      PrependsTwice(s, first + rest, MeaningOf(nodes[0], inside, strip), s, rest, Meaning(nodes[1..], inside, strip), s, tail,
                    strip);
    }
  }

  lemma PrependsNothing(s: State, tail: string, strip: bool)
    ensures Prepends(s, tail, [], s, tail, strip)
  {
  }

  /** An opening and a closing tag around what projects between them. */
  lemma Encloses(s: State, inner: State, opening: string, body: string, closing: string, before: seq<Cell>,
                 meaning: seq<Cell>, after: seq<Cell>, rest: string, strip: bool)
    requires Prepends(s, opening + (body + (closing + rest)), before, inner, body + (closing + rest), strip)
    requires Prepends(inner, body + (closing + rest), meaning, inner, closing + rest, strip)
    requires Prepends(inner, closing + rest, after, s, rest, strip)
    ensures Prepends(s, opening + (body + closing) + rest, before + meaning + after, s, rest, strip)
  {
    hide Prepends;
    var whole := opening + (body + (closing + rest));
    assert opening + (body + closing) + rest == whole;
    PrependsTwice(s, whole, before, inner, body + (closing + rest), meaning, inner, closing + rest, strip);
    PrependsTwice(s, whole, before + meaning, inner, closing + rest, after, s, rest, strip);
  }

  /** The print of one node projects to its meaning. */
  lemma {:induction false} NodeProjects(s: State, inside: seq<Opened>, node: Node, rest: string, strip: bool)
    requires s.raw.None? && Stacked(s.stack, inside) && NodeFits(node, inside)
    ensures Prepends(s, PrintNode(node) + rest, MeaningOf(node, inside, strip), s, rest, strip)
    decreases node, 1
  {
    hide Prepends, Stacked, AllProper, ProperAttrs, ProperComment, SpeltAs, Closes, SpellAll, Characters, LookFor, Styled,
         Shown, OpenTag, CloseTag, Edge;
    match node {
      case Words(text) => TextProjects(s, inside, text, rest, strip);
      case Element(k, name, open, close, attrs, children) => ElementProjects(s, inside, node, rest, strip);
      case Block(name, open, close, attrs, children) => BlockElementProjects(s, inside, node, rest, strip);
      case Void(rule, spelt, attrs, slash) => VoidProjects(s, rule, spelt, attrs, slash, rest, strip);
      case Comment(text) => CommentProjects(s, inside, text, rest, strip);
      case Other(name, spelt, closing, attrs, slash) =>
        OtherProjects(s, inside, name, spelt, closing, attrs, slash, rest, strip);
      case Raw(name, open, close, blanks, attrs, text) => RawProjects(s, inside, node, rest, strip);
      case Odd(k, name, spelt, closing, attrs, slash) =>
        OddProjects(s, inside, k, name, spelt, closing, attrs, slash, rest, strip);
      case Border(name, spelt, closing, attrs, slash) =>
        BorderProjects(s, name, spelt, closing, attrs, slash, rest, strip);
      case Loose(inner) => LooseProjects(s, inside, inner, rest, strip);
    }
  }

  lemma RawProjects(s: State, inside: seq<Opened>, node: Node, rest: string, strip: bool)
    requires s.raw.None? && Stacked(s.stack, inside) && NodeFits(node, inside) && node.Raw?
    ensures Prepends(s, PrintNode(node) + rest, MeaningOf(node, inside, strip), s, rest, strip)
  {
    hide Prepends, Stacked, ProperAttrs, SpeltAs, Closes, LookFor, Styled, Shown, OpenTag, CloseTag;
    var Raw(name, open, close, blanks, attrs, text) := node;
    var before, after := Shown(OpenTag(open, attrs, false), inside, strip),
                         Styled(text, LookFor(inside)) + Shown(RawClose(close, blanks), inside, strip);
    var tail := text + (RawClose(close, blanks) + rest);
    RawOpens(s, inside, name, open, attrs, tail, strip);
    RawEnds(s, inside, name, close, blanks, text, rest, strip);
    assert PrintNode(node) + rest == OpenTag(open, attrs, false) + tail;
    PrependsTwice(s, OpenTag(open, attrs, false) + tail, before, s.(raw := Some(name)), tail, after, s, rest, strip);
  }

  lemma StackedMore(stack: seq<string>, inside: seq<Opened>, name: string, k: Kind)
    requires Stacked(stack, inside) && name in NamesOf(k)
    ensures Stacked(stack + [name], inside + [Opened(k, name)])
  {
  }

  lemma {:induction false} ElementProjects(s: State, inside: seq<Opened>, node: Node, rest: string, strip: bool)
    requires s.raw.None? && Stacked(s.stack, inside) && NodeFits(node, inside) && node.Element?
    ensures Prepends(s, PrintNode(node) + rest, MeaningOf(node, inside, strip), s, rest, strip)
    decreases node, 0
  {
    hide Prepends, ProperAttrs, SpeltAs, OpenTag, CloseTag, Edge, NamesOf, Stacked, Fits, Print, Meaning;
    var Element(k, name, open, close, attrs, children) := node;
    var inner := s.(stack := s.stack + [name]);
    StackedMore(s.stack, inside, name, k);
    var body, meaning := Print(children), Meaning(children, inside + [Opened(k, name)], strip);
    OpenProjects(s, k, name, open, attrs, body + (CloseTag(close) + rest), strip);
    TreeProjects(inner, inside + [Opened(k, name)], children, CloseTag(close) + rest, strip);
    CloseProjects(s, k, name, close, rest, strip);
    Encloses(s, inner, OpenTag(open, attrs, false), body, CloseTag(close), Edge(k), meaning, Edge(k), rest, strip);
  }

  lemma {:induction false} BlockElementProjects(s: State, inside: seq<Opened>, node: Node, rest: string, strip: bool)
    requires s.raw.None? && Stacked(s.stack, inside) && NodeFits(node, inside) && node.Block?
    ensures Prepends(s, PrintNode(node) + rest, MeaningOf(node, inside, strip), s, rest, strip)
    decreases node, 0
  {
    hide Prepends, ProperAttrs, SpeltAs, OpenTag, CloseTag, Stacked, Fits, Print, Meaning;
    var Block(name, open, close, attrs, children) := node;
    var body, meaning := Print(children), Meaning(children, inside, strip);
    BlockProjects(s, name, open, attrs, body + (CloseTag(close) + rest), strip);
    TreeProjects(s, inside, children, CloseTag(close) + rest, strip);
    BlockProjects(s, name, close, attrs, rest, strip);
    Encloses(s, s, OpenTag(open, attrs, false), body, CloseTag(close), [Mark(Boundary)], meaning, [Mark(Boundary)], rest,
             strip);
  }

  // ---------- What is left open at the end ----------

  lemma NoEndLater(text: string, m: nat, name: string)
    requires m <= |text| && NeverEnds(text, name)
    ensures NeverEnds(text[m..], name)
  {
    hide Ends;
    forall i: nat | Ends(text[m..], i, name) ensures Ends(text, m + i, name) { EndsLater(text, m, i, name); }
  }

  lemma {:induction false} NoTagEnd(text: string, quote: Option<char>)
    requires '>' !in text
    ensures TagEnd(text, quote).None?
  {
    if |text| > 0 {
      assert forall c :: c in text[1..] ==> c in text;
      assert text[0] in text;
      NoTagEnd(text[1..], None);
      NoTagEnd(text[1..], Some(text[0]));
      NoTagEnd(text[1..], quote);
    }
  }

  lemma {:induction false} NoCommentEnd(text: string)
    requires '>' !in text
    ensures CommentEnd(text).None?
  {
    if |text| >= 3 {
      assert text[2] in text && text[..3][2] == text[2];
      assert forall c :: c in text[1..] ==> c in text;
      NoCommentEnd(text[1..]);
    }
  }

  lemma {:induction false} AnotherTag(text: string, i: nat)
    requires i < |text| && text[i] == '<' && forall j :: 0 <= j < i ==> Bare(text[j])
    ensures TagEnd(text, None).None?
  {
    if i > 0 { AnotherTag(text[1..], i - 1); }
  }

  lemma UnendedHasNoEnd(text: string)
    requires Unended(text)
    ensures TokenEnd("<" + text).None?
  {
    hide TagEnd, CommentEnd;
    var s := "<" + text;
    assert s[1..] == text;
    if '>' !in text {
      assert '>' !in s;
      NoTagEnd(text, None);
      NoCommentEnd(s);
    } else {
      var i :| 0 <= i < |text| && text[i] == '<' && forall j :: 0 <= j < i ==> Bare(text[j]);
      AnotherTag(text, i);
      assert |text| >= 3 ==> s[1..4] == text[..3];
    }
  }

  /** A token that does not end is shown as it stands, with everything after it. */
  lemma UnclosedProjects(s: State, inside: seq<Opened>, text: string, strip: bool)
    requires s.raw.None? && Stacked(s.stack, inside) && Unended(text)
    ensures Prepends(s, "<" + text, Styled("<" + text, LookFor(inside)), s, "", strip)
  {
    hide Prepends, Cells, TokenEnd, LookOf, LookFor, Stacked, Styled, Projected, Unended;
    UnendedHasNoEnd(text);
    LookIsMeant(s.stack, inside);
    TurnFirst(s, "<" + text, strip);
    NothingAfter("<" + text);
    CellsOfText("<" + text, LookFor(inside));
  }

  /** So is raw text that does not end. */
  lemma {:induction false} RawGoesOn(s: State, inside: seq<Opened>, name: string, text: string, strip: bool)
    requires s.raw == Some(name) && Stacked(s.stack, inside) && name in RAW && NeverEnds(text, name)
    ensures Prepends(s, text, Styled(text, LookFor(inside)), s, "", strip)
    decreases |text|
  {
    hide Prepends, Cells, Closes, Ends, LookOf, LookFor, FindClose, EndTag, RawText, Stacked, Styled, Projected;
    RawName(name);
    FirstClose(text, name);
    LookIsMeant(s.stack, inside);
    if |text| == 0 {
      NothingProjects(s, strip);
      assert Styled(text, LookFor(inside)) == [] by { NothingStyled(text, LookFor(inside)); }
    } else if FindClose(text, name).None? {
      TurnFirst(s, text, strip);
      NothingAfter(text);
      CellsOfText(text, LookFor(inside));
    } else {
      var n := FindClose(text, name).value;
      assert EndTag(text[n..], name).Some? ==> Ends(text, n, name) by {
        if EndTag(text[n..], name).Some? { EndTagEnds(text, n, name); }
      }
      FalseEnd(s, inside, name, text, n, strip);
      NoEndLater(text, n + 1, name);
      RawGoesOn(s, inside, name, text[n + 1..], strip);
      PrependsTwice(s, text, Styled(text[..n + 1], LookFor(inside)), s, text[n + 1..],
                    Styled(text[n + 1..], LookFor(inside)), s, "", strip);
      StyledMore(text[..n + 1], text[n + 1..], LookFor(inside));
      assert text[..n + 1] + text[n + 1..] == text;
    }
  }

  lemma NothingProjects(s: State, strip: bool)
    ensures Prepends(s, "", [], s, "", strip)
  {
  }

  lemma NothingAfter(s: string)
    ensures s[|s|..] == ""
  {
  }

  lemma NothingStyled(text: string, look: Look)
    requires |text| == 0
    ensures Styled(text, look) == []
  {
  }

  lemma EndingProjects(s: State, inside: seq<Opened>, e: Ending, strip: bool)
    requires s.raw.None? && Stacked(s.stack, inside) && EndingFits(e)
    ensures Prepends(s, PrintEnding(e), EndingMeaning(e, inside, strip), StateAfter(s, e), "", strip)
  {
    hide Prepends, Unended, Ends, Stacked, Styled, Shown, ProperAttrs, SpeltAs, Tail;
    match e {
      case Done => NothingProjects(s, strip);
      case Unclosed(text) => UnclosedProjects(s, inside, text, strip);
      case RawLeft(name, open, attrs, text) =>
        RawOpens(s, inside, name, open, attrs, text, strip);
        RawGoesOn(s.(raw := Some(name)), inside, name, text, strip);
        PrependsTwice(s, OpenTag(open, attrs, false) + text, Shown(OpenTag(open, attrs, false), inside, strip),
                      s.(raw := Some(name)), text, Styled(text, LookFor(inside)), s.(raw := Some(name)), "", strip);
    }
  }

  /**
   Printing and then projecting is the identity: the text of the tree, each
   character in the union of what the elements around it mean, its boundaries,
   breaks and rules in their places, what is left open at the end as it stands,
   and the same open elements.
   */
  lemma ProjectingWhatIsPrinted(s: State, inside: seq<Opened>, nodes: seq<Node>, e: Ending, strip: bool)
    requires s.raw.None? && Stacked(s.stack, inside) && Fits(nodes, inside) && EndingFits(e)
    ensures var p := Projected(s, Print(nodes) + PrintEnding(e), strip);
            && Cells(p.pieces) == Meaning(nodes, inside, strip) + EndingMeaning(e, inside, strip)
            && p.state == StateAfter(s, e)
  {
    hide Print, PrintEnding, Meaning, EndingMeaning, OneTurn, Fits, EndingFits, Stacked;
    TreeProjects(s, inside, nodes, PrintEnding(e), strip);
    EndingProjects(s, inside, e, strip);
    PrependsTwice(s, Print(nodes) + PrintEnding(e), Meaning(nodes, inside, strip), s, PrintEnding(e),
                  EndingMeaning(e, inside, strip), StateAfter(s, e), "", strip);
    var m := Meaning(nodes, inside, strip) + EndingMeaning(e, inside, strip);
    assert m + [] == m;
  }
}
