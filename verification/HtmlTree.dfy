/**
 HTML as trees of elements over text: how they may be written, and what they
 mean. Names may be in any case, tags may have attributes, characters may be
 written as references; comments, unknown tags and raw-text elements come out
 as they stand, or not at all where tags are stripped.
 */
module HtmlTree {
  import opened Options
  import opened HtmlText
  import opened HtmlPrint
  import opened Html

  /** What an inline element means, whichever of its names it has. */
  datatype Kind = Strong | Emphasis | Struck | Mono | Summary

  function NamesOf(k: Kind): seq<string> {
    match k
    case Strong => ["b", "strong"]
    case Emphasis => ["i", "em"]
    case Struck => ["s", "strike", "del"]
    case Mono => ["code", "kbd", "samp"]
    case Summary => ["summary"]
  }

  /** An open inline element, with the name it was opened under. */
  datatype Opened = Opened(kind: Kind, name: string)

  const BLOCKS := ["details", "p", "div"]

  const RAW := ["script", "style", "textarea"]

  const KNOWN := ["b", "strong", "i", "em", "s", "strike", "del", "code", "kbd", "samp", "summary", "details", "p",
                  "div", "br", "hr", "script", "style", "textarea"]

  /**
   `name` is the name of the element; `open`, `close` and `spelt` are that name
   as it is written. An `Odd` inline tag is one that neither opens nor closes,
   a `Border` one tag of a block, and `Loose` whatever else is in angle brackets.
   */
  datatype Node =
    | Words(text: seq<Spelling>)
    | Element(kind: Kind, name: string, open: string, close: string, attrs: seq<Attr>, children: seq<Node>)
    | Block(name: string, open: string, close: string, attrs: seq<Attr>, children: seq<Node>)
    | Void(rule: bool, spelt: string, attrs: seq<Attr>, slash: bool)
    | Comment(comment: string)
    | Other(name: string, spelt: string, closing: bool, attrs: seq<Attr>, slash: bool)
    | Raw(name: string, open: string, close: string, blanks: string, attrs: seq<Attr>, raw: string)
    | Odd(kind: Kind, name: string, spelt: string, closing: bool, attrs: seq<Attr>, slash: bool)
    | Border(name: string, spelt: string, closing: bool, attrs: seq<Attr>, slash: bool)
    | Loose(inner: string)

  /** What a reader sees: a character in its look, or a boundary, break or rule. */
  datatype Cell = Cell(c: char, look: Look) | Mark(piece: Piece)

  // ---------- Printing ----------

  function CommentToken(text: string): string { "<!--" + text + "-->" }

  function OtherToken(spelt: string, closing: bool, attrs: seq<Attr>, slash: bool): string {
    if closing then CloseTag(spelt) else OpenTag(spelt, attrs, slash)
  }

  /** The end tag of a raw-text element may hold blanks. */
  function RawClose(close: string, blanks: string): string { "</" + close + blanks + ">" }

  function PrintNode(node: Node): string
    decreases node, 0
  {
    match node
    case Words(text) => SpellAll(text)
    case Element(_, _, open, close, attrs, children) => OpenTag(open, attrs, false) + (Print(children) + CloseTag(close))
    case Block(_, open, close, attrs, children) => OpenTag(open, attrs, false) + (Print(children) + CloseTag(close))
    case Void(_, spelt, attrs, slash) => OpenTag(spelt, attrs, slash)
    case Comment(text) => CommentToken(text)
    case Other(_, spelt, closing, attrs, slash) => OtherToken(spelt, closing, attrs, slash)
    case Raw(_, open, close, blanks, attrs, text) => OpenTag(open, attrs, false) + (text + RawClose(close, blanks))
    case Odd(_, _, spelt, closing, attrs, slash) => OtherToken(spelt, closing, attrs, slash)
    case Border(_, spelt, closing, attrs, slash) => OtherToken(spelt, closing, attrs, slash)
    case Loose(inner) => Bracketed(inner)
  }

  function Print(nodes: seq<Node>): string
    decreases nodes, 1
  {
    if |nodes| == 0 then "" else PrintNode(nodes[0]) + Print(nodes[1..])
  }

  // ---------- Meaning ----------

  function Styled(text: string, look: Look): seq<Cell> {
    seq(|text|, i requires 0 <= i < |text| => Cell(text[i], look))
  }

  /** Bold inside `b`, `strong` or a summary, and so on. */
  function LookFor(inside: seq<Opened>): Look {
    Look(bold := Within(inside, Strong) || Within(inside, Summary), italic := Within(inside, Emphasis),
         strike := Within(inside, Struck), reverse := Within(inside, Mono))
  }

  predicate Within(inside: seq<Opened>, k: Kind) { exists i :: 0 <= i < |inside| && inside[i].kind == k }

  /** A summary is a block of its own. */
  function Edge(k: Kind): seq<Cell> { if k == Summary then [Mark(Boundary)] else [] }

  /** A tag or comment that means nothing is shown as it stands, unless tags are stripped. */
  function Shown(token: string, inside: seq<Opened>, strip: bool): seq<Cell> {
    if strip then [] else Styled(token, LookFor(inside))
  }

  /** Every character in the styles of the elements around it. */
  ghost function MeaningOf(node: Node, inside: seq<Opened>, strip: bool): seq<Cell>
    requires NodeFits(node, inside)
    decreases node, 0
  {
    match node
    case Words(text) => Styled(Characters(text), LookFor(inside))
    case Element(k, name, _, _, _, children) =>
      Edge(k) + Meaning(children, inside + [Opened(k, name)], strip) + Edge(k)
    case Block(_, _, _, _, children) => [Mark(Boundary)] + Meaning(children, inside, strip) + [Mark(Boundary)]
    case Void(rule, _, _, _) => [Mark(if rule then Rule else Break)]
    case Comment(text) => Shown(CommentToken(text), inside, strip)
    case Other(_, spelt, closing, attrs, slash) => Shown(OtherToken(spelt, closing, attrs, slash), inside, strip)
    case Raw(_, open, close, blanks, attrs, text) =>
      Shown(OpenTag(open, attrs, false), inside, strip)
      + (Styled(text, LookFor(inside)) + Shown(RawClose(close, blanks), inside, strip))
    case Odd(_, _, spelt, closing, attrs, slash) => Shown(OtherToken(spelt, closing, attrs, slash), inside, strip)
    case Border(_, _, _, _, _) => [Mark(Boundary)]
    case Loose(inner) => Shown(Bracketed(inner), inside, strip && (inner[0] == '!' || inner[0] == '?'))
  }

  ghost function Meaning(nodes: seq<Node>, inside: seq<Opened>, strip: bool): seq<Cell>
    requires Fits(nodes, inside)
    decreases nodes, 1
  {
    if |nodes| == 0 then [] else MeaningOf(nodes[0], inside, strip) + Meaning(nodes[1..], inside, strip)
  }

  predicate AsciiBlank(s: string) { forall i :: 0 <= i < |s| ==> AsciiSpace(s[i]) }

  /** The end tag of the raw-text element stands at `i`: its name, then only blanks. */
  ghost predicate Ends(s: string, i: nat, raw: string) {
    Closes(s, i, raw) && exists k :: i + 2 + |raw| <= k < |s| && s[k] == '>' && AsciiBlank(s[i + 2 + |raw|..k])
  }

  /** What looks like an end tag of the raw-text element begins at `i`. */
  predicate Closes(s: string, i: nat, raw: string) {
    i + 2 + |raw| <= |s| && s[i] == '<' && s[i + 1] == '/' && SpeltAs(s[i + 2..i + 2 + |raw|], raw)
  }

  /**
   Proper text, names and attributes, and inline elements never deeper than the
   stack has room for. An odd tag closes what is not the innermost, closes
   itself, or comes when there is no room.
   */
  ghost predicate NodeFits(node: Node, inside: seq<Opened>)
    decreases node, 0
  {
    match node
    case Words(text) => AllProper(text)
    case Element(k, name, open, close, attrs, children) =>
      && name in NamesOf(k) && SpeltAs(open, name) && SpeltAs(close, name) && ProperAttrs(attrs)
      && |inside| < MAX_OPEN && Fits(children, inside + [Opened(k, name)])
    case Block(name, open, close, attrs, children) =>
      && name in BLOCKS && SpeltAs(open, name) && SpeltAs(close, name) && ProperAttrs(attrs) && Fits(children, inside)
    case Void(rule, spelt, attrs, _) => SpeltAs(spelt, if rule then "hr" else "br") && ProperAttrs(attrs)
    case Comment(text) => ProperComment(text)
    case Other(name, spelt, closing, attrs, slash) =>
      SpeltAs(spelt, name) && Meaningless(name, closing, slash) && ProperAttrs(attrs)
    case Raw(name, open, close, blanks, attrs, text) =>
      && name in RAW && SpeltAs(open, name) && SpeltAs(close, name) && AsciiBlank(blanks) && ProperAttrs(attrs)
      && forall i :: 0 <= i < |text| ==> !Ends(text + RawClose(close, blanks), i, name)
    case Odd(k, name, spelt, closing, attrs, slash) =>
      && name in NamesOf(k) && SpeltAs(spelt, name) && ProperAttrs(attrs)
      && if closing then |inside| == 0 || inside[|inside| - 1].name != name else slash || |inside| >= MAX_OPEN
    case Border(name, spelt, _, attrs, _) => name in BLOCKS && SpeltAs(spelt, name) && ProperAttrs(attrs)
    case Loose(inner) => NoTag(inner)
  }

  /** Unknown tags, closing tags of what has none, and raw-text tags that open nothing. */
  predicate Meaningless(name: string, closing: bool, slash: bool) {
    || name !in KNOWN
    || (closing && (name in RAW || name == "br" || name == "hr"))
    || (slash && name in RAW)
  }

  ghost predicate Fits(nodes: seq<Node>, inside: seq<Opened>)
    decreases nodes, 1
  {
    |nodes| == 0 || (NodeFits(nodes[0], inside) && Fits(nodes[1..], inside))
  }

  /** The characters of a projection with their styles, and its marks. */
  function Cells(pieces: seq<Piece>): seq<Cell> {
    if |pieces| == 0 then []
    else (if pieces[0].Text? then Styled(pieces[0].text, pieces[0].look) else [Mark(pieces[0])]) + Cells(pieces[1..])
  }

  // ---------- What is left open at the end ----------

  /** After a tree the input may end inside a token, or inside raw text. */
  datatype Ending = Done | Unclosed(text: string) | RawLeft(name: string, open: string, attrs: seq<Attr>, raw: string)

  function PrintEnding(e: Ending): string {
    match e
    case Done => ""
    case Unclosed(text) => "<" + text
    case RawLeft(_, open, attrs, text) => OpenTag(open, attrs, false) + text
  }

  /** No `>` comes, or another `<` comes first. */
  ghost predicate Unended(text: string) {
    || '>' !in text
    || (!("!--" <= text) && exists i :: 0 <= i < |text| && text[i] == '<' && forall j :: 0 <= j < i ==> Bare(text[j]))
  }

  ghost predicate NeverEnds(text: string, name: string) { forall i: nat :: !Ends(text, i, name) }

  ghost predicate EndingFits(e: Ending) {
    match e
    case Done => true
    case Unclosed(text) => Unended(text)
    case RawLeft(name, open, attrs, text) =>
      name in RAW && SpeltAs(open, name) && ProperAttrs(attrs) && NeverEnds(text, name)
  }

  function EndingMeaning(e: Ending, inside: seq<Opened>, strip: bool): seq<Cell> {
    match e
    case Done => []
    case Unclosed(text) => Styled("<" + text, LookFor(inside))
    case RawLeft(_, open, attrs, text) =>
      Shown(OpenTag(open, attrs, false), inside, strip) + Styled(text, LookFor(inside))
  }

  function StateAfter(s: State, e: Ending): State { if e.RawLeft? then s.(raw := Some(e.name)) else s }
}
