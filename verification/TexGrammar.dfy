/**
 Formulas of the TeX subset as trees: how each is written, blanks included,
 which are proper, and the text that each stands for.
 */
module TexGrammar {
  import opened Options
  import opened TexBrackets
  import opened Texts
  import HtmlText

  const MAX_INPUT: nat := 16_384
  const MAX_DEPTH: nat := 32
  const MAX_OUTPUT: nat := 65_536

  datatype Position = Sub | Super

  /** The foreign tables: symbols by name, and characters set above or below the line. */
  datatype Tables = Tables(symbol: string -> Option<string>, span: (string, Position) -> string)

  // ---------- Trees ----------

  /** A formula is a sequence of items: blanks, and atoms with their scripts. */
  datatype Item = Gap(blanks: string) | Term(atom: Atom, scripts: seq<Script>)

  datatype Script = Script(before: string, position: Position, after: string, argument: Atom)

  datatype Atom =
    | Char(c: char)
    | Escape(c: char)
    | Command(name: string)
    | Braced(group: Argument)
    | Fraction(numerator: Argument, denominator: Argument)
    | Root(radicand: Argument)
    | Literal(gap: string, pieces: seq<Piece>)
    | Paired(opening: Delimiter, body: seq<Item>, closing: Delimiter)

  /** A braced argument, after blanks. */
  datatype Argument = Argument(gap: string, body: seq<Item>)

  /** A character of literal text. */
  datatype Piece = Plain(c: char) | Escaped(c: char)

  datatype Delimiter = Delimiter(gap: string, sign: Sign)

  datatype Sign = Bare(c: char) | Slashed(c: char) | Called(name: string)

  // ---------- How they are written ----------

  function Print(items: seq<Item>): string { if |items| == 0 then "" else PrintItem(items[0]) + Print(items[1..]) }

  function PrintItem(item: Item): string {
    match item
    case Gap(blanks) => blanks
    case Term(atom, scripts) => PrintAtom(atom) + PrintScripts(scripts)
  }

  function PrintScripts(scripts: seq<Script>): string {
    if |scripts| == 0 then "" else PrintScript(scripts[0]) + PrintScripts(scripts[1..])
  }

  function Mark(p: Position): char { if p.Sub? then '_' else '^' }

  function PrintScript(s: Script): string { s.before + [Mark(s.position)] + s.after + PrintAtom(s.argument) }

  function PrintAtom(a: Atom): string {
    match a
    case Char(c) => [c]
    case Escape(c) => ['\\', c]
    case Command(name) => "\\" + name
    case Braced(group) => PrintArgument(group)
    case Fraction(n, d) => "\\frac" + PrintArgument(n) + PrintArgument(d)
    case Root(r) => "\\sqrt" + PrintArgument(r)
    case Literal(gap, pieces) => "\\text" + gap + "{" + PrintPieces(pieces) + "}"
    case Paired(o, body, c) => "\\left" + PrintDelimiter(o) + Print(body) + "\\right" + PrintDelimiter(c)
  }

  function PrintArgument(a: Argument): string { a.gap + "{" + Print(a.body) + "}" }

  function PrintPieces(pieces: seq<Piece>): string {
    if |pieces| == 0 then "" else PrintPiece(pieces[0]) + PrintPieces(pieces[1..])
  }

  function PrintPiece(p: Piece): string { if p.Plain? then [p.c] else ['\\', p.c] }

  function PrintDelimiter(d: Delimiter): string { d.gap + PrintSign(d.sign) }

  function PrintSign(s: Sign): string {
    match s
    case Bare(c) => [c]
    case Slashed(c) => ['\\', c]
    case Called(name) => "\\" + name
  }

  // ---------- What they stand for ----------

  predicate Blank(s: string) { forall i :: 0 <= i < |s| ==> HtmlText.Space(s[i]) }

  predicate Fits(s: string) { Size(s) <= MAX_OUTPUT }

  predicate OnlyGaps(items: seq<Item>) { forall i :: 0 <= i < |items| ==> items[i].Gap? }

  function Text(items: seq<Item>, t: Tables): string
    decreases items, 1
  {
    ItemsText(items, true, t)
  }

  /** `first`: only blanks before them. A fraction that stands alone needs no parentheses. */
  function ItemsText(items: seq<Item>, first: bool, t: Tables): string
    decreases items, 0
  {
    if |items| == 0 then ""
    else
      var text := ItemText(items[0], first && OnlyGaps(items[1..]), t);
      text + ItemsText(items[1..], first && Blank(text), t)
  }

  function Parenthesized(s: string): string { "(" + s + ")" }

  function ItemText(item: Item, alone: bool, t: Tables): string {
    match item
    case Gap(_) => " "
    case Term(a, scripts) =>
      var base := AtomText(a, t);
      var grouped := (a.Fraction? && (!alone || |scripts| > 0)) || (a.Literal? && |scripts| > 0);
      (if grouped then Parenthesized(base) else base) + ScriptsText(scripts, t)
  }

  function ScriptsText(scripts: seq<Script>, t: Tables): string {
    if |scripts| == 0 then ""
    else t.span(ArgumentText(scripts[0].argument, t), scripts[0].position) + ScriptsText(scripts[1..], t)
  }

  /** What is set above or below the line: braces around it add nothing. */
  function ArgumentText(a: Atom, t: Tables): string
    decreases a, 1
  {
    if a.Braced? then Text(a.group.body, t) else AtomText(a, t)
  }

  function AtomText(a: Atom, t: Tables): string
    decreases a, 0
  {
    match a
    case Char(c) => [c]
    case Escape(c) => if Escapable(c) then [c] else if c == '!' then "" else " "
    case Command(name) =>
      if Spacing(name) then " " else if t.symbol(name).Some? then t.symbol(name).value else ""
    case Braced(group) => Parenthesized(Text(group.body, t))
    case Fraction(n, d) => Parenthesized(Text(n.body, t)) + "/" + Parenthesized(Text(d.body, t))
    case Root(r) => "√" + Parenthesized(Text(r.body, t))
    case Literal(_, pieces) => PiecesText(pieces)
    case Paired(o, body, c) => SignText(o.sign) + Text(body, t) + SignText(c.sign)
  }

  function PiecesText(pieces: seq<Piece>): string {
    if |pieces| == 0 then "" else [pieces[0].c] + PiecesText(pieces[1..])
  }

  function SignText(s: Sign): string {
    match s
    case Bare(c) => [c]
    case Slashed(c) => if c == '|' then "‖" else [c]
    case Called(name) => if name == "langle" then "⟨" else if name == "rangle" then "⟩" else "‖"
  }

  // ---------- Which are proper ----------

  predicate Escapable(c: char) {
    c == '{' || c == '}' || c == '$' || c == '%' || c == '_' || c == '#' || c == '&'
  }

  /** Characters that are no atoms of their own. */
  predicate Special(c: char) { Escapable(c) || c == '^' || c == '\\' }

  predicate SpaceEscape(c: char) { c == ',' || c == ';' || c == ':' || c == ' ' || c == '!' }

  predicate Spacing(name: string) { name == "quad" || name == "qquad" || name == "space" }

  predicate Builtin(name: string) {
    name == "frac" || name == "sqrt" || name == "text" || name == "left" || name == "right"
  }

  predicate Letters1(name: string) { |name| > 0 && forall k :: 0 <= k < |name| ==> Letter(name[k]) }

  /** Within `height` levels; a command's name ends where no letter follows, and blanks end where none does. */
  predicate Proper(items: seq<Item>, height: nat, t: Tables) {
    |items| == 0 || (ProperItem(items[0], height, t) && Proper(items[1..], height, t) && Meet(items[0], items[1..]))
  }

  predicate Meet(item: Item, rest: seq<Item>) {
    && (item.Gap? && |rest| > 0 ==> rest[0].Term?)
    && (item.Term? && NameLast(item) ==> !LetterFirst(rest))
  }

  predicate LetterFirst(items: seq<Item>) {
    |items| > 0 && items[0].Term? && items[0].atom.Char? && Letter(items[0].atom.c)
  }

  predicate NameLast(item: Item)
    requires item.Term?
  {
    if |item.scripts| == 0 then AtomNameLast(item.atom) else AtomNameLast(item.scripts[|item.scripts| - 1].argument)
  }

  predicate AtomNameLast(a: Atom) { a.Command? || (a.Paired? && a.closing.sign.Called?) }

  predicate ProperItem(item: Item, height: nat, t: Tables) {
    match item
    case Gap(blanks) => |blanks| > 0 && Blank(blanks)
    case Term(a, scripts) =>
      && ProperAtom(a, height, t) && ProperScripts(scripts, height, t) && Once(scripts, false, false)
      && (|scripts| > 0 ==> !Blank(AtomText(a, t)))
  }

  /** At most one script of each kind, and none of a kind there is already. */
  predicate Once(scripts: seq<Script>, sub: bool, sup: bool) {
    |scripts| == 0
    || (if scripts[0].position.Sub? then !sub && Once(scripts[1..], true, sup)
        else !sup && Once(scripts[1..], sub, true))
  }

  predicate ProperScripts(scripts: seq<Script>, height: nat, t: Tables) {
    |scripts| == 0 || (ProperScript(scripts[0], height, t) && ProperScripts(scripts[1..], height, t))
  }

  predicate ProperScript(s: Script, height: nat, t: Tables) {
    && Blank(s.before) && Blank(s.after) && 0 < height
    && (if s.argument.Braced? then ProperAtom(s.argument, height, t) else ProperAtom(s.argument, height - 1, t))
    && !Blank(ArgumentText(s.argument, t)) && Fits(ArgumentText(s.argument, t))
  }

  predicate ProperAtom(a: Atom, height: nat, t: Tables) {
    match a
    case Char(c) => !HtmlText.Space(c) && !Special(c)
    case Escape(c) => Escapable(c) || SpaceEscape(c)
    case Command(name) => Letters1(name) && !Builtin(name) && (Spacing(name) || t.symbol(name).Some?)
    case Braced(group) => group.gap == "" && ProperArgument(group, height, t)
    case Fraction(n, d) => ProperArgument(n, height, t) && ProperArgument(d, height, t)
    case Root(r) => ProperArgument(r, height, t)
    case Literal(gap, pieces) => Blank(gap) && 0 < height && ProperPieces(pieces, 1, height)
    case Paired(o, body, c) =>
      && ProperDelimiter(o) && ProperDelimiter(c) && 0 < height && Proper(body, height - 1, t)
      && Matching(SignText(o.sign), SignText(c.sign)) && (o.sign.Called? ==> !LetterFirst(body))
  }

  predicate ProperArgument(a: Argument, height: nat, t: Tables) {
    Blank(a.gap) && 0 < height && Proper(a.body, height - 1, t) && !Blank(Text(a.body, t))
  }

  /** Braces in literal text nest inside the `open` ones around them, within `height`. */
  predicate ProperPieces(pieces: seq<Piece>, open: nat, height: nat) {
    if |pieces| == 0 then open == 1
    else if pieces[0].Escaped? then Escapable(pieces[0].c) && ProperPieces(pieces[1..], open, height)
    else
      var c := pieces[0].c;
      if c == '{' then open < height && ProperPieces(pieces[1..], open + 1, height)
      else if c == '}' then 1 < open && ProperPieces(pieces[1..], open - 1, height)
      else c != '\\' && ProperPieces(pieces[1..], open, height)
  }

  predicate ProperDelimiter(d: Delimiter) { Blank(d.gap) && ProperSign(d.sign) }

  predicate ProperSign(s: Sign) {
    match s
    case Bare(c) => BareSign(c)
    case Slashed(c) => SlashedSign(c)
    case Called(name) => CalledSign(name)
  }

  predicate BareSign(c: char) { c == '(' || c == ')' || c == '[' || c == ']' || c == '|' }

  predicate SlashedSign(c: char) { c == '{' || c == '}' || c == '|' }

  predicate CalledSign(name: string) {
    name == "langle" || name == "rangle" || name == "lVert" || name == "rVert" || name == "Vert"
  }

  predicate Matching(opening: string, closing: string) {
    || (opening == "(" && closing == ")") || (opening == "[" && closing == "]")
    || (opening == "{" && closing == "}") || (opening == "|" && closing == "|")
    || (opening == "⟨" && closing == "⟩") || (opening == "‖" && closing == "‖")
  }

  /** `tex` is this formula: proper, not blank, and its text within bounds. */
  ghost predicate Writes(items: seq<Item>, tex: string, t: Tables) {
    Proper(items, MAX_DEPTH, t) && Print(items) == tex && Fits(Text(items, t)) && !Blank(Text(items, t))
  }
}
