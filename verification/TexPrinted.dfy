/** What is read is a proper formula, and it is written just as it was read. */
module TexPrinted {
  import opened Options
  import opened TexBrackets
  import opened TexGrammar
  import opened TexReading
  import opened Texts
  import HtmlText

  predicate NoLetter(s: string) { |s| == 0 || !Letter(s[0]) }

  // ---------- Delimiters and literal text ----------

  lemma SignIsPrinted(s: string)
    requires ReadSign(s).Some?
    ensures var (sign, rest) := ReadSign(s).value;
            s == PrintSign(sign) + rest && ProperSign(sign) && (sign.Called? ==> NoLetter(rest))
  {
    if BareSign(s[0]) {
    } else if |s| > 1 && SlashedSign(s[1]) {
    } else {
      var end := Letters(s, 1);
      assert s == "\\" + s[1..end] + s[end..];
    }
  }

  lemma DelimiterIsPrinted(s: string)
    requires ReadDelimiter(s).Some?
    ensures var (d, rest) := ReadDelimiter(s).value;
            s == PrintDelimiter(d) + rest && ProperDelimiter(d) && (d.sign.Called? ==> NoLetter(rest))
  {
    hide ReadSign, PrintSign;
    var n := Blanks(s);
    SignIsPrinted(s[n..]);
    var (sign, rest) := ReadSign(s[n..]).value;
    assert s == s[..n] + s[n..];
    assert s[..n] + (PrintSign(sign) + rest) == s[..n] + PrintSign(sign) + rest;
  }

  lemma {:induction false} PiecesArePrinted(s: string, open: nat, height: nat)
    requires 0 < open <= height && ReadPieces(s, open, height).Some?
    ensures var (pieces, rest) := ReadPieces(s, open, height).value;
            s == PrintPieces(pieces) + "}" + rest && ProperPieces(pieces, open, height)
    decreases |s|
  {
    hide PrintPieces;
    var (pieces, rest) := ReadPieces(s, open, height).value;
    if s[0] == '\\' {
      PiecesArePrinted(s[2..], open, height);
      assert s == PrintPiece(pieces[0]) + s[2..];
      PiecesJoin(pieces, s[2..], rest);
    } else if s[0] == '}' && open == 1 {
      NoPieces(s);
    } else {
      PiecesArePrinted(s[1..], OpenAfter(s[0], open), height);
      assert s == PrintPiece(pieces[0]) + s[1..];
      PiecesJoin(pieces, s[1..], rest);
    }
  }

  lemma NoPieces(s: string)
    requires |s| > 0 && s[0] == '}'
    ensures s == PrintPieces([]) + "}" + s[1..]
  {
  }

  lemma PiecesJoin(pieces: seq<Piece>, middle: string, rest: string)
    requires |pieces| > 0 && middle == PrintPieces(pieces[1..]) + "}" + rest
    ensures PrintPiece(pieces[0]) + middle == PrintPieces(pieces) + "}" + rest
  {
    hide PrintPiece;
  }

  lemma LiteralIsPrinted(s: string, height: nat, t: Tables)
    requires ReadLiteral(s, height).Some?
    ensures var (a, rest) := ReadLiteral(s, height).value;
            a.Literal? && "\\text" + s == PrintAtom(a) + rest && ProperAtom(a, height, t)
  {
    hide ReadPieces, PrintPieces, ProperPieces;
    var n := Blanks(s);
    PiecesArePrinted(s[n + 1..], 1, height);
    assert s == s[..n] + "{" + s[n + 1..];
  }

  // ---------- The grammar ----------

  lemma {:induction false} ArgumentIsPrinted(s: string, height: nat, t: Tables)
    requires ReadArgument(s, height, t).Some?
    ensures var (a, rest) := ReadArgument(s, height, t).value;
            s == PrintArgument(a) + rest && ProperArgument(a, height, t)
    decreases |s|, 0
  {
    hide ReadItems, Print, Proper, Blank, Text;
    var n := Blanks(s);
    ItemsArePrinted(s[n + 1..], height - 1, Group, t);
    var (body, rest) := ReadItems(s[n + 1..], height - 1, Group, t).value;
    assert s == s[..n] + "{" + s[n + 1..];
    assert rest == "}" + rest[1..];
  }

  lemma {:induction false} AtomIsPrinted(s: string, height: nat, t: Tables)
    requires ReadAtom(s, height, t).Some? && !HtmlText.Space(s[0])
    ensures var (a, rest) := ReadAtom(s, height, t).value;
            s == PrintAtom(a) + rest && ProperAtom(a, height, t) && (AtomNameLast(a) ==> NoLetter(rest))
    decreases |s|, 1
  {
    hide ReadArgument, ReadCommand, ProperArgument, PrintArgument, HtmlText.Space;
    if s[0] == '{' {
      ArgumentIsPrinted(s, height, t);
      BracesFirst(s, height, t);
    } else if s[0] == '\\' {
      CommandIsPrinted(s[1..], height, t);
      assert s == "\\" + s[1..];
    }
  }

  lemma BracesFirst(s: string, height: nat, t: Tables)
    requires |s| > 0 && s[0] == '{' && ReadArgument(s, height, t).Some?
    ensures ReadArgument(s, height, t).value.0.gap == ""
  {
    hide ReadItems, Text, Blank;
    assert Blanks(s) == 0;
  }

  lemma EscapeIsPrinted(s: string, height: nat, t: Tables)
    requires ReadEscape(s).Some?
    ensures var (a, rest) := ReadEscape(s).value;
            a.Escape? && "\\" + s == PrintAtom(a) + rest && ProperAtom(a, height, t)
  {
  }

  lemma {:induction false} CommandIsPrinted(s: string, height: nat, t: Tables)
    requires ReadCommand(s, height, t).Some?
    ensures var (a, rest) := ReadCommand(s, height, t).value;
            "\\" + s == PrintAtom(a) + rest && ProperAtom(a, height, t) && (AtomNameLast(a) ==> NoLetter(rest))
    decreases |s|, 1
  {
    hide ReadNamed, ReadEscape, PrintAtom, ProperAtom;
    if |s| == 0 || !Letter(s[0]) {
      EscapeIsPrinted(s, height, t);
    } else {
      var end := Letters(s, 0);
      NamedIsPrinted(s[..end], s[end..], height, t);
      assert "\\" + s == "\\" + s[..end] + s[end..];
    }
  }

  lemma {:induction false} NamedIsPrinted(name: string, s: string, height: nat, t: Tables)
    requires Letters1(name) && NoLetter(s) && ReadNamed(name, s, height, t).Some?
    ensures var (a, rest) := ReadNamed(name, s, height, t).value;
            "\\" + name + s == PrintAtom(a) + rest && ProperAtom(a, height, t) && (AtomNameLast(a) ==> NoLetter(rest))
    decreases |s|, 2
  {
    hide ReadRoot, ReadFraction, ReadPaired, ReadLiteral, PrintAtom, ProperAtom, Letters1;
    if name == "left" {
      PairedIsPrinted(s, height, t);
      assert "\\left" + s == "\\" + name + s;
    } else if name == "frac" {
      FractionIsPrinted(s, height, t);
      assert "\\frac" + s == "\\" + name + s;
    } else if name == "sqrt" {
      RootIsPrinted(s, height, t);
      assert "\\sqrt" + s == "\\" + name + s;
    } else if name == "text" {
      LiteralIsPrinted(s, height, t);
      assert "\\text" + s == "\\" + name + s;
    } else {
      NameIsPrinted(name, s, height, t);
    }
  }

  lemma NameIsPrinted(name: string, rest: string, height: nat, t: Tables)
    requires Letters1(name) && !Builtin(name) && (Spacing(name) || t.symbol(name).Some?)
    ensures PrintAtom(Command(name)) + rest == "\\" + name + rest && ProperAtom(Command(name), height, t)
  {
  }

  lemma {:induction false} RootIsPrinted(s: string, height: nat, t: Tables)
    requires ReadRoot(s, height, t).Some?
    ensures var (a, rest) := ReadRoot(s, height, t).value;
            a.Root? && "\\sqrt" + s == PrintAtom(a) + rest && ProperAtom(a, height, t)
    decreases |s|, 1
  {
    hide ReadArgument, PrintArgument, ProperArgument;
    ArgumentIsPrinted(s, height, t);
  }

  lemma {:induction false} FractionIsPrinted(s: string, height: nat, t: Tables)
    requires ReadFraction(s, height, t).Some?
    ensures var (a, rest) := ReadFraction(s, height, t).value;
            a.Fraction? && "\\frac" + s == PrintAtom(a) + rest && ProperAtom(a, height, t)
    decreases |s|, 1
  {
    hide ReadArgument, PrintArgument, ProperArgument;
    ArgumentIsPrinted(s, height, t);
    var (n, middle) := ReadArgument(s, height, t).value;
    ArgumentIsPrinted(middle, height, t);
    var (d, rest) := ReadArgument(middle, height, t).value;
    assert s == PrintArgument(n) + PrintArgument(d) + rest;
  }

  lemma {:induction false} PairedIsPrinted(s: string, height: nat, t: Tables)
    requires ReadPaired(s, height, t).Some?
    ensures var (a, rest) := ReadPaired(s, height, t).value;
            a.Paired? && "\\left" + s == PrintAtom(a) + rest && ProperAtom(a, height, t)
            && (AtomNameLast(a) ==> NoLetter(rest))
    decreases |s|, 1
  {
    hide ReadItems, Print, Proper, ReadDelimiter, PrintDelimiter, ProperDelimiter, Matching;
    var (opening, inner) := ReadDelimiter(s).value;
    DelimiterIsPrinted(s);
    ItemsArePrinted(inner, height - 1, Right, t);
    var (body, end) := ReadItems(inner, height - 1, Right, t).value;
    DelimiterIsPrinted(end[6..]);
    var (closing, rest) := ReadDelimiter(end[6..]).value;
    assert end == "\\right" + end[6..];
    if opening.sign.Called? { LettersFirst(body, end, inner); }
    PairedJoins(opening, body, closing, s, inner, end, rest);
  }

  lemma PairedJoins(opening: Delimiter, body: seq<Item>, closing: Delimiter, s: string, inner: string, end: string,
                    rest: string)
    requires s == PrintDelimiter(opening) + inner && inner == Print(body) + end
    requires end == "\\right" + (PrintDelimiter(closing) + rest)
    ensures "\\left" + s == PrintAtom(Paired(opening, body, closing)) + rest
  {
    hide PrintDelimiter, Print;
  }

  lemma LettersFirst(items: seq<Item>, rest: string, s: string)
    requires s == Print(items) + rest && NoLetter(s)
    ensures !LetterFirst(items)
  {
    if |items| > 0 && items[0].Term? && items[0].atom.Char? {
      assert PrintItem(items[0]) == [items[0].atom.c] + PrintScripts(items[0].scripts);
      assert s[0] == items[0].atom.c;
    }
  }

  lemma {:induction false} ScriptedIsPrinted(s: string, height: nat, t: Tables)
    requires ReadScripted(s, height, t).Some? && !HtmlText.Space(s[0])
    ensures var (a, rest) := ReadScripted(s, height, t).value;
            && s == PrintAtom(a) + rest && (AtomNameLast(a) ==> NoLetter(rest))
            && 0 < height && (if a.Braced? then ProperAtom(a, height, t) else ProperAtom(a, height - 1, t))
    decreases |s|, 2
  {
    hide ReadAtom, PrintAtom, ProperAtom;
    if s[0] == '{' {
      AtomIsPrinted(s, height, t);
      BracesMakeBraced(s, height, t);
    } else {
      AtomIsPrinted(s, height - 1, t);
      BracesMakeBraced(s, height - 1, t);
    }
  }

  lemma BracesMakeBraced(s: string, height: nat, t: Tables)
    requires ReadAtom(s, height, t).Some?
    ensures ReadAtom(s, height, t).value.0.Braced? <==> s[0] == '{'
  {
    hide ReadArgument, ReadItems, ReadLiteral, ReadPaired, ReadFraction, ReadRoot, ReadEscape;
    if s[0] == '\\' { CommandsAreNotBraced(s[1..], height, t); }
  }

  lemma CommandsAreNotBraced(s: string, height: nat, t: Tables)
    requires ReadCommand(s, height, t).Some?
    ensures !ReadCommand(s, height, t).value.0.Braced?
  {
    hide ReadArgument, ReadItems, ReadDelimiter, ReadPieces;
    if |s| > 0 && Letter(s[0]) {
      var end := Letters(s, 0);
      assert ReadNamed(s[..end], s[end..], height, t).Some?;
    }
  }

  lemma {:induction false} ScriptIsPrinted(s: string, n: nat, position: Position, height: nat, blank: bool, t: Tables)
    requires n < |s| && Blank(s[..n]) && s[n] == Mark(position) && ReadScript(s, n, position, height, blank, t).Some?
    ensures var (script, rest) := ReadScript(s, n, position, height, blank, t).value;
            && s == PrintScript(script) + rest && ProperScript(script, height, t) && !blank
            && script.position == position && (AtomNameLast(script.argument) ==> NoLetter(rest))
    decreases |s|, 2
  {
    hide ReadScripted, PrintAtom, ProperAtom, ArgumentText, Fits, Blank;
    var m := Blanks(s[n + 1..]);
    var from := s[n + 1..][m..];
    ScriptedIsPrinted(from, height, t);
    var (argument, rest) := ReadScripted(from, height, t).value;
    assert s == s[..n] + [s[n]] + s[n + 1..][..m] + from;
  }

  /** The scripts, and whether a name ends the last of them. */
  predicate EndsWell(scripts: seq<Script>, rest: string) {
    |scripts| > 0 && AtomNameLast(scripts[|scripts| - 1].argument) ==> NoLetter(rest)
  }

  lemma {:induction false} ScriptsArePrinted(s: string, height: nat, blank: bool, sub: bool, sup: bool, t: Tables)
    requires ReadScripts(s, height, blank, sub, sup, t).Some?
    ensures var (scripts, rest) := ReadScripts(s, height, blank, sub, sup, t).value;
            && s == PrintScripts(scripts) + rest && ProperScripts(scripts, height, t) && Once(scripts, sub, sup)
            && (|scripts| > 0 ==> !blank) && EndsWell(scripts, rest) && (|scripts| == 0 ==> rest == s)
    decreases |s|, 3
  {
    hide ReadScript, PrintScript, ProperScript, Blank;
    var n := Blanks(s);
    if n < |s| && (s[n] == '_' || s[n] == '^') {
      var position := if s[n] == '_' then Sub else Super;
      ScriptIsPrinted(s, n, position, height, blank, t);
      var (script, middle) := ReadScript(s, n, position, height, blank, t).value;
      ScriptsArePrinted(middle, height, false, sub || position.Sub?, sup || position.Super?, t);
      var (more, rest) := ReadScripts(middle, height, false, sub || position.Sub?, sup || position.Super?, t).value;
      ScriptsJoin(script, more, middle, rest);
    }
  }

  lemma ScriptsJoin(script: Script, more: seq<Script>, middle: string, rest: string)
    requires middle == PrintScripts(more) + rest && (AtomNameLast(script.argument) ==> NoLetter(middle))
    requires EndsWell(more, rest)
    ensures PrintScript(script) + middle == PrintScripts([script] + more) + rest && EndsWell([script] + more, rest)
  {
    hide PrintScript;
    assert ([script] + more)[1..] == more;
    if more == [] { assert middle == rest; }
  }

  lemma {:induction false} TermIsPrinted(s: string, height: nat, t: Tables)
    requires ReadTerm(s, height, t).Some? && !HtmlText.Space(s[0])
    ensures var (item, rest) := ReadTerm(s, height, t).value;
            && item.Term? && s == PrintItem(item) + rest && ProperItem(item, height, t)
            && (NameLast(item) ==> NoLetter(rest))
    decreases |s|, 2
  {
    hide ReadAtom, PrintAtom, ProperAtom, ReadScripts, PrintScripts, ProperScripts, AtomText, Blank, Once;
    AtomIsPrinted(s, height, t);
    var (atom, middle) := ReadAtom(s, height, t).value;
    ScriptsArePrinted(middle, height, Blank(AtomText(atom, t)), false, false, t);
  }

  lemma {:induction false} ItemsArePrinted(s: string, height: nat, stop: Stop, t: Tables)
    requires ReadItems(s, height, stop, t).Some?
    ensures var (items, rest) := ReadItems(s, height, stop, t).value;
            s == Print(items) + rest && Proper(items, height, t) && Stops(rest, stop)
    ensures ReadItems(s, height, stop, t).value.0 != [] && !HtmlText.Space(s[0])
            ==> ReadItems(s, height, stop, t).value.0[0].Term?
    decreases |s|, 3
  {
    hide ReadTerm, PrintItem, ProperItem, HtmlText.Space, Stops;
    if Stops(s, stop) {
    } else if HtmlText.Space(s[0]) {
      var n := Blanks(s);
      ItemsArePrinted(s[n..], height, stop, t);
      var (more, rest) := ReadItems(s[n..], height, stop, t).value;
      GapIsPrinted(s, n, height, t);
      if more != [] { assert |s[n..]| > 0 by { StopsLater(s[n..], height, stop, t); } assert s[n..][0] == s[n]; }
      ItemsJoin(Gap(s[..n]), more, s[n..], rest, height, t);
    } else {
      TermIsPrinted(s, height, t);
      var (item, middle) := ReadTerm(s, height, t).value;
      ItemsArePrinted(middle, height, stop, t);
      var (more, rest) := ReadItems(middle, height, stop, t).value;
      if NameLast(item) { LettersFirst(more, rest, middle); }
      ItemsJoin(item, more, middle, rest, height, t);
    }
  }

  lemma GapIsPrinted(s: string, n: nat, height: nat, t: Tables)
    requires n == Blanks(s) && |s| > 0 && HtmlText.Space(s[0])
    ensures n > 0 && s == PrintItem(Gap(s[..n])) + s[n..] && ProperItem(Gap(s[..n]), height, t)
  {
  }

  lemma StopsLater(s: string, height: nat, stop: Stop, t: Tables)
    requires ReadItems(s, height, stop, t).Some? && ReadItems(s, height, stop, t).value.0 != []
    ensures |s| > 0
  {
    hide ReadTerm;
  }

  lemma ItemsJoin(item: Item, more: seq<Item>, middle: string, rest: string, height: nat, t: Tables)
    requires middle == Print(more) + rest && ProperItem(item, height, t) && Proper(more, height, t) && Meet(item, more)
    ensures PrintItem(item) + middle == Print([item] + more) + rest && Proper([item] + more, height, t)
  {
    hide PrintItem, ProperItem, Meet;
    assert ([item] + more)[1..] == more;
  }
}
