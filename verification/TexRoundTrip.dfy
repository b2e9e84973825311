/** Every proper formula, written down, is read back as itself; so what is accepted has one tree only. */
module TexRoundTrip {
  import opened Options
  import opened TexBrackets
  import opened TexGrammar
  import opened TexPrinted
  import opened TexReading
  import opened Texts
  import HtmlText

  // ---------- Blanks and names ----------

  predicate NoSpace(s: string) { |s| == 0 || !HtmlText.Space(s[0]) }

  lemma {:induction false} BlanksOf(gap: string, rest: string)
    requires Blank(gap) && NoSpace(rest)
    ensures Blanks(gap + rest) == |gap| && (gap + rest)[..|gap|] == gap && (gap + rest)[|gap|..] == rest
  {
    if |gap| > 0 {
      BlanksOf(gap[1..], rest);
      assert (gap + rest)[1..] == gap[1..] + rest;
    } else {
      assert gap + rest == rest;
    }
  }

  lemma LettersOf(name: string, rest: string)
    requires (forall k :: 0 <= k < |name| ==> Letter(name[k])) && NoLetter(rest)
    ensures Letters(name + rest, 0) == |name| && (name + rest)[..|name|] == name && (name + rest)[|name|..] == rest
    ensures Letters("\\" + name + rest, 1) == 1 + |name|
    ensures ("\\" + name + rest)[1..1 + |name|] == name && ("\\" + name + rest)[1 + |name|..] == rest
  {
    LettersEnd(name + rest, 0, |name|);
    LettersEnd("\\" + name + rest, 1, 1 + |name|);
  }

  lemma {:induction false} LettersEnd(s: string, i: nat, end: nat)
    requires i <= end <= |s| && (forall k :: i <= k < end ==> Letter(s[k])) && (end < |s| ==> !Letter(s[end]))
    ensures Letters(s, i) == end
    decreases end - i
  {
    if i < end { LettersEnd(s, i + 1, end); }
  }

  // ---------- Delimiters and literal text ----------

  lemma SignIsRead(sign: Sign, rest: string)
    requires ProperSign(sign) && (sign.Called? ==> NoLetter(rest))
    ensures ReadSign(PrintSign(sign) + rest) == Some((sign, rest)) && NoSpace(PrintSign(sign) + rest)
  {
    hide Letters, CalledSign;
    match sign {
      case Bare(c) =>
        assert ([c] + rest)[1..] == rest;
      case Slashed(c) =>
        assert (['\\', c] + rest)[2..] == rest;
      case Called(name) =>
        CalledAreLetters(name);
        LettersOf(name, rest);
        assert ("\\" + name + rest)[1] == name[0];
    }
  }

  lemma CalledAreLetters(name: string)
    requires CalledSign(name)
    ensures Letters1(name)
  {
  }

  lemma DelimiterIsRead(d: Delimiter, rest: string)
    requires ProperDelimiter(d) && (d.sign.Called? ==> NoLetter(rest))
    ensures ReadDelimiter(PrintDelimiter(d) + rest) == Some((d, rest))
  {
    hide ReadSign, PrintSign, ProperSign, Blanks;
    SignIsRead(d.sign, rest);
    assert PrintDelimiter(d) + rest == d.gap + (PrintSign(d.sign) + rest);
    BlanksOf(d.gap, PrintSign(d.sign) + rest);
  }

  lemma {:induction false} PiecesAreRead(pieces: seq<Piece>, open: nat, height: nat, rest: string)
    requires 0 < open && ProperPieces(pieces, open, height)
    ensures ReadPieces(PrintPieces(pieces) + "}" + rest, open, height) == Some((pieces, rest))
  {
    var s := PrintPieces(pieces) + "}" + rest;
    if |pieces| == 0 {
      assert s == "}" + rest && s[1..] == rest;
    } else {
      var p := pieces[0];
      assert s == PrintPiece(p) + (PrintPieces(pieces[1..]) + "}" + rest);
      assert pieces == [p] + pieces[1..];
      if p.Escaped? {
        PiecesAreRead(pieces[1..], open, height, rest);
        assert s[2..] == PrintPieces(pieces[1..]) + "}" + rest;
      } else {
        PiecesAreRead(pieces[1..], OpenAfter(p.c, open), height, rest);
        assert s[1..] == PrintPieces(pieces[1..]) + "}" + rest;
      }
    }
  }

  lemma LiteralIsRead(a: Atom, rest: string, height: nat, t: Tables)
    requires a.Literal? && ProperAtom(a, height, t)
    ensures ReadLiteral(a.gap + "{" + PrintPieces(a.pieces) + "}" + rest, height) == Some((a, rest))
  {
    hide ReadPieces, PrintPieces, ProperPieces, Blanks;
    var inner := PrintPieces(a.pieces) + "}" + rest;
    PiecesAreRead(a.pieces, 1, height, rest);
    BlanksOf(a.gap, "{" + inner);
    var s := a.gap + "{" + PrintPieces(a.pieces) + "}" + rest;
    assert s == a.gap + ("{" + inner);
    assert s[|a.gap| + 1..] == inner;
  }

  // ---------- How things begin ----------

  predicate NotMark(s: string) { |s| == 0 || (s[0] != '_' && s[0] != '^') }

  /** No script is next, even after blanks. */
  predicate NoScript(s: string) { NotMark(s[Blanks(s)..]) }

  lemma AtomBegins(a: Atom, height: nat, t: Tables)
    requires ProperAtom(a, height, t)
    ensures var s := PrintAtom(a);
            |s| > 0 && !HtmlText.Space(s[0]) && NotMark(s) && s[0] != '}' && (s[0] == '\\' || s[0] == '{' || a.Char?)
            && (a.Braced? <==> s[0] == '{')
  {
    hide Print, Proper, PrintPieces, ProperPieces, PrintDelimiter, ProperDelimiter, Text;
  }

  /** An atom is never mistaken for the end of what it stands in. */
  lemma AtomsDoNotStop(a: Atom, rest: string, height: nat, stop: Stop, t: Tables)
    requires ProperAtom(a, height, t) && (AtomNameLast(a) ==> NoLetter(rest))
    ensures !Stops(PrintAtom(a) + rest, stop)
  {
    hide PrintArgument, ProperArgument, Print, Proper, PrintPieces, ProperPieces, PrintDelimiter, ProperDelimiter,
      CommandIs;
    var s := PrintAtom(a) + rest;
    AtomBegins(a, height, t);
    assert |s| > 0 && s[0] == PrintAtom(a)[0];
    OtherCommand(s);
    match a {
      case Command(name) => NamesDiffer(name, "right", rest);
      case Escape(c) => assert s[1] == c;
      case Fraction(_, _) => assert s[1] == 'f';
      case Root(_) => assert s[1] == 's';
      case Literal(_, _) => assert s[1] == 't';
      case Paired(_, _, _) => assert s[1] == 'l';
      case _ =>
    }
  }

  lemma OtherCommand(s: string)
    ensures |s| > 1 && s[1] != 'r' ==> !CommandIs(s, "right")
    ensures |s| > 0 && s[0] != '\\' ==> !CommandIs(s, "right")
  {
    assert |"\\right"| == 6;
  }

  /** A command is the one that is next only if it has that name. */
  lemma NamesDiffer(name: string, other: string, rest: string)
    requires Letters1(name) && Letters1(other) && name != other && NoLetter(rest)
    ensures !CommandIs("\\" + name + rest, other)
  {
    hide CommandIs;
    LettersOf(name, rest);
    CommandHasName("\\" + name + rest, other);
  }

  lemma CommandHasName(s: string, other: string)
    requires |s| > 0 && Letters1(other)
    ensures CommandIs(s, other) ==> s[1..Letters(s, 1)] == other
  {
    if CommandIs(s, other) {
      var n := 1 + |other|;
      assert forall k :: 1 <= k < n ==> s[k] == other[k - 1];
      LettersEnd(s, 1, n);
    }
  }

  lemma StopsBegin(rest: string, stop: Stop)
    requires Stops(rest, stop)
    ensures NoSpace(rest) && NotMark(rest) && NoLetter(rest)
  {
  }

  /** What is written after an item is neither a script of it nor the rest of its name. */
  lemma ItemsBegin(items: seq<Item>, rest: string, height: nat, stop: Stop, t: Tables)
    requires Proper(items, height, t) && Stops(rest, stop)
    ensures |items| == 0 || items[0].Term? ==> NoSpace(Print(items) + rest)
    ensures NoScript(Print(items) + rest)
    ensures !LetterFirst(items) ==> NoLetter(Print(items) + rest)
  {
    hide PrintAtom, ProperAtom, PrintScripts, ProperScripts, Stops, AtomText, Once, Blank;
    StopsBegin(rest, stop);
    if |items| == 0 {
      assert Print(items) + rest == rest;
      NothingBefore(rest);
    } else if items[0].Term? {
      TermBegins(items, rest, height, t);
    } else {
      var more := Print(items[1..]) + rest;
      if |items| > 1 { TermBegins(items[1..], rest, height, t); } else { assert more == rest; }
      GapBegins(items[0].blanks, more);
      assert Print(items) + rest == items[0].blanks + more;
    }
  }

  lemma NothingBefore(s: string)
    requires NoSpace(s)
    ensures Blanks(s) == 0 && s[0..] == s
  {
  }

  lemma GapBegins(gap: string, more: string)
    requires Blank(gap) && |gap| > 0 && NoSpace(more) && NotMark(more)
    ensures NoScript(gap + more) && NoLetter(gap + more)
  {
    BlanksOf(gap, more);
    assert HtmlText.Space(gap[0]);
  }

  lemma TermBegins(items: seq<Item>, rest: string, height: nat, t: Tables)
    requires |items| > 0 && items[0].Term? && Proper(items, height, t)
    ensures var s := Print(items) + rest;
            NoSpace(s) && NotMark(s) && NoScript(s) && (!LetterFirst(items) ==> NoLetter(s))
  {
    hide ProperAtom, PrintScripts, ProperScripts, AtomText, Once, PrintAtom;
    var a := items[0].atom;
    AtomBegins(a, height, t);
    if a.Char? { CharBegins(a); }
    var s := Print(items) + rest;
    assert Print(items) == PrintAtom(a) + PrintScripts(items[0].scripts) + Print(items[1..]);
    assert s[0] == PrintAtom(a)[0];
    NothingBefore(s);
  }

  lemma CharBegins(a: Atom)
    requires a.Char?
    ensures PrintAtom(a) == [a.c]
  {
  }

  // ---------- The grammar ----------

  lemma {:induction false} ArgumentIsRead(a: Argument, rest: string, height: nat, t: Tables)
    requires ProperArgument(a, height, t)
    ensures ReadArgument(PrintArgument(a) + rest, height, t) == Some((a, rest))
    decreases a, 1
  {
    hide ReadItems, Print, Proper, Text, Blanks, Blank;
    var inner := Print(a.body) + ("}" + rest);
    ItemsAreRead(a.body, "}" + rest, height - 1, Group, t);
    BlanksOf(a.gap, "{" + inner);
    var s := PrintArgument(a) + rest;
    assert s == a.gap + ("{" + inner);
    assert s[|a.gap| + 1..] == inner;
    assert ("}" + rest)[1..] == rest;
  }

  lemma {:induction false} AtomIsRead(a: Atom, rest: string, height: nat, t: Tables)
    requires ProperAtom(a, height, t) && (AtomNameLast(a) ==> NoLetter(rest))
    ensures ReadAtom(PrintAtom(a) + rest, height, t) == Some((a, rest))
    decreases a, 2
  {
    hide ReadAtom, PrintAtom, ProperArgument, Proper, ProperPieces, ProperDelimiter, Matching, SignText, LetterFirst,
      Spacing, Builtin, Letters1, Escapable, SpaceEscape, Special, HtmlText.Space;
    match a {
      case Char(c) =>
        CharIsRead(c, rest, height, t);
      case Escape(c) =>
        EscapeIsRead(c, rest, height, t);
      case Command(name) =>
        NameIsRead(name, rest, height, t);
      case Braced(group) =>
        ArgumentIsRead(group, rest, height, t);
        BracedIsRead(group, rest, height, t);
      case Fraction(n, d) =>
        ArgumentIsRead(n, PrintArgument(d) + rest, height, t);
        ArgumentIsRead(d, rest, height, t);
        FractionIsRead(n, d, rest, height, t);
      case Root(r) =>
        ArgumentIsRead(r, rest, height, t);
        RootIsRead(r, rest, height, t);
      case Literal(gap, pieces) =>
        LiteralIsRead(a, rest, height, t);
        TextIsRead(a, rest, height, t);
      case Paired(o, body, c) =>
        ItemsAreRead(body, "\\right" + PrintDelimiter(c) + rest, height - 1, Right, t) by { RightStops(c, rest); }
        PairedIsRead(o, body, c, rest, height, t);
        LeftIsRead(o, body, c, rest, height, t);
    }
  }

  /** A backslash makes a command. */
  lemma CommandIsRead(s: string, height: nat, t: Tables)
    ensures ReadAtom("\\" + s, height, t) == ReadCommand(s, height, t)
  {
    hide ReadArgument, ReadCommand;
    assert ("\\" + s)[1..] == s;
  }

  lemma CharIsRead(c: char, rest: string, height: nat, t: Tables)
    requires ProperAtom(Char(c), height, t)
    ensures ReadAtom(PrintAtom(Char(c)) + rest, height, t) == Some((Char(c), rest))
  {
    assert ([c] + rest)[1..] == rest;
  }

  lemma EscapeIsRead(c: char, rest: string, height: nat, t: Tables)
    requires ProperAtom(Escape(c), height, t)
    ensures ReadAtom(PrintAtom(Escape(c)) + rest, height, t) == Some((Escape(c), rest))
  {
    hide ReadAtom;
    assert PrintAtom(Escape(c)) + rest == "\\" + ([c] + rest);
    CommandIsRead([c] + rest, height, t);
    assert ([c] + rest)[1..] == rest;
  }

  lemma NameIsRead(name: string, rest: string, height: nat, t: Tables)
    requires ProperAtom(Command(name), height, t) && NoLetter(rest)
    ensures ReadAtom(PrintAtom(Command(name)) + rest, height, t) == Some((Command(name), rest))
  {
    hide ReadAtom, ReadPaired, ReadFraction, ReadLiteral, ReadRoot, Letters;
    assert PrintAtom(Command(name)) + rest == "\\" + (name + rest);
    CommandIsRead(name + rest, height, t);
    LettersOf(name, rest);
    assert (name + rest)[0] == name[0];
  }

  lemma BracedIsRead(group: Argument, rest: string, height: nat, t: Tables)
    requires group.gap == "" && ReadArgument(PrintArgument(group) + rest, height, t) == Some((group, rest))
    ensures ReadAtom(PrintAtom(Braced(group)) + rest, height, t) == Some((Braced(group), rest))
  {
    hide ReadArgument, Print;
    assert (PrintArgument(group) + rest)[0] == '{';
  }

  lemma BuiltinIsRead(name: string, rest: string, height: nat, t: Tables)
    requires Letters1(name) && Builtin(name) && NoLetter(rest)
    ensures name == "left" ==> ReadCommand(name + rest, height, t) == ReadPaired(rest, height, t)
    ensures name == "frac" ==> ReadCommand(name + rest, height, t) == ReadFraction(rest, height, t)
    ensures name == "text" ==> ReadCommand(name + rest, height, t) == ReadLiteral(rest, height)
    ensures name == "sqrt" ==> ReadCommand(name + rest, height, t) == ReadRoot(rest, height, t)
  {
    hide ReadPaired, ReadFraction, ReadLiteral, ReadRoot, Letters;
    LettersOf(name, rest);
    assert (name + rest)[0] == name[0];
  }

  lemma FractionIsRead(n: Argument, d: Argument, rest: string, height: nat, t: Tables)
    requires Blank(n.gap) && ReadArgument(PrintArgument(n) + (PrintArgument(d) + rest), height, t)
             == Some((n, PrintArgument(d) + rest))
    requires ReadArgument(PrintArgument(d) + rest, height, t) == Some((d, rest))
    ensures ReadAtom(PrintAtom(Fraction(n, d)) + rest, height, t) == Some((Fraction(n, d), rest))
  {
    hide ReadAtom, ReadCommand, ReadArgument, PrintArgument, Blank;
    var inner := PrintArgument(n) + (PrintArgument(d) + rest);
    assert PrintAtom(Fraction(n, d)) + rest == "\\" + ("frac" + inner);
    CommandIsRead("frac" + inner, height, t);
    ArgumentBegins(n, PrintArgument(d) + rest);
    BuiltinIsRead("frac", inner, height, t);
  }

  lemma RootIsRead(r: Argument, rest: string, height: nat, t: Tables)
    requires Blank(r.gap) && ReadArgument(PrintArgument(r) + rest, height, t) == Some((r, rest))
    ensures ReadAtom(PrintAtom(Root(r)) + rest, height, t) == Some((Root(r), rest))
  {
    hide ReadAtom, ReadCommand, ReadArgument, PrintArgument, Blank;
    var inner := PrintArgument(r) + rest;
    assert PrintAtom(Root(r)) + rest == "\\" + ("sqrt" + inner);
    CommandIsRead("sqrt" + inner, height, t);
    ArgumentBegins(r, rest);
    BuiltinIsRead("sqrt", inner, height, t);
  }

  lemma TextIsRead(a: Atom, rest: string, height: nat, t: Tables)
    requires a.Literal? && Blank(a.gap)
    requires ReadLiteral(a.gap + "{" + PrintPieces(a.pieces) + "}" + rest, height) == Some((a, rest))
    ensures ReadAtom(PrintAtom(a) + rest, height, t) == Some((a, rest))
  {
    hide ReadAtom, ReadCommand, ReadLiteral, PrintPieces, Blank;
    var last := "{" + PrintPieces(a.pieces) + "}" + rest;
    var inner := a.gap + "{" + PrintPieces(a.pieces) + "}" + rest;
    assert inner == a.gap + last;
    assert PrintAtom(a) + rest == "\\" + ("text" + inner);
    CommandIsRead("text" + inner, height, t);
    GapNoLetter(a.gap, last);
    BuiltinIsRead("text", inner, height, t);
  }

  lemma LeftIsRead(o: Delimiter, body: seq<Item>, c: Delimiter, rest: string, height: nat, t: Tables)
    requires ProperDelimiter(o)
    requires ReadPaired(PrintDelimiter(o) + (Print(body) + ("\\right" + PrintDelimiter(c) + rest)), height, t)
          == Some((Paired(o, body, c), rest))
    ensures ReadAtom(PrintAtom(Paired(o, body, c)) + rest, height, t) == Some((Paired(o, body, c), rest))
  {
    hide ReadAtom, ReadCommand, ReadPaired, PrintDelimiter, ProperDelimiter, Print;
    var last := Print(body) + ("\\right" + PrintDelimiter(c) + rest);
    var inner := PrintDelimiter(o) + last;
    assert PrintAtom(Paired(o, body, c)) + rest == "\\" + ("left" + inner);
    CommandIsRead("left" + inner, height, t);
    DelimiterBegins(o, last);
    BuiltinIsRead("left", inner, height, t);
  }

  lemma RightStops(c: Delimiter, rest: string)
    requires ProperDelimiter(c)
    ensures var end := "\\right" + PrintDelimiter(c) + rest; Stops(end, Right) && end[6..] == PrintDelimiter(c) + rest
  {
    hide PrintDelimiter, ProperDelimiter;
    var end := "\\right" + PrintDelimiter(c) + rest;
    DelimiterBegins(c, rest);
    assert end[..6] == "\\right" && end[6..] == PrintDelimiter(c) + rest;
  }

  lemma PairedIsRead(o: Delimiter, body: seq<Item>, c: Delimiter, rest: string, height: nat, t: Tables)
    requires ProperAtom(Paired(o, body, c), height, t) && (c.sign.Called? ==> NoLetter(rest))
    requires ReadItems(Print(body) + ("\\right" + PrintDelimiter(c) + rest), height - 1, Right, t)
          == Some((body, "\\right" + PrintDelimiter(c) + rest))
    ensures ReadPaired(PrintDelimiter(o) + (Print(body) + ("\\right" + PrintDelimiter(c) + rest)), height, t)
         == Some((Paired(o, body, c), rest))
  {
    hide ReadDelimiter, PrintDelimiter, ProperDelimiter, ReadItems, Print, Proper, Matching, LetterFirst, SignText, Stops;
    var end := "\\right" + PrintDelimiter(c) + rest;
    DelimiterIsRead(c, rest);
    RightStops(c, rest);
    ItemsBegin(body, end, height - 1, Right, t);
    DelimiterIsRead(o, Print(body) + end);
  }

  lemma GapNoLetter(gap: string, rest: string)
    requires Blank(gap) && NoLetter(rest)
    ensures NoLetter(gap + rest)
  {
    assert |gap| > 0 ==> HtmlText.Space(gap[0]);
  }

  lemma ArgumentBegins(a: Argument, rest: string)
    requires Blank(a.gap)
    ensures NoLetter(PrintArgument(a) + rest)
  {
    hide Print;
    GapNoLetter(a.gap, "{" + Print(a.body) + "}" + rest);
    assert PrintArgument(a) + rest == a.gap + ("{" + Print(a.body) + "}" + rest);
  }

  lemma DelimiterBegins(d: Delimiter, rest: string)
    requires ProperDelimiter(d)
    ensures NoLetter(PrintDelimiter(d) + rest)
  {
    GapNoLetter(d.gap, PrintSign(d.sign) + rest);
    assert PrintDelimiter(d) + rest == d.gap + (PrintSign(d.sign) + rest);
  }

  // ---------- Scripts and items ----------

  lemma {:induction false} ScriptedIsRead(a: Atom, rest: string, height: nat, t: Tables)
    requires 0 < height && (AtomNameLast(a) ==> NoLetter(rest))
    requires if a.Braced? then ProperAtom(a, height, t) else ProperAtom(a, height - 1, t)
    ensures ReadScripted(PrintAtom(a) + rest, height, t) == Some((a, rest)) && NoSpace(PrintAtom(a) + rest)
    decreases a, 3
  {
    hide ReadAtom, PrintAtom, ProperAtom;
    var level := if a.Braced? then height else height - 1;
    AtomBegins(a, level, t);
    AtomIsRead(a, rest, level, t);
    assert (PrintAtom(a) + rest)[0] == PrintAtom(a)[0];
  }

  lemma {:induction false} ScriptIsRead(s: Script, rest: string, height: nat, t: Tables)
    requires ProperScript(s, height, t) && (AtomNameLast(s.argument) ==> NoLetter(rest))
    ensures var all := PrintScript(s) + rest;
            && Blanks(all) == |s.before| < |all| && all[|s.before|] == Mark(s.position)
            && ReadScript(all, |s.before|, s.position, height, false, t) == Some((s, rest))
    decreases s, 4
  {
    hide ReadScripted, PrintScript, PrintAtom, ProperAtom, Blanks, Blank, ArgumentText, Fits;
    ScriptedIsRead(s.argument, rest, height, t);
    ScriptParts(s, rest);
  }

  /** Where the parts of a written script stand. */
  lemma ScriptParts(s: Script, rest: string)
    requires Blank(s.before) && Blank(s.after) && NoSpace(PrintAtom(s.argument) + rest)
    ensures var all, n, m := PrintScript(s) + rest, |s.before|, |s.after|;
            && Blanks(all) == n < |all| && all[..n] == s.before && all[n] == Mark(s.position)
            && Blanks(all[n + 1..]) == m && all[n + 1..][..m] == s.after
            && all[n + 1..][m..] == PrintAtom(s.argument) + rest
  {
    hide PrintAtom, Blanks, Blank;
    var n := |s.before|;
    var argument := PrintAtom(s.argument) + rest;
    var all := PrintScript(s) + rest;
    BlanksOf(s.after, argument);
    BlanksOf(s.before, [Mark(s.position)] + (s.after + argument));
    assert all == s.before + ([Mark(s.position)] + (s.after + argument));
    assert all[n + 1..] == s.after + argument;
  }

  lemma {:induction false} ScriptsAreRead(scripts: seq<Script>, rest: string, height: nat, blank: bool, sub: bool,
                                          sup: bool, t: Tables)
    requires ProperScripts(scripts, height, t) && Once(scripts, sub, sup) && (|scripts| > 0 ==> !blank)
    requires EndsWell(scripts, rest) && NoScript(rest)
    ensures ReadScripts(PrintScripts(scripts) + rest, height, blank, sub, sup, t) == Some((scripts, rest))
    decreases scripts, 4
  {
    hide ReadScripts, PrintScript, ProperScript, Blanks, NoScript;
    if |scripts| == 0 {
      assert PrintScripts(scripts) + rest == rest;
      NoScriptIsRead(rest, height, blank, sub, sup, t);
    } else {
      var s, more := scripts[0], scripts[1..];
      var middle := PrintScripts(more) + rest;
      MoreEndWell(scripts, rest, height, t);
      ScriptIsRead(s, middle, height, t);
      ScriptsAreRead(more, rest, height, false, sub || s.position.Sub?, sup || s.position.Super?, t);
      FirstScriptIsRead(s, middle, more, rest, height, sub, sup, t);
      assert PrintScripts(scripts) + rest == PrintScript(s) + middle;
      assert scripts == [s] + more;
    }
  }

  lemma NoScriptIsRead(rest: string, height: nat, blank: bool, sub: bool, sup: bool, t: Tables)
    requires NoScript(rest)
    ensures ReadScripts(rest, height, blank, sub, sup, t) == Some(([], rest))
  {
    hide ReadScript, Blanks;
  }

  lemma FirstScriptIsRead(s: Script, middle: string, more: seq<Script>, rest: string, height: nat, sub: bool, sup: bool,
                          t: Tables)
    requires var all := PrintScript(s) + middle;
             && Blanks(all) == |s.before| < |all| && all[|s.before|] == Mark(s.position)
             && ReadScript(all, |s.before|, s.position, height, false, t) == Some((s, middle))
    requires ReadScripts(middle, height, false, sub || s.position.Sub?, sup || s.position.Super?, t)
          == Some((more, rest))
    requires if s.position.Sub? then !sub else !sup
    ensures ReadScripts(PrintScript(s) + middle, height, false, sub, sup, t) == Some(([s] + more, rest))
  {
    hide ReadScript, PrintScript, Blanks;
  }

  lemma MoreEndWell(scripts: seq<Script>, rest: string, height: nat, t: Tables)
    requires |scripts| > 0 && ProperScripts(scripts, height, t) && EndsWell(scripts, rest)
    ensures EndsWell(scripts[1..], rest)
    ensures AtomNameLast(scripts[0].argument) ==> NoLetter(PrintScripts(scripts[1..]) + rest)
  {
    hide PrintScript, ProperScript;
    var more := scripts[1..];
    ScriptsBegin(more, rest, height, t);
    if |more| > 0 {
      assert more[|more| - 1] == scripts[|scripts| - 1];
    } else {
      assert PrintScripts(more) + rest == rest;
    }
  }

  lemma ScriptsBegin(scripts: seq<Script>, rest: string, height: nat, t: Tables)
    requires ProperScripts(scripts, height, t)
    ensures |scripts| > 0 ==> NoLetter(PrintScripts(scripts) + rest)
  {
    hide PrintAtom, ProperAtom, ArgumentText, Fits;
    if |scripts| > 0 {
      var s := scripts[0];
      var inner := [Mark(s.position)] + s.after + PrintAtom(s.argument) + PrintScripts(scripts[1..]) + rest;
      assert PrintScripts(scripts) + rest == s.before + inner;
      GapNoLetter(s.before, inner);
    }
  }

  lemma NothingPrinted(scripts: seq<Script>, rest: string)
    requires |scripts| == 0
    ensures PrintScripts(scripts) + rest == rest
  {
  }

  lemma {:induction false} TermIsRead(item: Item, rest: string, height: nat, t: Tables)
    requires item.Term? && ProperItem(item, height, t) && (NameLast(item) ==> NoLetter(rest)) && NoScript(rest)
    ensures ReadTerm(PrintItem(item) + rest, height, t) == Some((item, rest))
    decreases item, 5
  {
    hide ReadAtom, PrintAtom, ProperAtom, ReadScripts, PrintScripts, ProperScripts, AtomText, Once, NoScript, Blank;
    var middle := PrintScripts(item.scripts) + rest;
    ScriptsBegin(item.scripts, rest, height, t);
    if |item.scripts| == 0 { NothingPrinted(item.scripts, rest); }
    AtomIsRead(item.atom, middle, height, t);
    ScriptsAreRead(item.scripts, rest, height, Blank(AtomText(item.atom, t)), false, false, t);
    assert PrintItem(item) + rest == PrintAtom(item.atom) + middle;
  }

  lemma {:induction false} ItemsAreRead(items: seq<Item>, rest: string, height: nat, stop: Stop, t: Tables)
    requires Proper(items, height, t) && Stops(rest, stop)
    ensures ReadItems(Print(items) + rest, height, stop, t) == Some((items, rest))
    decreases items, 6
  {
    hide ReadTerm, Stops, PrintItem, ProperItem, Blanks, NoScript, NameLast, LetterFirst;
    if |items| == 0 {
      assert Print(items) + rest == rest;
    } else {
      var item, more := items[0], items[1..];
      var middle := Print(more) + rest;
      assert Print(items) + rest == PrintItem(item) + middle;
      assert items == [item] + more;
      ItemsBegin(more, rest, height, stop, t);
      ItemsAreRead(more, rest, height, stop, t);
      if item.Gap? {
        GapIsRead(item, middle, more, rest, height, stop, t);
      } else {
        TermIsRead(item, middle, height, t);
        TermDoesNotStop(item, middle, height, stop, t);
      }
    }
  }

  lemma GapIsRead(item: Item, middle: string, more: seq<Item>, rest: string, height: nat, stop: Stop, t: Tables)
    requires item.Gap? && ProperItem(item, height, t) && NoSpace(middle)
    requires ReadItems(middle, height, stop, t) == Some((more, rest))
    ensures ReadItems(PrintItem(item) + middle, height, stop, t) == Some(([item] + more, rest))
  {
    hide ReadTerm, Blanks;
    var gap := item.blanks;
    BlanksOf(gap, middle);
    assert HtmlText.Space(gap[0]);
  }

  lemma TermDoesNotStop(item: Item, rest: string, height: nat, stop: Stop, t: Tables)
    requires item.Term? && ProperItem(item, height, t) && (NameLast(item) ==> NoLetter(rest))
    ensures var s := PrintItem(item) + rest; |s| > 0 && !HtmlText.Space(s[0]) && !Stops(s, stop)
  {
    hide PrintAtom, ProperAtom, PrintScripts, ProperScripts, AtomText, Once, Stops;
    var middle := PrintScripts(item.scripts) + rest;
    ScriptsBegin(item.scripts, rest, height, t);
    if |item.scripts| == 0 { NothingPrinted(item.scripts, rest); }
    AtomBegins(item.atom, height, t);
    AtomsDoNotStop(item.atom, middle, height, stop, t);
    assert PrintItem(item) + rest == PrintAtom(item.atom) + middle;
  }

  // ---------- The language ----------

  /** A text is read exactly when some proper formula is written so, and then that formula is what is read. */
  lemma ReadsWhatIsProper(tex: string, height: nat, t: Tables)
    ensures ReadItems(tex, height, End, t).Some? <==> exists items :: Proper(items, height, t) && Print(items) == tex
    ensures forall items :: Proper(items, height, t) && Print(items) == tex
                        ==> ReadItems(tex, height, End, t) == Some((items, ""))
  {
    hide ReadItems, Print, Proper;
    if ReadItems(tex, height, End, t).Some? {
      ItemsArePrinted(tex, height, End, t);
      assert Print(ReadItems(tex, height, End, t).value.0) == tex;
    }
    forall items | Proper(items, height, t) && Print(items) == tex
      ensures ReadItems(tex, height, End, t) == Some((items, ""))
    {
      ItemsAreRead(items, "", height, End, t);
      assert Print(items) + "" == tex;
    }
  }

  /** No text has two proper trees. */
  lemma TreesAreUnique(a: seq<Item>, b: seq<Item>, height: nat, t: Tables)
    requires Proper(a, height, t) && Proper(b, height, t) && Print(a) == Print(b)
    ensures a == b
  {
    hide ReadItems, Print, Proper;
    ReadsWhatIsProper(Print(a), height, t);
  }
}
