/**
 What the methods of the TeX parser promise about what can be read at their
 cursor, and the steps by which their loops keep such promises.
 */
module TexPromises {
  import opened Options
  import opened TexBrackets
  import opened TexGrammar
  import opened TexReading
  import opened Texts
  import HtmlText
  import TexPrinted
  import TexRoundTrip

  datatype Error = Unsupported | Invalid | Resource

  // ---------- Sizes and blanks ----------

  /** `trim` */
  function Trim(s: string): string { HtmlText.TrimEnd(HtmlText.TrimStart(s)) }

  lemma {:induction false} TrimEndShrinks(s: string)
    ensures Size(HtmlText.TrimEnd(s)) <= Size(s)
  {
    if |s| > 0 && HtmlText.Space(s[|s| - 1]) { TrimEndShrinks(s[..|s| - 1]); }
  }

  lemma TrimShrinks(s: string)
    ensures Size(Trim(s)) <= Size(s)
  {
    var n := HtmlText.Find(s, c => !HtmlText.Space(c));
    SizeAdds(s[..n], s[n..]);
    assert s[..n] + s[n..] == s;
    TrimEndShrinks(HtmlText.TrimStart(s));
  }

  /** What is too long stays too long. */
  lemma LongerFits(a: string, b: string, c: string)
    requires Fits(a + b + c)
    ensures Fits(a) && Fits(b) && Fits(a + b)
  {
    hide Size;
    SizeAdds(a, b);
    SizeAdds(a + b, c);
  }

  lemma BlankAdds(a: string, b: string)
    ensures Blank(a + b) <==> Blank(a) && Blank(b)
  {
    assert forall i :: 0 <= i < |a| ==> (a + b)[i] == a[i];
    assert forall i :: 0 <= i < |b| ==> (a + b)[|a| + i] == b[i];
  }

  lemma TrimIsBlank(s: string)
    ensures Blank(Trim(s)) <==> Blank(s)
  {
    var n := HtmlText.Find(s, c => !HtmlText.Space(c));
    assert s == s[..n] + s[n..];
    BlankAdds(s[..n], s[n..]);
    TrimEndIsBlank(s[n..]);
  }

  lemma {:induction false} TrimEndIsBlank(s: string)
    ensures Blank(HtmlText.TrimEnd(s)) <==> Blank(s)
  {
    if |s| > 0 && HtmlText.Space(s[|s| - 1]) {
      TrimEndIsBlank(s[..|s| - 1]);
      assert s == s[..|s| - 1] + [s[|s| - 1]];
      BlankAdds(s[..|s| - 1], [s[|s| - 1]]);
    }
  }

  // ---------- What a method promises of what can be read ----------

  /** It succeeds exactly when something can be read and its text fits, returns that text, and stands behind it. */
  ghost predicate GivesAtom(r: Result<string, Error>, read: Read<Atom>, rest: string, t: Tables) {
    if r.Ok? then read.Some? && r.value == AtomText(read.value.0, t) && rest == read.value.1
    else read.Some? ==> !Fits(AtomText(read.value.0, t))
  }

  ghost predicate GivesScripted(r: Result<string, Error>, read: Read<Atom>, rest: string, t: Tables) {
    if r.Ok? then read.Some? && r.value == ArgumentText(read.value.0, t) && rest == read.value.1
    else read.Some? ==> !Fits(ArgumentText(read.value.0, t))
  }

  ghost predicate GivesArgument(r: Result<string, Error>, read: Read<Argument>, rest: string, t: Tables) {
    if r.Ok? then read.Some? && r.value == Text(read.value.0.body, t) && rest == read.value.1
    else read.Some? ==> !Fits(Text(read.value.0.body, t))
  }

  ghost predicate GivesItems(r: Result<string, Error>, read: Read<seq<Item>>, rest: string, t: Tables) {
    if r.Ok? then read.Some? && r.value == Text(read.value.0, t) && rest == read.value.1
    else read.Some? ==> !Fits(Text(read.value.0, t))
  }

  ghost predicate GivesSign(r: Result<string, Error>, read: Read<Sign>, rest: string) {
    if r.Ok? then read.Some? && r.value == SignText(read.value.0) && rest == read.value.1 else read.None?
  }

  ghost predicate GivesDelimiter(r: Result<string, Error>, read: Read<Delimiter>, rest: string) {
    if r.Ok? then read.Some? && r.value == SignText(read.value.0.sign) && rest == read.value.1 else read.None?
  }

  /** What can still be read adds to `output` what all that can be read adds to `before`. */
  ghost predicate SameText(before: string, all: Read<seq<Piece>>, output: string, rest: Read<seq<Piece>>) {
    && (all.Some? <==> rest.Some?)
    && (all.Some? ==> all.value.1 == rest.value.1
                      && before + PiecesText(all.value.0) == output + PiecesText(rest.value.0))
  }

  /** One character of literal text is read, or it is the last, or the text cannot be read within bounds. */
  ghost predicate TextGoesOn(output: string, read: Read<seq<Piece>>, r: Result<string, Error>, open: nat, rest: string,
                             height: nat)
  {
    if r.Err? then read.Some? ==> !Fits(output + PiecesText(read.value.0))
    else if open == 0 then read == Some(([], rest)) && r.value == output
    else SameText(output, read, r.value, ReadPieces(rest, open, height))
  }

  lemma TextBegins(all: Read<seq<Piece>>)
    ensures SameText("", all, "", all)
  {
  }

  /** What one character does to the whole of the literal text. */
  lemma TextTurns(all: Read<seq<Piece>>, output: string, before: Read<seq<Piece>>, r: Result<string, Error>, open: nat,
                  rest: string, height: nat)
    requires SameText("", all, output, before) && TextGoesOn(output, before, r, open, rest, height)
    ensures r.Err? && all.Some? ==> !Fits(PiecesText(all.value.0))
    ensures r.Ok? && open == 0 ==> all.Some? && all.value.1 == rest && r.value == PiecesText(all.value.0)
    ensures r.Ok? && open > 0 ==> SameText("", all, r.value, ReadPieces(rest, open, height))
  {
    hide ReadPieces, Fits;
    if all.Some? { assert "" + PiecesText(all.value.0) == PiecesText(all.value.0); }
    assert output + "" == output;
  }

  lemma TextRunsOut(all: Read<seq<Piece>>, output: string, open: nat, height: nat)
    requires 0 < open && SameText("", all, output, ReadPieces("", open, height))
    ensures all.None?
  {
  }

  /** Literal text is what its pieces are. */
  lemma LiteralIs(s: string, height: nat, t: Tables)
    ensures var n, read := Blanks(s), ReadLiteral(s, height);
            if height == 0 || n == |s| || s[n] != '{' then read.None?
            else
              var all := ReadPieces(s[n + 1..], 1, height);
              && (read.Some? <==> all.Some?)
              && (read.Some? ==> AtomText(read.value.0, t) == PiecesText(all.value.0) && read.value.1 == all.value.1)
  {
    hide ReadPieces, PiecesText, Blanks;
  }

  lemma PieceGoesOn(output: string, p: Piece, s: string, open: nat, height: nat)
    requires 0 < open && PrintPiece(p) <= s && (p.Escaped? ==> Escapable(p.c))
    requires p.Plain? ==> p.c != '\\' && (p.c == '{' ==> open < height) && (p.c == '}' ==> 1 < open)
    ensures var open' := if p.Plain? then OpenAfter(p.c, open) else open;
            var read, rest := ReadPieces(s, open, height), s[|PrintPiece(p)|..];
            && SameText(output, read, output + [p.c], ReadPieces(rest, open', height))
            && (!Fits(output + [p.c]) && read.Some? ==> !Fits(output + PiecesText(read.value.0)))
  {
    hide Size;
    var open' := if p.Plain? then OpenAfter(p.c, open) else open;
    var more := ReadPieces(s[|PrintPiece(p)|..], open', height);
    assert s[0] == PrintPiece(p)[0] && (p.Escaped? ==> s[1] == p.c);
    var read := ReadPieces(s, open, height);
    assert read == Before(p, more);
    if read.Some? {
      assert read.value.0[1..] == more.value.0;
      assert output + PiecesText(read.value.0) == output + [p.c] + PiecesText(more.value.0);
      SizeAdds(output + [p.c], PiecesText(more.value.0));
    }
  }

  /** Blanks before an argument may have been skipped before. */
  lemma SkippedArgument(s: string, height: nat, t: Tables)
    ensures var skipped, read := ReadArgument(s[Blanks(s)..], height, t), ReadArgument(s, height, t);
            && (read.Some? <==> skipped.Some?)
            && (read.Some? ==> read.value.0.body == skipped.value.0.body && read.value.1 == skipped.value.1)
            && (read.Some? ==> |s[Blanks(s)..]| > 0 && s[Blanks(s)..][0] == '{')
  {
    hide ReadItems, Text, Blank;
    var u := s[Blanks(s)..];
    TexRoundTrip.NothingBefore(u);
    assert |u| > 0 ==> u[1..] == s[Blanks(s) + 1..];
  }

  // ---------- Scripts ----------

  /** A text with its scripts, in parentheses if they need them. */
  ghost function Total(base: string, parenthesize: bool, scripts: seq<Script>, t: Tables): string {
    Headed(base, parenthesize && |scripts| > 0) + ScriptsText(scripts, t)
  }

  ghost function Headed(base: string, parenthesize: bool): string { if parenthesize then Parenthesized(base) else base }

  ghost predicate GivesScripts(r: Result<(string, bool), Error>, base: string, parenthesize: bool,
                               read: Read<seq<Script>>, rest: string, t: Tables)
  {
    if r.Ok? then
      && read.Some? && r.value == (Total(base, parenthesize, read.value.0, t), parenthesize && |read.value.0| == 0)
      && rest == read.value.1
    else read.Some? ==> !Fits(Total(base, parenthesize, read.value.0, t))
  }

  ghost function WithScript(base: string, parenthesize: bool, s: Script, t: Tables): string {
    Headed(base, parenthesize) + t.span(ArgumentText(s.argument, t), s.position)
  }

  ghost predicate GivesScript(r: Result<string, Error>, base: string, parenthesize: bool, read: Read<Script>,
                              rest: string, t: Tables)
  {
    if r.Ok? then
      && read.Some? && r.value == WithScript(base, parenthesize, read.value.0, t) && rest == read.value.1
    else read.Some? ==> !Fits(WithScript(base, parenthesize, read.value.0, t))
  }

  /** The scripts that can still be read make of `atom` what all of them make of `base`. */
  ghost predicate SameScripts(base: string, parenthesize: bool, all: Read<seq<Script>>, atom: string, group: bool,
                              rest: Read<seq<Script>>, t: Tables)
  {
    && (all.Some? <==> rest.Some?)
    && (all.Some? ==>
          && all.value.1 == rest.value.1
          && Total(base, parenthesize, all.value.0, t) == Total(atom, group, rest.value.0, t)
          && (parenthesize && |all.value.0| == 0 <==> group && |rest.value.0| == 0))
  }

  lemma ScriptAhead(s: string, height: nat, blank: bool, sub: bool, sup: bool, t: Tables)
    ensures var n, read := Blanks(s), ReadScripts(s, height, blank, sub, sup, t);
            if n == |s| || (s[n] != '_' && s[n] != '^') then read == Some(([], s))
            else if (s[n] == '_' && sub) || (s[n] == '^' && sup) then read.None?
            else
              var position := if s[n] == '_' then Sub else Super;
              var one := ReadScript(s, n, position, height, blank, t);
              if one.None? then read.None?
              else
                read == Before(one.value.0, ReadScripts(one.value.1, height, false, sub || position.Sub?,
                                                        sup || position.Super?, t))
  {
    hide ReadScript, Blanks;
  }

  lemma FirstScript(base: string, parenthesize: bool, all: Read<seq<Script>>, t: Tables)
    ensures SameScripts(base, parenthesize, all, base, parenthesize, all, t)
  {
  }

  lemma LastScript(base: string, parenthesize: bool, all: Read<seq<Script>>, atom: string, group: bool, s: string,
                   t: Tables)
    requires SameScripts(base, parenthesize, all, atom, group, Some(([], s)), t)
    ensures GivesScripts(Ok((atom, group)), base, parenthesize, all, s, t)
  {
    assert atom + "" == atom;
  }

  /** A second script of one kind spoils all. */
  lemma TwiceIsRefused(base: string, parenthesize: bool, all: Read<seq<Script>>, atom: string, group: bool, s: string,
                       height: nat, sub: bool, sup: bool, error: Error, rest: string, t: Tables)
    requires SameScripts(base, parenthesize, all, atom, group, ReadScripts(s, height, Blank(atom), sub, sup, t), t)
    requires var n := Blanks(s); n < |s| && ((s[n] == '_' && sub) || (s[n] == '^' && sup))
    ensures GivesScripts(Err(error), base, parenthesize, all, rest, t)
  {
    hide Blanks, Blank;
    ScriptAhead(s, height, Blank(atom), sub, sup, t);
  }

  /** One more script. */
  lemma ScriptGoesOn(base: string, parenthesize: bool, all: Read<seq<Script>>, next: Result<string, Error>, atom: string,
                     group: bool, s: string, position: Position, height: nat, sub: bool, sup: bool, rest: string,
                     t: Tables)
    requires SameScripts(base, parenthesize, all, atom, group, ReadScripts(s, height, Blank(atom), sub, sup, t), t)
    requires var n := Blanks(s); n < |s| && s[n] == Mark(position) && (if position.Sub? then !sub else !sup)
    requires GivesScript(next, atom, group, ReadScript(s, Blanks(s), position, height, Blank(atom), t), rest, t)
    ensures if next.Ok? then
              SameScripts(base, parenthesize, all, next.value, false,
                          ReadScripts(rest, height, Blank(next.value), sub || position.Sub?, sup || position.Super?, t),
                          t)
            else GivesScripts(Err(next.error), base, parenthesize, all, rest, t)
  {
    hide Size, ReadScripts, ReadScript, GivesScript, Total, Blanks, Blank;
    ScriptAdds(next, atom, group, s, position, height, sub, sup, rest, t);
  }

  lemma ScriptAdds(next: Result<string, Error>, atom: string, group: bool, s: string, position: Position, height: nat,
                   sub: bool, sup: bool, rest: string, t: Tables)
    requires var n := Blanks(s); n < |s| && s[n] == Mark(position) && (if position.Sub? then !sub else !sup)
    requires GivesScript(next, atom, group, ReadScript(s, Blanks(s), position, height, Blank(atom), t), rest, t)
    ensures var read := ReadScripts(s, height, Blank(atom), sub, sup, t);
            if next.Ok? then
              SameScripts(atom, group, read, next.value, false,
                          ReadScripts(rest, height, Blank(next.value), sub || position.Sub?, sup || position.Super?, t),
                          t)
            else read.Some? ==> !Fits(Total(atom, group, read.value.0, t))
  {
    hide Size, ReadScripts, ReadScript, ArgumentText, Blanks, Blank, Parenthesized;
    ScriptAhead(s, height, Blank(atom), sub, sup, t);
    var one := ReadScript(s, Blanks(s), position, height, Blank(atom), t);
    if one.Some? {
      var (script, after) := one.value;
      ScriptsNeedBase(s, Blanks(s), position, height, Blank(atom), t);
      HeadedIsNotBlank(atom, group, t.span(ArgumentText(script.argument, t), script.position));
      var more := ReadScripts(after, height, false, sub || position.Sub?, sup || position.Super?, t);
      if more.Some? {
        assert ([script] + more.value.0)[1..] == more.value.0;
        assert Total(atom, group, [script] + more.value.0, t)
            == WithScript(atom, group, script, t) + ScriptsText(more.value.0, t);
        SizeAdds(WithScript(atom, group, script, t), ScriptsText(more.value.0, t));
      }
    }
  }

  lemma ScriptsNeedBase(s: string, n: nat, position: Position, height: nat, blank: bool, t: Tables)
    requires n < |s| && ReadScript(s, n, position, height, blank, t).Some?
    ensures !blank && ReadScript(s, n, position, height, blank, t).value.0.position == position
  {
    hide ReadScripted, ArgumentText, Blanks;
  }

  lemma HeadedIsNotBlank(base: string, parenthesize: bool, more: string)
    requires !Blank(base)
    ensures !Blank(Headed(base, parenthesize) + more)
  {
    var i :| 0 <= i < |base| && !HtmlText.Space(base[i]);
    var s := Headed(base, parenthesize) + more;
    assert s[if parenthesize then i + 1 else i] == base[i];
  }

  /** What a text with a script is made of fits where it does. */
  lemma ScriptFits(base: string, parenthesize: bool, read: Read<Script>, t: Tables)
    ensures read.Some? && Fits(WithScript(base, parenthesize, read.value.0, t)) ==> Fits(Headed(base, parenthesize))
  {
    if read.Some? {
      SizeAdds(Headed(base, parenthesize), t.span(ArgumentText(read.value.0.argument, t), read.value.0.position));
    }
  }

  lemma BracesAreRead(s: string, height: nat, t: Tables)
    requires |s| > 0 && s[0] == '{'
    ensures var read, group := ReadScripted(s, height, t), ReadArgument(s, height, t);
            && (read.Some? <==> group.Some?)
            && (read.Some? ==> ArgumentText(read.value.0, t) == Text(group.value.0.body, t)
                               && read.value.1 == group.value.1)
  {
    hide ReadItems, Text;
  }

  lemma OthersAreBare(s: string, height: nat, t: Tables)
    requires |s| == 0 || s[0] != '{'
    ensures ReadScripted(s, height + 1, t) == ReadAtom(s, height, t)
    ensures ReadAtom(s, height, t).Some?
        ==> ArgumentText(ReadAtom(s, height, t).value.0, t) == AtomText(ReadAtom(s, height, t).value.0, t)
  {
    hide ReadAtom, AtomText, Text;
    if ReadAtom(s, height, t).Some? { TexPrinted.BracesMakeBraced(s, height, t); }
  }

  // ---------- Terms and expressions ----------

  predicate AtEnd(s: string, stop: Stop) {
    var rest := s[Blanks(s)..];
    |rest| == 0 || (stop.Group? && rest[0] == '}') || (stop.Right? && CommandIs(rest, "right"))
  }

  ghost predicate GivesTerm(r: Result<string, Error>, output: string, stop: Stop, read: Read<Item>, rest: string,
                            t: Tables)
  {
    if r.Ok? then
      && read.Some? && rest == read.value.1
      && r.value == output + ItemText(read.value.0, Blank(output) && AtEnd(rest, stop), t)
    else
      read.Some? ==> !Fits(output + ItemText(read.value.0, Blank(output) && AtEnd(read.value.1, stop), t))
  }

  /** The command in front says what the atom will be. */
  lemma NamesTell(s: string, height: nat, t: Tables)
    ensures ReadAtom(s, height, t).Some? ==>
              var a := ReadAtom(s, height, t).value.0;
              (a.Fraction? <==> CommandIs(s, "frac")) && (a.Literal? <==> CommandIs(s, "text"))
  {
    hide ReadAtom, CommandIs;
    if ReadAtom(s, height, t).Some? {
      CommandTells(s, height, t);
    }
  }

  lemma CommandTells(s: string, height: nat, t: Tables)
    requires ReadAtom(s, height, t).Some?
    ensures var a := ReadAtom(s, height, t).value.0;
            (a.Fraction? <==> CommandIs(s, "frac")) && (a.Literal? <==> CommandIs(s, "text"))
  {
    hide ReadArgument, ReadFraction, ReadPaired, ReadLiteral, ReadRoot, ReadEscape, Letters;
    if s[0] == '\\' {
      var u := s[1..];
      assert "\\" + u == s;
      if |u| > 0 && Letter(u[0]) {
        var end := Letters(u, 0);
        assert ReadAtom(s, height, t) == ReadNamed(u[..end], u[end..], height, t);
        NextCommand(s, "frac");
        NextCommand(s, "text");
        CommandKinds(u[end..], height, t);
      } else {
        assert |s| > 1 ==> s[1] == u[0];
        EscapeIsNoCommand(s, "frac");
        EscapeIsNoCommand(s, "text");
        assert ReadCommand(u, height, t) == ReadEscape(u);
        EscapeKind(u);
      }
    }
  }

  lemma EscapeKind(s: string)
    ensures ReadEscape(s).Some? ==> ReadEscape(s).value.0.Escape?
  {
  }

  lemma CommandKinds(s: string, height: nat, t: Tables)
    ensures ReadPaired(s, height, t).Some? ==> ReadPaired(s, height, t).value.0.Paired?
    ensures ReadFraction(s, height, t).Some? ==> ReadFraction(s, height, t).value.0.Fraction?
    ensures ReadRoot(s, height, t).Some? ==> ReadRoot(s, height, t).value.0.Root?
    ensures ReadLiteral(s, height).Some? ==> ReadLiteral(s, height).value.0.Literal?
  {
    hide ReadArgument, ReadItems, ReadDelimiter, ReadPieces;
  }

  /** A command is next exactly when the name in front is its own. */
  lemma NextCommand(s: string, name: string)
    requires |s| > 1 && s[0] == '\\' && Letters1(name)
    ensures CommandIs(s, name) <==> s[1..][..Letters(s[1..], 0)] == name
  {
    var u := s[1..];
    var end := Letters(u, 0);
    if u[..end] == name {
      assert s == "\\" + name + u[end..];
    }
    if CommandIs(s, name) {
      assert forall k :: 0 <= k < |name| ==> u[k] == ("\\" + name)[k + 1];
      TexRoundTrip.LettersEnd(u, 0, |name|);
    }
  }

  lemma EscapeIsNoCommand(s: string, name: string)
    requires |s| > 0 && s[0] == '\\' && (|s| > 1 ==> !Letter(s[1])) && Letters1(name)
    ensures !CommandIs(s, name)
  {
    assert ("\\" + name)[1] == name[0];
  }

  /** What a term is made of, and that its parts fit where it does. */
  lemma TermFits(output: string, s: string, height: nat, stop: Stop, t: Tables)
    ensures ReadTerm(s, height, t).Some? ==>
              && ReadAtom(s, height, t).Some?
              && var item, rest := ReadTerm(s, height, t).value.0, ReadTerm(s, height, t).value.1;
              && var base := AtomText(item.atom, t);
              && var total := Total(base, item.atom.Fraction? || item.atom.Literal?, item.scripts, t);
              && var text := ItemText(item, Blank(output) && AtEnd(rest, stop), t);
              && text == (if item.atom.Fraction? && |item.scripts| == 0 && !(Blank(output) && AtEnd(rest, stop))
                          then "(" + total + ")" else total)
              && (Fits(output + text) ==> Fits(base) && Fits(total) && Fits(text))
  {
    hide Size, ReadAtom, ReadScripts, AtomText, Blank, AtEnd;
    if ReadTerm(s, height, t).Some? {
      var (item, rest) := ReadTerm(s, height, t).value;
      var base := AtomText(item.atom, t);
      var total := Total(base, item.atom.Fraction? || item.atom.Literal?, item.scripts, t);
      var text := ItemText(item, Blank(output) && AtEnd(rest, stop), t);
      SizeAdds(output, text);
      SizeAdds("(", total);
      SizeAdds("(" + total, ")");
      SizeAdds("(", base);
      SizeAdds("(" + base, ")");
      SizeAdds(base, ScriptsText(item.scripts, t));
      SizeAdds(Parenthesized(base), ScriptsText(item.scripts, t));
      if |item.scripts| == 0 { assert base + "" == base && Parenthesized(base) + "" == Parenthesized(base); }
    }
  }

  /** What can still be read adds to `output` what makes it the text of all. */
  ghost predicate SameItems(all: Read<seq<Item>>, output: string, rest: Read<seq<Item>>, t: Tables) {
    && (all.Some? <==> rest.Some?)
    && (all.Some? ==> all.value.1 == rest.value.1
                      && Text(all.value.0, t) == output + ItemsText(rest.value.0, Blank(output), t))
  }

  lemma Begins(all: Read<seq<Item>>, t: Tables)
    ensures SameItems(all, "", all, t)
  {
    if all.Some? { assert "" + ItemsText(all.value.0, true, t) == Text(all.value.0, t); }
  }

  lemma StopsAhead(s: string, stop: Stop)
    ensures Stops(s, stop) <==>
              if |s| == 0 then stop.End? else (stop.Group? && s[0] == '}') || (stop.Right? && CommandIs(s, "right"))
  {
  }

  lemma Finishes(all: Read<seq<Item>>, output: string, s: string, height: nat, stop: Stop, t: Tables)
    requires SameItems(all, output, ReadItems(s, height, stop, t), t) && (|s| == 0 || Stops(s, stop))
    ensures if Stops(s, stop) then GivesItems(Ok(output), all, s, t) else all.None?
  {
    hide ReadTerm;
    assert output + "" == output;
  }

  lemma GapGoesOn(all: Read<seq<Item>>, output: string, r: Result<string, Error>, s: string, height: nat, stop: Stop,
                  t: Tables)
    requires |s| > 0 && HtmlText.Space(s[0]) && SameItems(all, output, ReadItems(s, height, stop, t), t)
    requires r == if Size(output) + Size(" ") > MAX_OUTPUT then Err(Resource) else Ok(output + " ")
    ensures if r.Ok? then SameItems(all, r.value, ReadItems(s[Blanks(s)..], height, stop, t), t)
            else all.Some? ==> !Fits(Text(all.value.0, t))
  {
    hide ReadItems, ReadTerm, Blanks, Size, ItemsText;
    GapAhead(s, height, stop, t);
    var more := ReadItems(s[Blanks(s)..], height, stop, t);
    if more.Some? {
      AddsItem(output, Gap(s[..Blanks(s)]), more.value.0, t);
      assert ItemText(Gap(s[..Blanks(s)]), Blank(output) && OnlyGaps(more.value.0), t) == " ";
      SizeAdds(output, " ");
    }
  }

  lemma GapAhead(s: string, height: nat, stop: Stop, t: Tables)
    requires |s| > 0 && HtmlText.Space(s[0])
    ensures ReadItems(s, height, stop, t) == Before(Gap(s[..Blanks(s)]), ReadItems(s[Blanks(s)..], height, stop, t))
  {
    hide ReadTerm, Blanks;
  }

  lemma TermAhead(s: string, height: nat, stop: Stop, t: Tables)
    requires |s| > 0 && !HtmlText.Space(s[0]) && !Stops(s, stop)
    ensures var one := ReadTerm(s, height, t);
            if one.None? then ReadItems(s, height, stop, t).None?
            else ReadItems(s, height, stop, t) == Before(one.value.0, ReadItems(one.value.1, height, stop, t))
  {
    hide ReadTerm, Blanks;
  }

  /** One more item: its text follows, and what follows that is the text of the others. */
  lemma AddsItem(output: string, item: Item, more: seq<Item>, t: Tables)
    ensures var text := ItemText(item, Blank(output) && OnlyGaps(more), t);
            && output + ItemsText([item] + more, Blank(output), t)
               == output + text + ItemsText(more, Blank(output + text), t)
            && (Fits(output + ItemsText([item] + more, Blank(output), t)) ==> Fits(output + text))
  {
    hide Size, ItemText;
    var text := ItemText(item, Blank(output) && OnlyGaps(more), t);
    var rest := ItemsText(more, Blank(output + text), t);
    assert ([item] + more)[1..] == more;
    BlankAdds(output, text);
    assert output + (text + rest) == output + text + rest;
    SizeAdds(output + text, rest);
  }

  lemma TermGoesOn(all: Read<seq<Item>>, output: string, r: Result<string, Error>, s: string, rest: string, height: nat,
                   stop: Stop, t: Tables)
    requires |s| > 0 && !HtmlText.Space(s[0]) && !Stops(s, stop)
    requires SameItems(all, output, ReadItems(s, height, stop, t), t)
    requires GivesTerm(r, output, stop, ReadTerm(s, height, t), rest, t)
    ensures if r.Ok? then SameItems(all, r.value, ReadItems(rest, height, stop, t), t)
            else all.Some? ==> !Fits(Text(all.value.0, t))
  {
    hide ReadItems, ReadTerm, Size, ItemText, Stops, AtEnd;
    TermAhead(s, height, stop, t);
    if ReadTerm(s, height, t).Some? {
      var (item, after) := ReadTerm(s, height, t).value;
      var more := ReadItems(after, height, stop, t);
      if more.Some? {
        EndsAtGaps(after, height, stop, t);
        AddsItem(output, item, more.value.0, t);
      }
    }
  }

  /** Nothing but blanks is left exactly when only blanks will be read. */
  lemma EndsAtGaps(s: string, height: nat, stop: Stop, t: Tables)
    requires ReadItems(s, height, stop, t).Some?
    ensures AtEnd(s, stop) <==> OnlyGaps(ReadItems(s, height, stop, t).value.0)
  {
    hide ReadTerm, CommandIs, Blanks;
    TexPrinted.ItemsArePrinted(s, height, stop, t);
    var (items, rest) := ReadItems(s, height, stop, t).value;
    TexRoundTrip.ItemsBegin(items, rest, height, stop, t);
    if |items| == 0 {
      TexRoundTrip.NothingBefore(s);
    }
  }
}
