/**
 The TeX-subset projector: a recursive-descent parser with a cursor, bounded
 depth and bounded output. It ends on every input, accepts exactly the proper
 formulas, and gives each its text.
 */
module Tex {
  import opened Options
  import opened Sequences
  import opened TexBrackets
  import opened TexGrammar
  import opened TexPromises
  import opened TexReading
  import opened Texts
  import HtmlText
  import TexRoundTrip

  // ---------- Text ----------

  /** Symbols are short. */
  ghost predicate TablesOk(t: Tables) { forall n :: t.symbol(n).Some? ==> Fits(t.symbol(n).value) }

  /** `append`: output never grows past its bound. */
  method Append(output: string, text: string) returns (r: Result<string, Error>)
    requires Fits(output)
    ensures r == if Size(output) + Size(text) > MAX_OUTPUT then Err(Resource) else Ok(output + text)
    ensures r.Ok? <==> Fits(output + text)
  {
    SizeAdds(output, text);
    if Size(output) + Size(text) > MAX_OUTPUT {
      return Err(Resource);
    }
    r := Ok(output + text);
  }

  /** `wrapped` */
  method Wrapped(prefix: string, body: string, suffix: string) returns (r: Result<string, Error>)
    ensures r.Ok? ==> r.value == prefix + body + suffix && Fits(r.value)
    ensures r.Err? ==> r.error == Resource && !Fits(prefix + body + suffix)
  {
    hide Size;
    assert Fits("") by { NothingFits(); }
    SizeAdds(prefix, body);
    SizeAdds(prefix + body, suffix);
    SizeAdds("", prefix);
    assert "" + prefix == prefix;
    r := Append("", prefix);
    if r.Err? { return; }
    r := Append(r.value, body);
    if r.Err? { return; }
    r := Append(r.value, suffix);
  }

  lemma NothingFits()
    ensures Fits("")
  {
  }

  lemma OneFits(c: char)
    ensures Fits([c])
  {
    assert [c][..0] == "";
  }

  lemma SmallFit()
    ensures Fits("") && Fits(" ")
  {
    OneFits(' ');
  }

  // ---------- The parser ----------

  class Parser {
    const source: string
    const tables: Tables
    var cursor: nat
    /** The deepest level that was ever entered. */
    ghost var deepest: nat

    ghost predicate Valid()
      reads this
    {
      cursor <= |source| && deepest <= MAX_DEPTH && TablesOk(tables)
    }

    constructor (source: string, tables: Tables)
      requires TablesOk(tables)
      ensures Valid() && this.source == source && this.tables == tables && cursor == 0
    {
      this.source, this.tables, cursor, deepest := source, tables, 0, 0;
    }

    /** What is still to be read. */
    function Rest(): string
      requires cursor <= |source|
      reads this
    {
      source[cursor..]
    }

    function Peek(): Option<char>
      reads this
    {
      if cursor < |source| then Some(source[cursor]) else None
    }

    method Take() returns (c: Option<char>)
      requires Valid()
      modifies this`cursor
      ensures Valid() && c == old(Peek()) && cursor == old(cursor) + (if c.Some? then 1 else 0)
    {
      c := Peek();
      if c.Some? {
        cursor := cursor + 1;
      }
    }

    /** White space is skipped, and only that. */
    method Whitespace()
      requires Valid()
      modifies this`cursor
      ensures Valid() && cursor == old(cursor) + Blanks(old(Rest())) && Rest() == old(Rest())[Blanks(old(Rest()))..]
      ensures forall k :: old(cursor) <= k < cursor ==> HtmlText.Space(source[k])
      ensures cursor < |source| ==> !HtmlText.Space(source[cursor])
    {
      hide HtmlText.Space;
      while cursor < |source| && HtmlText.Space(source[cursor])
        invariant old(cursor) <= cursor <= |source| && Valid()
        invariant Blanks(old(Rest())) == cursor - old(cursor) + Blanks(Rest())
        invariant forall k :: old(cursor) <= k < cursor ==> HtmlText.Space(source[k])
      {
        assert Rest()[1..] == source[cursor + 1..];
        cursor := cursor + 1;
      }
    }

    lemma {:induction false} BlankIsBalanced(from: nat, upto: nat, height: nat)
      requires from <= upto <= |source| && forall k :: from <= k < upto ==> HtmlText.Space(source[k])
      ensures Balanced(source, from, upto, height)
      decreases upto - from
    {
      if from == upto {
        BalancedNothing(source, from, height);
      } else {
        BalancedChar(source, from, height);
        BlankIsBalanced(from + 1, upto, height);
        BalancedJoins(source, from, from + 1, upto, height);
      }
    }

    /** `depth`: the only way into a level. */
    method Enter(depth: nat) returns (ok: bool)
      requires Valid()
      modifies this`deepest
      ensures Valid() && ok == (depth <= MAX_DEPTH)
      ensures ok ==> deepest == Max(old(deepest), depth)
    {
      ok := depth <= MAX_DEPTH;
      if ok {
        deepest := Max(deepest, depth);
      }
    }

    /** `command_is` */
    predicate Next(name: string)
      requires cursor <= |source|
      reads this
    {
      CommandIs(Rest(), name)
    }

    method Name() returns (name: string)
      requires Valid()
      modifies this`cursor
      ensures Valid() && cursor == Letters(source, old(cursor)) && name == source[old(cursor)..cursor]
    {
      var start := cursor;
      while cursor < |source| && Letter(source[cursor])
        invariant start <= cursor <= |source| && Valid() && Letters(source, start) == Letters(source, cursor)
      {
        cursor := cursor + 1;
      }
      name := source[start..cursor];
    }

    /** Where a name ends does not depend on what stands before it. */
    lemma NameAhead(from: nat, i: nat)
      requires from <= i <= |source|
      ensures Letters(source, i) == from + Letters(source[from..], i - from)
      ensures source[i..Letters(source, i)] == source[from..][i - from..Letters(source[from..], i - from)]
    {
      var end := from + Letters(source[from..], i - from);
      assert forall k :: i <= k < end ==> source[k] == source[from..][k - from];
      TexRoundTrip.LettersEnd(source, i, end);
    }

    /** From `from` on, what was read nests within the levels that `depth` leaves. */
    ghost predicate Read(from: nat, depth: nat)
      reads this
    {
      depth <= MAX_DEPTH && Balanced(source, from, cursor, MAX_DEPTH - depth)
    }

    /** Why the expression could stop here. */
    predicate Stopped(stop: Stop)
      requires cursor <= |source|
      reads this
    {
      Stops(Rest(), stop)
    }

    // ---------- Delimiters and literal text ----------

    method Delimiter() returns (r: Result<string, Error>)
      requires Valid()
      modifies this`cursor
      ensures Valid() && old(cursor) <= cursor
      ensures r.Ok? ==> Fits(r.value) && old(cursor) < cursor
      ensures r.Ok? ==> forall height: nat :: Balanced(source, old(cursor), cursor, height)
      ensures GivesDelimiter(r, ReadDelimiter(old(Rest())), Rest())
    {
      hide Balanced, HtmlText.Space, Size, ReadSign, SignText, CalledSign;
      Whitespace();
      var start := cursor;
      r := Signed(start);
      if r.Ok? {
        forall height: nat ensures Balanced(source, old(cursor), cursor, height) {
          BlankIsBalanced(old(cursor), start, height);
          BalancedJoins(source, old(cursor), start, cursor, height);
        }
      }
    }

    /** The delimiter itself. */
    method Signed(start: nat) returns (r: Result<string, Error>)
      requires Valid() && cursor == start
      modifies this`cursor
      ensures Valid() && old(cursor) <= cursor
      ensures r.Ok? ==> Fits(r.value) && old(cursor) < cursor
      ensures r.Ok? ==> forall height: nat :: Balanced(source, start, cursor, height)
      ensures GivesSign(r, ReadSign(old(Rest())), Rest())
    {
      hide Balanced, Size, CalledSign;
      var c := Take();
      match c {
        case None =>
          r := Err(Unsupported);
        case Some(d) =>
          if d == '(' || d == ')' || d == '[' || d == ']' || d == '|' {
            OneFits(d);
            r := Ok([d]);
            forall height: nat ensures Balanced(source, start, cursor, height) { BalancedChar(source, start, height); }
          } else if d == '\\' {
            r := EscapedDelimiter(start);
          } else {
            r := Err(Unsupported);
          }
      }
    }

    method EscapedDelimiter(start: nat) returns (r: Result<string, Error>)
      requires Valid() && cursor == start + 1 && source[start] == '\\'
      modifies this`cursor
      ensures Valid() && old(cursor) <= cursor
      ensures r.Ok? ==> Fits(r.value) && forall height: nat :: Balanced(source, start, cursor, height)
      ensures GivesSign(r, ReadSign(source[start..]), Rest())
    {
      hide Balanced, Size, Letters;
      var c := Peek();
      if c == Some('{') || c == Some('}') || c == Some('|') {
        var d := Take();
        OneFits(c.value);
        OneFits('‖');
        forall height: nat ensures Balanced(source, start, cursor, height) { BalancedEscape(source, start, height); }
        return Ok(if c == Some('|') then "‖" else [c.value]);
      }
      r := CalledDelimiter(start);
    }

    method CalledDelimiter(start: nat) returns (r: Result<string, Error>)
      requires Valid() && cursor == start + 1 && source[start] == '\\'
      requires cursor < |source| ==> !SlashedSign(source[cursor])
      modifies this`cursor
      ensures Valid() && old(cursor) <= cursor
      ensures r.Ok? ==> Fits(r.value) && forall height: nat :: Balanced(source, start, cursor, height)
      ensures GivesSign(r, ReadSign(source[start..]), Rest())
    {
      hide Balanced, Size, Letters;
      NameAhead(start, start + 1);
      var name := Name();
      var sign := if name == "langle" then "⟨" else if name == "rangle" then "⟩"
                  else if name == "lVert" || name == "rVert" || name == "Vert" then "‖" else "";
      if sign == "" {
        return Err(Unsupported);
      }
      OneFits(sign[0]);
      assert sign == [sign[0]];
      forall height: nat ensures Balanced(source, start, cursor, height) { BalancedCommand(source, start, height); }
      r := Ok(sign);
    }

    /** One character of literal text: what it adds, and how many braces are open after it. */
    method TextChar(depth: nat, nesting: nat, output: string, ghost from: nat)
      returns (r: Result<string, Error>, nesting': nat)
      requires Valid() && cursor < |source| && Fits(output)
      requires 0 < depth && 0 < nesting && depth + nesting - 1 <= MAX_DEPTH
      requires Opened(source, from, cursor, nesting, MAX_DEPTH - depth + 1)
      modifies this`cursor, this`deepest
      ensures Valid() && old(cursor) < cursor
      ensures r.Ok? ==> Fits(r.value) && depth + nesting' - 1 <= MAX_DEPTH
      ensures r.Ok? ==> Opened(source, from, cursor, nesting', MAX_DEPTH - depth + 1)
      ensures TextGoesOn(output, ReadPieces(old(Rest()), nesting, MAX_DEPTH - depth + 1), r, nesting', Rest(),
                         MAX_DEPTH - depth + 1)
    {
      hide Opened, Size, Scan;
      ghost var at := cursor;
      var height := MAX_DEPTH - depth + 1;
      var c := source[cursor];
      cursor := cursor + 1;
      nesting' := nesting;
      if c == '{' {
        nesting' := nesting + 1;
        var ok := Enter(depth + nesting' - 1);
        if !ok { return Err(Resource), nesting'; }
        OpenedBrace(source, from, at, nesting, height);
      } else if c == '}' {
        nesting' := nesting - 1;
        ClosedBrace(source, from, at, nesting, height);
        if nesting' == 0 { return Ok(output), 0; }
      } else if c == '\\' {
        if cursor == |source| || !Escapable(source[cursor]) { return Err(Unsupported), nesting'; }
        EscapeIsNeutral(at);
        OpenedPast(source, from, at, nesting, at + 2, height);
        r := Append(output, [source[cursor]]);
        cursor := cursor + 1;
        PieceGoesOn(output, Escaped(source[at + 1]), source[at..], nesting, height);
        return;
      } else {
        CharIsNeutral(at);
        OpenedPast(source, from, at, nesting, at + 1, height);
      }
      r := Append(output, [c]);
      PieceGoesOn(output, Plain(c), source[at..], nesting, height);
    }

    lemma EscapeIsNeutral(i: nat)
      requires i + 1 < |source| && source[i] == '\\' && Escapable(source[i + 1])
      ensures Neutral1(source, i, i + 2)
    {
      assert |source[i + 1..i + 2]| == 1;
    }

    lemma CharIsNeutral(i: nat)
      requires i < |source| && source[i] != '\\' && source[i] != '{' && source[i] != '}'
      ensures Neutral1(source, i, i + 1)
    {
    }

    /** `literal_text`: braces nest, nothing else means anything. */
    method LiteralText(depth: nat) returns (r: Result<string, Error>)
      requires Valid() && 0 < depth && depth <= MAX_DEPTH + 1
      modifies this`cursor, this`deepest
      ensures Valid() && old(cursor) <= cursor
      ensures r.Ok? ==> Fits(r.value) && Read(old(cursor), depth - 1)
      ensures GivesAtom(r, ReadLiteral(old(Rest()), MAX_DEPTH - depth + 1), Rest(), tables)
    {
      hide Opened, Balanced, Size, HtmlText.Space, ReadPieces, PiecesText, SameText, TextGoesOn, Fits,
        ReadLiteral, AtomText, Blanks;
      LiteralIs(Rest(), MAX_DEPTH - depth + 1, tables);
      var ok := Enter(depth);
      if !ok { return Err(Resource); }
      Whitespace();
      ghost var from, height := cursor, MAX_DEPTH - depth + 1;
      BlankIsBalanced(old(cursor), from, height);
      var brace := Take();
      if brace != Some('{') { return Err(Invalid); }
      BeginsText(from, height);
      NothingFits();
      var nesting: nat := 1;
      r := Ok("");
      ghost var all := ReadPieces(Rest(), 1, height);
      TextBegins(all);
      while cursor < |source|
        invariant Valid() && from < cursor && r.Ok? && Fits(r.value) && 0 < nesting && depth + nesting - 1 <= MAX_DEPTH
        invariant Opened(source, from, cursor, nesting, height)
        invariant SameText("", all, r.value, ReadPieces(Rest(), nesting, height))
      {
        ghost var output, before := r.value, ReadPieces(Rest(), nesting, height);
        r, nesting := TextChar(depth, nesting, r.value, from);
        TextTurns(all, output, before, r, nesting, Rest(), height);
        if r.Err? { return; }
        if nesting == 0 {
          EndsText(from, height);
          BalancedJoins(source, old(cursor), from, cursor, height);
          return;
        }
      }
      assert Rest() == "";
      TextRunsOut(all, r.value, nesting, height);
      r := Err(Invalid);
    }

    lemma BeginsText(from: nat, height: nat)
      requires from < |source| && source[from] == '{' && height > 0
      ensures Opened(source, from, from + 1, 1, height)
    {
      assert Braces(0) == [];
      OpenedBrace(source, from, from, 0, height);
    }

    lemma EndsText(from: nat, height: nat)
      requires Valid() && Opened(source, from, cursor, 0, height)
      ensures Balanced(source, from, cursor, height)
    {
      assert Braces(0) == [];
    }

    // ---------- The grammar ----------

    /** `group`: a braced argument, one level up. */
    method GroupArgument(depth: nat) returns (r: Result<string, Error>)
      requires Valid() && 0 < depth <= MAX_DEPTH + 1
      modifies this`cursor, this`deepest
      ensures Valid() && old(cursor) <= cursor
      ensures r.Ok? ==> old(cursor) < cursor && Fits(r.value) && !Blank(r.value) && Read(old(cursor), depth - 1)
      ensures GivesArgument(r, ReadArgument(old(Rest()), MAX_DEPTH - depth + 1, tables), Rest(), tables)
      decreases |source| - cursor, 1
    {
      hide Balanced, Size, HtmlText.Space, Blank, ReadItems, Text, CommandIs;
      var ok := Enter(depth);
      if !ok { return Err(Resource); }
      Whitespace();
      ghost var from := cursor;
      BlankIsBalanced(old(cursor), from, MAX_DEPTH - depth + 1);
      var brace := Take();
      if brace != Some('{') { return Err(Invalid); }
      var body := Expression(depth, Group);
      if body.Err? { return body; }
      ghost var end := cursor;
      brace := Take();
      if brace != Some('}') { return Err(Invalid); }
      BracesEnclose(from, end, MAX_DEPTH - depth);
      BalancedJoins(source, old(cursor), from, cursor, MAX_DEPTH - depth + 1);
      r := if Blank(body.value) then Err(Invalid) else body;
    }

    lemma BracesEnclose(from: nat, end: nat, height: nat)
      requires from < |source| && source[from] == '{' && end < |source| && source[end] == '}'
      requires Balanced(source, from + 1, end, height)
      ensures Balanced(source, from, end + 1, height + 1)
    {
      BalancedEnclosed(source, from, from + 1, end, end + 1, Brace, height);
    }

    /** `atom`: one thing a script can hang on. */
    method Atom(depth: nat) returns (r: Result<string, Error>)
      requires Valid()
      modifies this`cursor, this`deepest
      ensures Valid() && old(cursor) <= cursor
      ensures r.Ok? ==> old(cursor) < cursor && Fits(r.value) && Read(old(cursor), depth)
      ensures depth > MAX_DEPTH ==> r.Err?
      ensures depth <= MAX_DEPTH ==> GivesAtom(r, ReadAtom(old(Rest()), MAX_DEPTH - depth, tables), Rest(), tables)
      decreases |source| - cursor, 2
    {
      hide Balanced, Size, HtmlText.Space, Blank, ReadArgument, ReadCommand, Text;
      var ok := Enter(depth);
      if !ok { return Err(Resource); }
      if cursor == |source| { return Err(Invalid); }
      var c := source[cursor];
      if c == '{' {
        r := GroupArgument(depth + 1);
        if r.Err? {
          InsideFits("(", ReadArgument(old(Rest()), MAX_DEPTH - depth, tables), ")");
          return;
        }
        r := Wrapped("(", r.value, ")");
      } else if c == '}' || c == '_' || c == '^' {
        r := Err(Invalid);
      } else if c == '$' || c == '&' || c == '%' || c == '#' {
        r := Err(Unsupported);
      } else if c == '\\' {
        cursor := cursor + 1;
        r := Command(depth, cursor - 1);
      } else {
        BalancedChar(source, cursor, MAX_DEPTH - depth);
        OneFits(c);
        cursor := cursor + 1;
        r := Ok([c]);
      }
    }

    /** What is too long inside is too long outside. */
    lemma InsideFits(prefix: string, read: TexReading.Read<Argument>, suffix: string)
      ensures read.Some? && !Fits(Text(read.value.0.body, tables))
              ==> !Fits(prefix + Text(read.value.0.body, tables) + suffix)
    {
      hide Size, Text;
      if read.Some? && Fits(prefix + Text(read.value.0.body, tables) + suffix) {
        LongerFits(prefix, Text(read.value.0.body, tables), suffix);
      }
    }

    /** A single escaped character. */
    method EscapedCharacter(depth: nat, ghost start: nat) returns (r: Result<string, Error>)
      requires Valid() && depth <= MAX_DEPTH && cursor == start + 1 && source[start] == '\\'
      requires cursor == |source| || !Letter(source[cursor])
      modifies this`cursor
      ensures Valid() && old(cursor) <= cursor
      ensures r.Ok? ==> Fits(r.value) && Read(start, depth)
      ensures GivesAtom(r, ReadEscape(old(Rest())), Rest(), tables)
    {
      hide Balanced, Size;
      var c := Take();
      if c.None? { return Err(Unsupported); }
      BalancedEscape(source, start, MAX_DEPTH - depth);
      SmallFit();
      OneFits(c.value);
      if Escapable(c.value) {
        r := Ok([c.value]);
      } else if c.value == ',' || c.value == ';' || c.value == ':' || c.value == ' ' {
        r := Ok(" ");
      } else if c.value == '!' {
        r := Ok("");
      } else {
        r := Err(Unsupported);
      }
    }

    /** `command`: what follows a backslash at `start`. */
    method Command(depth: nat, ghost start: nat) returns (r: Result<string, Error>)
      requires Valid() && depth <= MAX_DEPTH && cursor == start + 1 && source[start] == '\\'
      modifies this`cursor, this`deepest
      ensures Valid() && old(cursor) <= cursor
      ensures r.Ok? ==> Fits(r.value) && Read(start, depth)
      ensures GivesAtom(r, ReadCommand(old(Rest()), MAX_DEPTH - depth, tables), Rest(), tables)
      decreases |source| - cursor, 1
    {
      hide Balanced, Size, HtmlText.Space, Blank, ReadEscape, ReadNamed, Letters;
      if cursor == |source| || !Letter(source[cursor]) {
        r := EscapedCharacter(depth, start);
        return;
      }
      NameAhead(cursor, cursor);
      var name := Name();
      assert Rest() == old(Rest())[cursor - old(cursor)..];
      r := Named(depth, name, start);
    }

    /** What follows the name of a command. */
    method Named(depth: nat, name: string, ghost start: nat) returns (r: Result<string, Error>)
      requires Valid() && depth <= MAX_DEPTH && start + 1 < cursor && source[start] == '\\' && Letter(source[start + 1])
      requires cursor == Letters(source, start + 1) && name == source[start + 1..cursor]
      modifies this`cursor, this`deepest
      ensures Valid() && old(cursor) <= cursor
      ensures r.Ok? ==> Fits(r.value) && Read(start, depth)
      ensures GivesAtom(r, ReadNamed(name, old(Rest()), MAX_DEPTH - depth, tables), Rest(), tables)
      decreases |source| - cursor, 3
    {
      hide Balanced, Size, HtmlText.Space, Blank, ReadPaired, ReadFraction, ReadRoot, ReadLiteral, Letters;
      ghost var after := cursor;
      if name == "left" {
        r := Paired(depth + 1, start);
        return;
      }
      if name == "right" {
        return Err(Invalid);
      }
      BalancedCommand(source, start, MAX_DEPTH - depth);
      if name == "frac" {
        r := Fraction(depth);
      } else if name == "sqrt" {
        r := Root(depth);
      } else if name == "text" {
        r := LiteralText(depth + 1);
      } else if name == "quad" || name == "qquad" || name == "space" {
        SmallFit();
        BalancedNothing(source, cursor, MAX_DEPTH - depth);
        r := Ok(" ");
      } else {
        var symbol := tables.symbol(name);
        BalancedNothing(source, cursor, MAX_DEPTH - depth);
        r := if symbol.Some? then Ok(symbol.value) else Err(Unsupported);
      }
      if r.Ok? { BalancedJoins(source, start, after, cursor, MAX_DEPTH - depth); }
    }

    method Fraction(depth: nat) returns (r: Result<string, Error>)
      requires Valid() && depth <= MAX_DEPTH
      modifies this`cursor, this`deepest
      ensures Valid() && old(cursor) <= cursor
      ensures r.Ok? ==> Fits(r.value) && Read(old(cursor), depth)
      ensures GivesAtom(r, ReadFraction(old(Rest()), MAX_DEPTH - depth, tables), Rest(), tables)
      decreases |source| - cursor, 2
    {
      hide Balanced, Size, HtmlText.Space, Blank, ReadArgument, Text, AtomText;
      ghost var s, height := old(Rest()), MAX_DEPTH - depth;
      FractionFits(s, height);
      var numerator := GroupArgument(depth + 1);
      if numerator.Err? { return numerator; }
      ghost var middle := cursor;
      var denominator := GroupArgument(depth + 1);
      if denominator.Err? { return denominator; }
      BalancedJoins(source, old(cursor), middle, cursor, MAX_DEPTH - depth);
      r := Wrapped("(", numerator.value, ")/(");
      if r.Err? { return; }
      r := Append(r.value, denominator.value);
      if r.Err? { return; }
      r := Append(r.value, ")");
    }

    /** A fraction's text, and that its parts fit where it does. */
    lemma FractionFits(s: string, height: nat)
      ensures ReadFraction(s, height, tables).Some? ==>
                var a := ReadFraction(s, height, tables).value.0;
                && a.Fraction?
                && var n, d := Text(a.numerator.body, tables), Text(a.denominator.body, tables);
                && AtomText(a, tables) == "(" + n + ")/(" + d + ")"
                && (Fits(AtomText(a, tables)) ==>
                      Fits(n) && Fits(d) && Fits("(" + n + ")/(") && Fits("(" + n + ")/(" + d))
    {
      hide Size, ReadArgument, Text;
      if ReadFraction(s, height, tables).Some? {
        var a := ReadFraction(s, height, tables).value.0;
        var n, d := Text(a.numerator.body, tables), Text(a.denominator.body, tables);
        assert Parenthesized(n) + "/" + Parenthesized(d) == "(" + n + ")/(" + d + ")";
        if Fits(AtomText(a, tables)) {
          LongerFits("(" + n + ")/(", d, ")");
          LongerFits("(", n, ")/(");
        }
      }
    }

    method Root(depth: nat) returns (r: Result<string, Error>)
      requires Valid() && depth <= MAX_DEPTH
      modifies this`cursor, this`deepest
      ensures Valid() && old(cursor) <= cursor
      ensures r.Ok? ==> Fits(r.value) && Read(old(cursor), depth)
      ensures GivesAtom(r, ReadRoot(old(Rest()), MAX_DEPTH - depth, tables), Rest(), tables)
      decreases |source| - cursor, 2
    {
      hide Balanced, Size, HtmlText.Space, Blank, ReadArgument, Text;
      Whitespace();
      ghost var from, height := cursor, MAX_DEPTH - depth;
      BlankIsBalanced(old(cursor), from, MAX_DEPTH - depth);
      SkippedArgument(old(Rest()), height, tables);
      RootText(old(Rest()), height);
      if Peek() == Some('[') { return Err(Unsupported); }
      r := GroupArgument(depth + 1);
      if r.Err? {
        InsideFits("√(", ReadArgument(old(Rest()), height, tables), ")");
        return;
      }
      BalancedJoins(source, old(cursor), from, cursor, MAX_DEPTH - depth);
      r := Wrapped("√(", r.value, ")");
    }

    lemma RootText(s: string, height: nat)
      ensures ReadRoot(s, height, tables).Some? ==>
                AtomText(ReadRoot(s, height, tables).value.0, tables)
                == "√(" + Text(ReadArgument(s, height, tables).value.0.body, tables) + ")"
    {
      hide ReadArgument, Text;
    }

    /** The closing delimiter of an opening one. */
    function Mirror(opening: string): (closing: Option<string>)
      ensures forall c :: closing == Some(c) <==> Matching(opening, c)
    {
      if opening == "(" then Some(")")
      else if opening == "[" then Some("]")
      else if opening == "{" then Some("}")
      else if opening == "|" then Some("|")
      else if opening == "⟨" then Some("⟩")
      else if opening == "‖" then Some("‖")
      else None
    }

    /** `paired`: the `\left` at `start`, its delimiter, and everything up to the delimiter of its `\right`. */
    method Paired(depth: nat, ghost start: nat) returns (r: Result<string, Error>)
      requires Valid() && 0 < depth <= MAX_DEPTH + 1 && start < cursor && TokenEnd(source, start) == cursor
      requires EffectOf(source, start) == Opens(Left)
      modifies this`cursor, this`deepest
      ensures Valid() && old(cursor) <= cursor
      ensures r.Ok? ==> Fits(r.value) && Read(start, depth - 1)
      ensures GivesAtom(r, ReadPaired(old(Rest()), MAX_DEPTH - depth + 1, tables), Rest(), tables)
      decreases |source| - cursor, 2
    {
      hide Balanced, Size, HtmlText.Space, Blank, TokenEnd, EffectOf, Letters, ReadItems, ReadDelimiter, SignText, Text,
        Matching, CommandIs;
      var ok := Enter(depth);
      if !ok { return Err(Resource); }
      ghost var height := MAX_DEPTH - depth;
      PairedFits(Rest(), height + 1);
      var opening := Delimiter();
      if opening.Err? { return opening; }
      ghost var inner := cursor;
      var expected := Mirror(opening.value);
      if expected.None? { return Err(Invalid); }
      var body := Expression(depth, Right);
      if body.Err? { return body; }
      ghost var end := cursor;
      BalancedJoins(source, old(cursor), inner, end, height);
      var closing := Closing(start, old(cursor), height);
      if closing.Err? { return closing; }
      if closing.value != expected.value { return Err(Invalid); }
      r := Wrapped(opening.value, body.value, expected.value);
    }

    /** `\right` and its delimiter, after what stands from `inner` on in the `\left` at `start`. */
    method Closing(ghost start: nat, ghost inner: nat, ghost height: nat) returns (r: Result<string, Error>)
      requires Valid() && Stopped(Right) && start < inner <= cursor && start < |source|
      requires TokenEnd(source, start) == inner
      requires EffectOf(source, start) == Opens(Left) && Balanced(source, inner, cursor, height)
      modifies this`cursor
      ensures Valid() && old(cursor) <= cursor && |old(Rest())| >= 6
      ensures r.Ok? ==> Fits(r.value) && Balanced(source, start, cursor, height + 1)
      ensures GivesDelimiter(r, ReadDelimiter(old(Rest())[6..]), Rest())
    {
      hide Balanced, Size, HtmlText.Space, Blank, TokenEnd, EffectOf, Letters, ReadDelimiter, SignText, CommandIs;
      ghost var end := cursor;
      RightIsNext();
      var _ := Take();
      var name := Name();
      if name != "right" { return Err(Invalid); }
      RightCloses(end);
      ghost var after := cursor;
      BalancedEnclosed(source, start, inner, end, after, Left, height);
      r := Delimiter();
      if r.Err? { return; }
      BalancedJoins(source, start, after, cursor, height + 1);
    }

    /** The text between delimiters fits where the whole does. */
    lemma PairedFits(s: string, height: nat)
      ensures ReadPaired(s, height, tables).Some? ==>
                var a := ReadPaired(s, height, tables).value.0;
                a.Paired? && (Fits(AtomText(a, tables)) ==> Fits(Text(a.body, tables)))
    {
      hide ReadItems, ReadDelimiter, SignText, Text, Size, Matching;
      if ReadPaired(s, height, tables).Some? {
        var a := ReadPaired(s, height, tables).value.0;
        if Fits(AtomText(a, tables)) {
          LongerFits(SignText(a.opening.sign), Text(a.body, tables), SignText(a.closing.sign));
        }
      }
    }

    lemma RightIsNext()
      requires Valid() && Stopped(Right)
      ensures cursor + 6 <= |source| && source[cursor] == '\\' && Letters(source, cursor + 1) == cursor + 6
      ensures source[cursor + 1..cursor + 6] == "right"
    {
      var s := Rest();
      assert s[..6] == "\\right";
      assert forall k :: 0 <= k < 6 ==> source[cursor + k] == "\\right"[k];
      TexRoundTrip.LettersEnd(source, cursor + 1, cursor + 6);
    }

    lemma RightCloses(end: nat)
      requires end + 1 <= |source| && source[end] == '\\' && source[end + 1..Letters(source, end + 1)] == "right"
      ensures TokenEnd(source, end) == Letters(source, end + 1) && EffectOf(source, end) == Closes(Left)
    {
      assert source[end + 1..Letters(source, end + 1)][0] == source[end + 1];
    }

    /** The scripts after an atom: at most one of each kind. */
    method Scripts(depth: nat, base: string, parenthesize: bool) returns (r: Result<(string, bool), Error>)
      requires Valid() && depth <= MAX_DEPTH && Fits(base)
      modifies this`cursor, this`deepest
      ensures Valid() && old(cursor) <= cursor
      ensures r.Ok? ==> Fits(r.value.0) && Read(old(cursor), depth)
      ensures GivesScripts(r, base, parenthesize,
                           ReadScripts(old(Rest()), MAX_DEPTH - depth, Blank(base), false, false, tables), Rest(), tables)
      decreases |source| - cursor, 4
    {
      hide Balanced, Size, HtmlText.Space, Blank, ReadScripts, ReadScript, Total, Blanks, SameScripts, GivesScripts,
        GivesScript;
      var atom, group := base, parenthesize;
      var sub, sup := false, false;
      BalancedNothing(source, cursor, MAX_DEPTH - depth);
      ghost var height := MAX_DEPTH - depth;
      ghost var all := ReadScripts(Rest(), height, Blank(base), false, false, tables);
      FirstScript(base, parenthesize, all, tables);
      while true
        invariant Valid() && old(cursor) <= cursor && Fits(atom) && Read(old(cursor), depth)
        invariant SameScripts(base, parenthesize, all, atom, group,
                              ReadScripts(Rest(), height, Blank(atom), sub, sup, tables), tables)
        decreases |source| - cursor
      {
        ghost var before, s := cursor, Rest();
        var beforeSpace := cursor;
        ScriptAhead(s, height, Blank(atom), sub, sup, tables);
        Whitespace();
        var mark := Peek();
        assert mark == (if Blanks(s) < |s| then Some(s[Blanks(s)]) else None);
        var position: Position;
        ghost var taken := (sub, sup);
        if mark == Some('_') && !sub {
          sub, position := true, Sub;
        } else if mark == Some('^') && !sup {
          sup, position := true, Super;
        } else if mark == Some('_') || mark == Some('^') {
          TwiceIsRefused(base, parenthesize, all, atom, group, s, height, sub, sup, Invalid, Rest(), tables);
          return Err(Invalid);
        } else {
          cursor := beforeSpace;
          LastScript(base, parenthesize, all, atom, group, s, tables);
          return Ok((atom, group));
        }
        BlankIsBalanced(before, cursor, MAX_DEPTH - depth);
        var next := Script(depth, before, atom, group, position);
        ScriptGoesOn(base, parenthesize, all, next, atom, group, s, position, height, taken.0, taken.1, Rest(), tables);
        if next.Err? { return Err(next.error); }
        BalancedJoins(source, old(cursor), before, cursor, MAX_DEPTH - depth);
        atom, group := next.value, false;
      }
    }

    /** One script, its mark next. */
    method Script(depth: nat, ghost before: nat, base: string, parenthesize: bool, position: Position)
      returns (r: Result<string, Error>)
      requires Valid() && depth <= MAX_DEPTH && Fits(base) && before <= cursor && Read(before, depth)
      requires Peek() == Some(Mark(position))
      modifies this`cursor, this`deepest
      ensures Valid() && old(cursor) < cursor
      ensures r.Ok? ==> Fits(r.value) && Read(before, depth)
      ensures GivesScript(r, base, parenthesize, ReadScript(source[before..], old(cursor) - before, position,
                                                            MAX_DEPTH - depth, Blank(base), tables), Rest(), tables)
      decreases |source| - cursor, 3
    {
      hide Balanced, Size, HtmlText.Space, Blank, ReadScripted, ArgumentText, Blanks, Fits;
      ghost var height := MAX_DEPTH - depth;
      ghost var mark := cursor;
      BalancedChar(source, mark, height);
      BalancedJoins(source, before, mark, mark + 1, height);
      var _ := Take();
      assert Rest() == source[before..][mark - before + 1..];
      ghost var inner := Rest();
      Whitespace();
      ghost var from := cursor;
      assert Rest() == inner[Blanks(inner)..];
      BlankIsBalanced(mark + 1, from, height);
      BalancedJoins(source, before, mark + 1, from, height);
      ghost var read := ReadScript(source[before..], mark - before, position, height, Blank(base), tables);
      ScriptFits(base, parenthesize, read, tables);
      if Blank(base) { return Err(Invalid); }
      var atom := base;
      if parenthesize {
        r := Wrapped("(", atom, ")");
        if r.Err? { return; }
        atom := r.value;
      }
      var argument := Scripted(depth);
      if argument.Err? { return argument; }
      BalancedJoins(source, before, from, cursor, height);
      if Blank(argument.value) { return Err(Invalid); }
      r := Append(atom, tables.span(argument.value, position));
    }

    /** What a script sets above or below the line. */
    method Scripted(depth: nat) returns (r: Result<string, Error>)
      requires Valid() && depth <= MAX_DEPTH
      modifies this`cursor, this`deepest
      ensures Valid() && old(cursor) <= cursor
      ensures r.Ok? ==> Fits(r.value) && Read(old(cursor), depth)
      ensures GivesScripted(r, ReadScripted(old(Rest()), MAX_DEPTH - depth, tables), Rest(), tables)
      decreases |source| - cursor, 3
    {
      hide Balanced, Size, HtmlText.Space, Blank, ReadAtom, ReadArgument, AtomText, Text;
      ghost var s, height := Rest(), MAX_DEPTH - depth;
      if Peek() == Some('{') {
        r := GroupArgument(depth + 1);
        BracesAreRead(s, height, tables);
      } else {
        r := Atom(depth + 1);
        if r.Ok? { BalancedHigher(source, old(cursor), cursor, height - 1, height); }
        if height > 0 { OthersAreBare(s, height - 1, tables); }
      }
    }

    /** A fraction that stands alone needs no parentheses. */
    method StandsAlone(stop: Stop) returns (end: bool)
      requires Valid()
      modifies this`cursor
      ensures Valid() && cursor == old(cursor) && end == AtEnd(Rest(), stop)
    {
      hide HtmlText.Space;
      var position := cursor;
      Whitespace();
      end := Peek().None? || (stop.Group? && Peek() == Some('}')) || (stop.Right? && Next("right"));
      cursor := position;
    }

    /** One atom with its scripts, appended to what was read before. */
    method Term(depth: nat, stop: Stop, output: string) returns (r: Result<string, Error>)
      requires Valid() && depth <= MAX_DEPTH && Fits(output)
      modifies this`cursor, this`deepest
      ensures Valid() && old(cursor) <= cursor
      ensures r.Ok? ==> old(cursor) < cursor && Fits(r.value) && Read(old(cursor), depth)
      ensures GivesTerm(r, output, stop, ReadTerm(old(Rest()), MAX_DEPTH - depth, tables), Rest(), tables)
      decreases |source| - cursor, 3
    {
      hide Balanced, Size, HtmlText.Space, Blank, ReadAtom, ReadScripts, AtomText, Total, AtEnd, CommandIs;
      ghost var s, height := Rest(), MAX_DEPTH - depth;
      var fraction := Next("frac");
      var group := fraction || Next("text");
      NamesTell(s, height, tables);
      r := Atom(depth);
      if r.Err? { TermFits(output, s, height, stop, tables); return; }
      ghost var after := cursor;
      var scripted := Scripts(depth, r.value, group);
      if scripted.Err? { TermFits(output, s, height, stop, tables); return Err(scripted.error); }
      BalancedJoins(source, old(cursor), after, cursor, MAX_DEPTH - depth);
      TermFits(output, s, height, stop, tables);
      var atom := scripted.value.0;
      if fraction && scripted.value.1 {
        var atEnd := StandsAlone(stop);
        if !Blank(output) || !atEnd {
          r := Wrapped("(", atom, ")");
          if r.Err? { return; }
          atom := r.value;
        }
      }
      r := Append(output, atom);
    }

    /** `expression`: terms and blanks up to the stop, within the levels that `depth` leaves. */
    method Expression(depth: nat, stop: Stop) returns (r: Result<string, Error>)
      requires Valid()
      modifies this`cursor, this`deepest
      ensures Valid() && old(cursor) <= cursor
      ensures r.Ok? ==> Fits(r.value) && Read(old(cursor), depth) && Stopped(stop)
      ensures depth > MAX_DEPTH ==> r.Err?
      ensures depth <= MAX_DEPTH
          ==> GivesItems(r, ReadItems(old(Rest()), MAX_DEPTH - depth, stop, tables), Rest(), tables)
      decreases |source| - cursor, 4
    {
      hide Balanced, Size, HtmlText.Space, Blank, ReadItems, ReadTerm, ItemsText, ItemText, Stops;
      var ok := Enter(depth);
      if !ok { return Err(Resource); }
      ghost var height := MAX_DEPTH - depth;
      ghost var all := ReadItems(Rest(), height, stop, tables);
      NothingFits();
      BalancedNothing(source, cursor, MAX_DEPTH - depth);
      Begins(all, tables);
      r := Ok("");
      while true
        invariant Valid() && old(cursor) <= cursor && r.Ok? && Fits(r.value) && Read(old(cursor), depth)
        invariant SameItems(all, r.value, ReadItems(Rest(), height, stop, tables), tables)
        decreases |source| - cursor
      {
        ghost var before, s, output := cursor, Rest(), r.value;
        StopsAhead(s, stop);
        if cursor == |source| {
          Finishes(all, output, s, height, stop, tables);
          return if stop.End? then r else Err(Invalid);
        }
        if (stop.Group? && source[cursor] == '}') || (stop.Right? && Next("right")) {
          Finishes(all, output, s, height, stop, tables);
          return;
        }
        if HtmlText.Space(source[cursor]) {
          Whitespace();
          BlankIsBalanced(before, cursor, MAX_DEPTH - depth);
          r := Append(r.value, " ");
          GapGoesOn(all, output, r, s, height, stop, tables);
        } else {
          r := Term(depth, stop, r.value);
          TermGoesOn(all, output, r, s, Rest(), height, stop, tables);
        }
        if r.Err? { return; }
        BalancedJoins(source, old(cursor), before, cursor, MAX_DEPTH - depth);
      }
    }
  }

  /** `project`: exactly the proper formulas within the bounds are accepted, each with its own text. */
  method Project(tex: string, tables: Tables) returns (r: Result<string, Error>)
    requires TablesOk(tables)
    ensures Size(tex) > MAX_INPUT ==> r == Err(Resource)
    ensures r.Ok? ==> Balanced(tex, 0, |tex|, MAX_DEPTH) && Fits(r.value) && !Blank(r.value)
    ensures r.Ok? <==> Size(tex) <= MAX_INPUT && exists items :: Writes(items, tex, tables)
    ensures forall items :: Size(tex) <= MAX_INPUT && Writes(items, tex, tables) ==> r == Ok(Trim(Text(items, tables)))
  {
    hide Balanced, HtmlText.Space, Blank, ReadItems, Text, Print, Proper, Size;
    if Size(tex) > MAX_INPUT {
      return Err(Resource);
    }
    TexRoundTrip.ReadsWhatIsProper(tex, MAX_DEPTH, tables);
    var parser := new Parser(tex, tables);
    assert parser.Rest() == tex;
    var output := parser.Expression(0, End);
    ghost var read := ReadItems(tex, MAX_DEPTH, End, tables);
    if output.Err? {
      return output;
    }
    TrimIsBlank(output.value);
    if Blank(Trim(output.value)) {
      return Err(Invalid);
    }
    TrimShrinks(output.value);
    r := Ok(Trim(output.value));
    assert Writes(read.value.0, tex, tables);
  }
}
