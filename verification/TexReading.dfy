/**
 Reading a formula from the front of a text: its tree and what remains, or
 none when no formula is there.
 */
module TexReading {
  import opened Options
  import opened TexBrackets
  import opened TexGrammar
  import opened Texts
  import HtmlText

  type Read<T> = Option<(T, string)>

  datatype Stop = End | Group | Right

  // ---------- Blanks and names ----------

  function Blanks(s: string): (n: nat)
    ensures n <= |s| && Blank(s[..n]) && (n < |s| ==> !HtmlText.Space(s[n]))
  {
    if |s| > 0 && HtmlText.Space(s[0]) then
      assert s[..1 + Blanks(s[1..])] == [s[0]] + s[1..][..Blanks(s[1..])];
      1 + Blanks(s[1..])
    else 0
  }

  /** `command_is`: this command, with its whole name, is next. */
  predicate CommandIs(s: string, name: string) {
    "\\" + name <= s && (1 + |name| < |s| ==> !Letter(s[1 + |name|]))
  }

  predicate Stops(s: string, stop: Stop) {
    match stop
    case End => s == ""
    case Group => |s| > 0 && s[0] == '}'
    case Right => CommandIs(s, "right")
  }

  // ---------- Delimiters and literal text ----------

  function ReadDelimiter(s: string): (r: Read<Delimiter>)
    ensures r.Some? ==> |r.value.1| < |s|
  {
    var n := Blanks(s);
    match ReadSign(s[n..])
    case None => None
    case Some((sign, rest)) => Some((Delimiter(s[..n], sign), rest))
  }

  function ReadSign(s: string): (r: Read<Sign>)
    ensures r.Some? ==> |r.value.1| < |s|
  {
    if |s| == 0 then None
    else if BareSign(s[0]) then Some((Bare(s[0]), s[1..]))
    else if s[0] != '\\' then None
    else if |s| > 1 && SlashedSign(s[1]) then Some((Slashed(s[1]), s[2..]))
    else
      var end := Letters(s, 1);
      if CalledSign(s[1..end]) then Some((Called(s[1..end]), s[end..])) else None
  }

  /** Literal text up to the brace that closes the outermost of `open`. */
  function ReadPieces(s: string, open: nat, height: nat): (r: Read<seq<Piece>>)
    requires 0 < open
    ensures r.Some? ==> |r.value.1| < |s|
    decreases |s|
  {
    if |s| == 0 then None
    else if s[0] == '\\' then
      if |s| > 1 && Escapable(s[1]) then Before(Escaped(s[1]), ReadPieces(s[2..], open, height)) else None
    else if s[0] == '}' && open == 1 then Some(([], s[1..]))
    else if s[0] == '{' && open >= height then None
    else Before(Plain(s[0]), ReadPieces(s[1..], OpenAfter(s[0], open), height))
  }

  function OpenAfter(c: char, open: nat): nat {
    if c == '{' then open + 1 else if c == '}' && open > 0 then open - 1 else open
  }

  function Before<T>(first: T, r: Read<seq<T>>): Read<seq<T>> {
    if r.None? then None else Some(([first] + r.value.0, r.value.1))
  }

  function ReadLiteral(s: string, height: nat): (r: Read<Atom>)
    ensures r.Some? ==> |r.value.1| < |s|
  {
    var n := Blanks(s);
    if height == 0 || n == |s| || s[n] != '{' then None
    else
      match ReadPieces(s[n + 1..], 1, height)
      case None => None
      case Some((pieces, rest)) => Some((Literal(s[..n], pieces), rest))
  }

  // ---------- The grammar ----------

  function ReadArgument(s: string, height: nat, t: Tables): (r: Read<Argument>)
    ensures r.Some? ==> |r.value.1| < |s|
    decreases |s|, 0
  {
    var n := Blanks(s);
    if height == 0 || n == |s| || s[n] != '{' then None
    else
      match ReadItems(s[n + 1..], height - 1, Group, t)
      case None => None
      case Some((body, rest)) =>
        if |rest| == 0 || Blank(Text(body, t)) then None else Some((Argument(s[..n], body), rest[1..]))
  }

  function ReadAtom(s: string, height: nat, t: Tables): (r: Read<Atom>)
    ensures r.Some? ==> |r.value.1| < |s|
    decreases |s|, 1
  {
    if |s| == 0 then None
    else if s[0] == '{' then
      match ReadArgument(s, height, t)
      case None => None
      case Some((group, rest)) => Some((Braced(group), rest))
    else if s[0] == '\\' then ReadCommand(s[1..], height, t)
    else if Special(s[0]) then None
    else Some((Char(s[0]), s[1..]))
  }

  function ReadEscape(s: string): (r: Read<Atom>)
    ensures r.Some? ==> |r.value.1| < |s|
  {
    if |s| > 0 && (Escapable(s[0]) || SpaceEscape(s[0])) then Some((Escape(s[0]), s[1..])) else None
  }

  /** What follows a backslash. */
  function ReadCommand(s: string, height: nat, t: Tables): (r: Read<Atom>)
    ensures r.Some? ==> |r.value.1| < |s|
    decreases |s|, 1
  {
    if |s| == 0 || !Letter(s[0]) then ReadEscape(s)
    else
      var end := Letters(s, 0);
      ReadNamed(s[..end], s[end..], height, t)
  }

  /** What follows the name of a command. */
  function ReadNamed(name: string, s: string, height: nat, t: Tables): (r: Read<Atom>)
    ensures r.Some? ==> |r.value.1| <= |s|
    decreases |s|, 2
  {
    if name == "left" then ReadPaired(s, height, t)
    else if name == "right" then None
    else if name == "frac" then ReadFraction(s, height, t)
    else if name == "sqrt" then ReadRoot(s, height, t)
    else if name == "text" then ReadLiteral(s, height)
    else if Spacing(name) || t.symbol(name).Some? then Some((Command(name), s))
    else None
  }

  function ReadFraction(s: string, height: nat, t: Tables): (r: Read<Atom>)
    ensures r.Some? ==> |r.value.1| < |s|
    decreases |s|, 1
  {
    match ReadArgument(s, height, t)
    case None => None
    case Some((numerator, middle)) =>
      match ReadArgument(middle, height, t)
      case None => None
      case Some((denominator, rest)) => Some((Fraction(numerator, denominator), rest))
  }

  function ReadRoot(s: string, height: nat, t: Tables): (r: Read<Atom>)
    ensures r.Some? ==> |r.value.1| < |s|
    decreases |s|, 1
  {
    match ReadArgument(s, height, t)
    case None => None
    case Some((radicand, rest)) => Some((Root(radicand), rest))
  }

  function ReadPaired(s: string, height: nat, t: Tables): (r: Read<Atom>)
    ensures r.Some? ==> |r.value.1| < |s|
    decreases |s|, 1
  {
    match ReadDelimiter(s)
    case None => None
    case Some((opening, inner)) =>
      if height == 0 then None
      else
        match ReadItems(inner, height - 1, Right, t)
        case None => None
        case Some((body, end)) => if |end| < 6 then None else ReadClosing(opening, body, end[6..])
  }

  function ReadClosing(opening: Delimiter, body: seq<Item>, s: string): (r: Read<Atom>)
    ensures r.Some? ==> |r.value.1| < |s|
  {
    match ReadDelimiter(s)
    case None => None
    case Some((closing, rest)) =>
      if Matching(SignText(opening.sign), SignText(closing.sign)) then Some((Paired(opening, body, closing), rest))
      else None
  }

  /** What a script may hang on: braces, or one atom a level up. */
  function ReadScripted(s: string, height: nat, t: Tables): (r: Read<Atom>)
    ensures r.Some? ==> |r.value.1| < |s|
    decreases |s|, 2
  {
    if height == 0 then None
    else if |s| > 0 && s[0] == '{' then ReadAtom(s, height, t)
    else ReadAtom(s, height - 1, t)
  }

  /** Scripts; `blank`: what they hang on would be blank. */
  function ReadScripts(s: string, height: nat, blank: bool, sub: bool, sup: bool, t: Tables): (r: Read<seq<Script>>)
    ensures r.Some? ==> |r.value.1| <= |s|
    decreases |s|, 3
  {
    var n := Blanks(s);
    if n == |s| || (s[n] != '_' && s[n] != '^') then Some(([], s))
    else
      var position := if s[n] == '_' then Sub else Super;
      if if position.Sub? then sub else sup then None
      else
        match ReadScript(s, n, position, height, blank, t)
        case None => None
        case Some((script, rest)) =>
          Before(script, ReadScripts(rest, height, false, sub || position.Sub?, sup || position.Super?, t))
  }

  /** One script, its mark after `n` blanks. */
  function ReadScript(s: string, n: nat, position: Position, height: nat, blank: bool, t: Tables): (r: Read<Script>)
    requires n < |s|
    ensures r.Some? ==> |r.value.1| < |s|
    decreases |s|, 2
  {
    var m := Blanks(s[n + 1..]);
    if blank then None
    else
      match ReadScripted(s[n + 1..][m..], height, t)
      case None => None
      case Some((argument, rest)) =>
        var text := ArgumentText(argument, t);
        if Blank(text) || !Fits(text) then None
        else Some((Script(s[..n], position, s[n + 1..][..m], argument), rest))
  }

  function ReadTerm(s: string, height: nat, t: Tables): (r: Read<Item>)
    ensures r.Some? ==> |r.value.1| < |s|
    decreases |s|, 2
  {
    match ReadAtom(s, height, t)
    case None => None
    case Some((atom, middle)) =>
      match ReadScripts(middle, height, Blank(AtomText(atom, t)), false, false, t)
      case None => None
      case Some((scripts, rest)) => Some((Term(atom, scripts), rest))
  }

  function ReadItems(s: string, height: nat, stop: Stop, t: Tables): (r: Read<seq<Item>>)
    ensures r.Some? ==> |r.value.1| <= |s|
    decreases |s|, 3
  {
    if Stops(s, stop) then Some(([], s))
    else if |s| == 0 then None
    else if HtmlText.Space(s[0]) then
      var n := Blanks(s);
      Before(Gap(s[..n]), ReadItems(s[n..], height, stop, t))
    else
      match ReadTerm(s, height, t)
      case None => None
      case Some((item, rest)) => Before(item, ReadItems(rest, height, stop, t))
  }
}
