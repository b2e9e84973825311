/**
 The HTML projector: inline tags become styles on a bounded stack, text keeps
 its place, raw-text elements hide their contents from the tag reader. The
 class works with a cursor over the input; `Projected` says what it does to
 what is left of it.
 */
module Html {
  import opened Options
  import opened HtmlText

  /** The styles an element can give. */
  datatype Look = Look(bold: bool, italic: bool, strike: bool, reverse: bool)

  const PLAIN := Look(false, false, false, false)

  datatype Piece = Text(text: string, look: Look) | Boundary | Break | Rule

  /** Open inline elements, and the raw-text element whose end is being looked for. */
  datatype State = State(stack: seq<string>, raw: Option<string>)

  const MAX_OPEN: nat := 64

  predicate Bold(name: string) { name == "b" || name == "strong" || name == "summary" }
  predicate Italic(name: string) { name == "i" || name == "em" }
  predicate Strike(name: string) { name == "s" || name == "strike" || name == "del" }
  predicate Reverse(name: string) { name == "code" || name == "kbd" || name == "samp" }
  predicate Inline(name: string) { Bold(name) || Italic(name) || Strike(name) || Reverse(name) }

  predicate RawText(name: string) { name == "script" || name == "style" || name == "textarea" }

  /** The union of what the open elements give. */
  predicate Has(stack: seq<string>, p: string -> bool) { exists k :: 0 <= k < |stack| && p(stack[k]) }

  function LookOf(stack: seq<string>): Look {
    Look(Has(stack, Bold), Has(stack, Italic), Has(stack, Strike), Has(stack, Reverse))
  }

  // ---------- Raw text ----------

  /** Where `</raw` stands, in any case. */
  function FindClose(s: string, raw: string): (n: Option<nat>)
    ensures n.Some? ==> n.value + |raw| + 2 <= |s| && s[n.value] == '<'
  {
    if |s| < |raw| + 2 then None
    else if s[..2] == "</" && Lower(s[2..2 + |raw|]) == raw then Some(0)
    else
      var rest := FindClose(s[1..], raw);
      if rest.None? then None else Some(rest.value + 1)
  }

  /** The length of a proper end tag at the start of `s`, which begins with `</raw`. */
  function EndTag(s: string, raw: string): (n: Option<nat>)
    requires |s| >= |raw| + 2
    ensures n.Some? ==> 0 < n.value <= |s|
  {
    var suffix := s[|raw| + 2..];
    var blank := Find(suffix, c => !AsciiSpace(c));
    if blank < |suffix| && suffix[blank] == '>' then Some(|raw| + 3 + blank) else None
  }

  // ---------- One turn ----------

  /** What one turn consumes of the rest and adds to the pieces. */
  datatype Turn = Turn(consumed: nat, pieces: seq<Piece>, state: State)

  function RawTurn(s: State, rest: string, strip: bool): (t: Turn)
    requires |rest| > 0 && s.raw.Some?
    ensures 0 < t.consumed <= |rest|
  {
    var look := LookOf(s.stack);
    var close := FindClose(rest, s.raw.value);
    if close.None? then Turn(|rest|, [Text(rest, look)], s)
    else
      var before := if close.value > 0 then [Text(rest[..close.value], look)] else [];
      var end := EndTag(rest[close.value..], s.raw.value);
      if end.Some? then
        Turn(close.value + end.value,
             before + (if strip then [] else [Text(rest[close.value..close.value + end.value], look)]), s.(raw := None))
      else Turn(close.value + 1, before + [Text("<", look)], s)
  }

  /** An inline element opens while there is room, and closes only if it is the innermost. */
  function InlineTurn(s: State, name: string, tag: Tag, token: string, strip: bool): (seq<Piece>, State) {
    var boundary := if name == "summary" then [Boundary] else [];
    if tag.closing && |s.stack| > 0 && s.stack[|s.stack| - 1] == name then
      (boundary, s.(stack := s.stack[..|s.stack| - 1]))
    else if !tag.closing && !tag.empty && |s.stack| < MAX_OPEN then
      (boundary, s.(stack := s.stack + [name]))
    else (if strip then [] else [Text(token, LookOf(s.stack))], s)
  }

  function TagTurn(s: State, tag: Tag, token: string, strip: bool): (seq<Piece>, State) {
    var name := Lower(tag.name);
    if name == "br" && !tag.closing then ([Break], s)
    else if name == "hr" && !tag.closing then ([Rule], s)
    else if name == "details" || name == "p" || name == "div" then ([Boundary], s)
    else if Inline(name) then InlineTurn(s, name, tag, token, strip)
    else
      (if strip then [] else [Text(token, LookOf(s.stack))],
       if !tag.closing && !tag.empty then s.(raw := if RawText(name) then Some(name) else None) else s)
  }

  function TokenTurn(s: State, token: string, strip: bool): (seq<Piece>, State) {
    var tag := TagOf(token);
    if tag.Some? then TagTurn(s, tag.value, token, strip)
    else if strip && ("<!" <= token || "<?" <= token) then ([], s)
    else ([Text(token, LookOf(s.stack))], s)
  }

  predicate Opens(c: char) { c == '<' }

  function OneTurn(s: State, rest: string, strip: bool): (t: Turn)
    requires |rest| > 0
    ensures 0 < t.consumed <= |rest|
  {
    if s.raw.Some? then RawTurn(s, rest, strip)
    else
      var next := Find(rest, Opens);
      if next > 0 then Turn(next, [Text(Entities(rest[..next]), LookOf(s.stack))], s)
      else
        var end := TokenEnd(rest);
        if end.None? then Turn(|rest|, [Text(rest, LookOf(s.stack))], s)
        else
          var (pieces, state) := TokenTurn(s, rest[..end.value], strip);
          Turn(end.value, pieces, state)
  }

  datatype Result = Result(pieces: seq<Piece>, state: State)

  /** The projection of what is left of the input; every turn consumes some of it. */
  function Projected(s: State, rest: string, strip: bool): Result
    decreases |rest|
  {
    if |rest| == 0 then Result([], s)
    else
      var t := OneTurn(s, rest, strip);
      var r := Projected(t.state, rest[t.consumed..], strip);
      Result(t.pieces + r.pieces, r.state)
  }

  // ---------- The stack stays bounded ----------

  ghost predicate StateOk(s: State) {
    && |s.stack| <= MAX_OPEN && (forall k :: 0 <= k < |s.stack| ==> Inline(s.stack[k]))
    && (s.raw.Some? ==> RawText(s.raw.value))
  }

  lemma TurnKeepsState(s: State, rest: string, strip: bool)
    requires StateOk(s) && |rest| > 0
    ensures StateOk(OneTurn(s, rest, strip).state)
  {
    hide Inline, LookOf, TagOf, TokenEnd, Entities, FindClose, EndTag, RawText, Find, Lower;
  }

  /** On any input the stack never passes its bound and holds inline elements only. */
  lemma {:induction false} ProjectionKeepsState(s: State, rest: string, strip: bool)
    requires StateOk(s)
    ensures StateOk(Projected(s, rest, strip).state)
    decreases |rest|
  {
    hide StateOk, OneTurn;
    if |rest| > 0 {
      TurnKeepsState(s, rest, strip);
      ProjectionKeepsState(OneTurn(s, rest, strip).state, rest[OneTurn(s, rest, strip).consumed..], strip);
    }
  }

  // ---------- The projector as it works ----------

  class Html {
    var stack: seq<string>
    var raw: Option<string>

    ghost function Now(): State
      reads this
    {
      State(stack, raw)
    }

    constructor ()
      ensures Now() == State([], None)
    {
      stack, raw := [], None;
    }

    method Style() returns (look: Look)
      ensures look == LookOf(stack)
    {
      look := PLAIN;
      for k := 0 to |stack|
        invariant look == LookOf(stack[..k])
      {
        var name := stack[k];
        assert stack[..k + 1] == stack[..k] + [name];
        HasMore(stack[..k], name);
        if Bold(name) {
          look := look.(bold := true);
        } else if Italic(name) {
          look := look.(italic := true);
        } else if Strike(name) {
          look := look.(strike := true);
        } else if Reverse(name) {
          look := look.(reverse := true);
        }
      }
      assert stack[..|stack|] == stack;
    }

    /** The end of a raw-text element, or all the rest. */
    method ProjectRaw(input: string, cursor: nat, strip: bool) returns (pieces: seq<Piece>, next: nat)
      requires cursor < |input| && raw.Some?
      modifies this`raw
      ensures cursor < next <= |input|
      ensures Turn(next - cursor, pieces, Now()) == RawTurn(old(Now()), input[cursor..], strip)
    {
      hide FindClose, EndTag, LookOf;
      var look := Style();
      var rest := input[cursor..];
      var close := FindClose(rest, raw.value);
      if close.None? {
        return [Text(rest, look)], |input|;
      }
      pieces := [];
      if close.value > 0 {
        pieces := [Text(rest[..close.value], look)];
      }
      next := cursor + close.value;
      var end := EndTag(input[next..], raw.value);
      assert rest[close.value..] == input[next..];
      if end.Some? {
        if !strip {
          assert rest[close.value..close.value + end.value] == input[next..next + end.value];
          pieces := pieces + [Text(input[next..next + end.value], look)];
        }
        raw := None;
        next := next + end.value;
      } else {
        pieces := pieces + [Text("<", look)];
        next := next + 1;
      }
    }

    /** An inline tag. */
    method ProjectInline(name: string, tag: Tag, token: string, strip: bool) returns (pieces: seq<Piece>)
      modifies this`stack
      ensures (pieces, Now()) == InlineTurn(old(Now()), name, tag, token, strip)
    {
      hide LookOf;
      pieces := [];
      var admitted := false;
      if tag.closing {
        if |stack| > 0 && stack[|stack| - 1] == name {
          stack := stack[..|stack| - 1];
          admitted := true;
        }
      } else if !tag.empty && |stack| < MAX_OPEN {
        if name == "summary" {
          pieces := [Boundary];
        }
        stack := stack + [name];
        admitted := true;
      }
      if admitted && tag.closing && name == "summary" {
        pieces := [Boundary];
      }
      if !admitted && !strip {
        var look := Style();
        pieces := [Text(token, look)];
      }
    }

    method ProjectToken(token: string, strip: bool) returns (pieces: seq<Piece>)
      modifies this
      ensures (pieces, Now()) == TokenTurn(old(Now()), token, strip)
    {
      hide LookOf, InlineTurn, TagOf, Lower, Inline;
      var found := TagOf(token);
      var look := Style();
      if found.None? {
        return if strip && ("<!" <= token || "<?" <= token) then [] else [Text(token, look)];
      }
      var tag := found.value;
      var name := Lower(tag.name);
      if name == "br" && !tag.closing {
        pieces := [Break];
      } else if name == "hr" && !tag.closing {
        pieces := [Rule];
      } else if name == "details" || name == "p" || name == "div" {
        pieces := [Boundary];
      } else if Inline(name) {
        pieces := ProjectInline(name, tag, token, strip);
      } else {
        pieces := if strip then [] else [Text(token, look)];
        if !tag.closing && !tag.empty {
          raw := if RawText(name) then Some(name) else None;
        }
      }
    }

    method ProjectTurn(input: string, cursor: nat, strip: bool) returns (pieces: seq<Piece>, next: nat)
      requires cursor < |input|
      modifies this
      ensures cursor < next <= |input|
      ensures Turn(next - cursor, pieces, Now()) == OneTurn(old(Now()), input[cursor..], strip)
    {
      hide LookOf, RawTurn, TokenTurn, TokenEnd, Entities, Find;
      if raw.Some? {
        pieces, next := ProjectRaw(input, cursor, strip);
        return;
      }
      var rest := input[cursor..];
      var look := Style();
      next := cursor + Find(rest, Opens);
      if next > cursor {
        assert rest[..next - cursor] == input[cursor..next];
        var text := DecodeEntities(input[cursor..next]);
        pieces := [Text(text, look)];
        return;
      }
      var length := FindTokenEnd(rest);
      if length.None? {
        return [Text(rest, look)], |input|;
      }
      next := cursor + length.value;
      assert rest[..length.value] == input[cursor..next];
      pieces := ProjectToken(input[cursor..next], strip);
    }

    /** `project` */
    method Project(input: string, strip: bool) returns (pieces: seq<Piece>)
      modifies this
      ensures Result(pieces, Now()) == Projected(old(Now()), input, strip)
      ensures old(StateOk(Now())) ==> StateOk(Now())
    {
      hide OneTurn, StateOk;
      if StateOk(Now()) { ProjectionKeepsState(Now(), input, strip); }
      pieces := [];
      var cursor := 0;
      assert input[0..] == input;
      while cursor < |input|
        invariant cursor <= |input|
        invariant var r := Projected(Now(), input[cursor..], strip);
                  Projected(old(Now()), input, strip) == Result(pieces + r.pieces, r.state)
      {
        var more, next := ProjectTurn(input, cursor, strip);
        assert input[cursor..][next - cursor..] == input[next..];
        pieces, cursor := pieces + more, next;
      }
    }
  }

  lemma HasMore(stack: seq<string>, name: string)
    ensures forall p :: Has(stack + [name], p) == (Has(stack, p) || p(name))
  {
    forall p ensures Has(stack + [name], p) == (Has(stack, p) || p(name)) {
      var more := stack + [name];
      if Has(stack, p) {
        var k :| 0 <= k < |stack| && p(stack[k]);
        assert more[k] == stack[k];
      }
      assert more[|stack|] == name;
    }
  }
}
