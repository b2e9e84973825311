/**
 How a formula nests: unescaped braces and `\left` with `\right`, read token by
 token, never deeper than a given height.
 */
module TexBrackets {
  import opened Options

  predicate Letter(c: char) { 'a' <= c <= 'z' || 'A' <= c <= 'Z' }

  datatype Bracket = Brace | Left

  datatype Effect = Opens(b: Bracket) | Closes(b: Bracket) | Neutral

  // ---------- Tokens ----------

  /** The first position from `i` on that holds no letter. */
  function Letters(source: string, i: nat): (end: nat)
    requires i <= |source|
    ensures i <= end <= |source|
    ensures forall k :: i <= k < end ==> Letter(source[k])
    ensures end < |source| ==> !Letter(source[end])
    decreases |source| - i
  {
    if i < |source| && Letter(source[i]) then Letters(source, i + 1) else i
  }

  /** A command with its whole name, an escaped character, or a single character. */
  function TokenEnd(source: string, i: nat): (end: nat)
    requires i < |source|
    ensures i < end <= |source|
  {
    if source[i] != '\\' || i + 1 == |source| then i + 1
    else if Letter(source[i + 1]) then Letters(source, i + 1)
    else i + 2
  }

  function EffectOf(source: string, i: nat): Effect
    requires i < |source|
  {
    if source[i] == '{' then Opens(Brace)
    else if source[i] == '}' then Closes(Brace)
    else if source[i] == '\\' then
      var name := source[i + 1..TokenEnd(source, i)];
      if name == "left" then Opens(Left) else if name == "right" then Closes(Left) else Neutral
    else Neutral
  }

  // ---------- Nesting ----------

  /** The brackets still open after the tokens from `i` to `to`, or none when they do not nest within `height`. */
  function Scan(source: string, i: nat, upto: nat, stack: seq<Bracket>, height: nat): Option<seq<Bracket>>
    requires i <= upto <= |source|
    decreases upto - i
  {
    if i == upto then Some(stack)
    else
      var end := TokenEnd(source, i);
      if end > upto then None
      else
        match EffectOf(source, i)
        case Opens(b) => if |stack| >= height then None else Scan(source, end, upto, stack + [b], height)
        case Closes(b) =>
          if |stack| > 0 && stack[|stack| - 1] == b then Scan(source, end, upto, stack[..|stack| - 1], height) else None
        case Neutral => Scan(source, end, upto, stack, height)
  }

  /** The tokens from `from` to `to` close everything they open, at most `height` deep. */
  predicate Balanced(source: string, from: nat, upto: nat, height: nat) {
    from <= upto <= |source| && Scan(source, from, upto, [], height) == Some([])
  }

  /** Scanning inside other brackets leaves them alone. */
  lemma {:induction false} ScanInside(source: string, i: nat, upto: nat, outer: seq<Bracket>, stack: seq<Bracket>,
                                      height: nat, higher: nat)
    requires i <= upto <= |source| && Scan(source, i, upto, stack, height).Some? && height + |outer| <= higher
    ensures Scan(source, i, upto, outer + stack, higher) == Some(outer + Scan(source, i, upto, stack, height).value)
    decreases upto - i
  {
    hide TokenEnd, EffectOf;
    if i < upto {
      var end := TokenEnd(source, i);
      var all := outer + stack;
      match EffectOf(source, i) {
        case Opens(b) =>
          assert all + [b] == outer + (stack + [b]);
          ScanInside(source, end, upto, outer, stack + [b], height, higher);
        case Closes(b) =>
          assert all[|all| - 1] == stack[|stack| - 1];
          assert all[..|all| - 1] == outer + stack[..|stack| - 1];
          ScanInside(source, end, upto, outer, stack[..|stack| - 1], height, higher);
        case Neutral =>
          ScanInside(source, end, upto, outer, stack, height, higher);
      }
    }
  }

  lemma {:induction false} ScanJoins(source: string, i: nat, middle: nat, upto: nat, stack: seq<Bracket>, height: nat)
    requires i <= middle <= upto <= |source| && Scan(source, i, middle, stack, height).Some?
    ensures Scan(source, i, upto, stack, height)
         == Scan(source, middle, upto, Scan(source, i, middle, stack, height).value, height)
    decreases middle - i
  {
    hide TokenEnd, EffectOf;
    if i < middle {
      var end := TokenEnd(source, i);
      match EffectOf(source, i) {
        case Opens(b) => ScanJoins(source, end, middle, upto, stack + [b], height);
        case Closes(b) => ScanJoins(source, end, middle, upto, stack[..|stack| - 1], height);
        case Neutral => ScanJoins(source, end, middle, upto, stack, height);
      }
    }
  }

  lemma BalancedNothing(source: string, i: nat, height: nat)
    requires i <= |source|
    ensures Balanced(source, i, i, height)
  {
  }

  lemma BalancedJoins(source: string, from: nat, middle: nat, upto: nat, height: nat)
    requires Balanced(source, from, middle, height) && Balanced(source, middle, upto, height)
    ensures Balanced(source, from, upto, height)
  {
    hide Scan;
    ScanJoins(source, from, middle, upto, [], height);
  }

  lemma BalancedHigher(source: string, from: nat, upto: nat, height: nat, higher: nat)
    requires Balanced(source, from, upto, height) && height <= higher
    ensures Balanced(source, from, upto, higher)
  {
    hide Scan;
    ScanInside(source, from, upto, [], [], height, higher);
    var none: seq<Bracket> := [];
    assert none + none == none;
  }

  /** A token that is no bracket. */
  lemma BalancedToken(source: string, i: nat, height: nat)
    requires i < |source| && EffectOf(source, i).Neutral?
    ensures Balanced(source, i, TokenEnd(source, i), height)
  {
  }

  lemma BalancedChar(source: string, i: nat, height: nat)
    requires i < |source| && source[i] != '\\' && source[i] != '{' && source[i] != '}'
    ensures Balanced(source, i, i + 1, height)
  {
    BalancedToken(source, i, height);
  }

  lemma BalancedEscape(source: string, i: nat, height: nat)
    requires i + 1 < |source| && source[i] == '\\' && !Letter(source[i + 1])
    ensures Balanced(source, i, i + 2, height)
  {
    assert |source[i + 1..i + 2]| == 1;
    BalancedToken(source, i, height);
  }

  lemma BalancedCommand(source: string, i: nat, height: nat)
    requires i + 1 < |source| && source[i] == '\\' && Letter(source[i + 1])
    requires source[i + 1..Letters(source, i + 1)] != "left" && source[i + 1..Letters(source, i + 1)] != "right"
    ensures Balanced(source, i, Letters(source, i + 1), height)
  {
    BalancedToken(source, i, height);
  }

  /** What is between an opening and its closing token stands one level higher. */
  lemma BalancedEnclosed(source: string, from: nat, inner: nat, end: nat, upto: nat, b: Bracket, height: nat)
    requires from < |source| && TokenEnd(source, from) == inner && EffectOf(source, from) == Opens(b)
    requires Balanced(source, inner, end, height)
    requires end < |source| && TokenEnd(source, end) == upto && EffectOf(source, end) == Closes(b)
    ensures Balanced(source, from, upto, height + 1)
  {
    hide TokenEnd, EffectOf;
    ScanInside(source, inner, end, [b], [], height, height + 1);
    assert [b] + [] == [b] && [] + [b] == [b];
    ScanJoins(source, inner, end, upto, [b], height + 1);
    assert [b][..0] == [];
    assert Scan(source, end, upto, [b], height + 1) == Some([]);
  }

  // ---------- Braces opened one after another ----------

  function Braces(n: nat): (b: seq<Bracket>)
    ensures |b| == n
  {
    seq(n, _ => Brace)
  }

  /** From `from` to `to`, `n` more braces were opened than closed. */
  predicate Opened(source: string, from: nat, upto: nat, n: nat, height: nat) {
    from <= upto <= |source| && Scan(source, from, upto, [], height) == Some(Braces(n))
  }

  lemma OpenedBrace(source: string, from: nat, upto: nat, n: nat, height: nat)
    requires Opened(source, from, upto, n, height) && upto < |source| && source[upto] == '{' && n < height
    ensures Opened(source, from, upto + 1, n + 1, height)
  {
    hide Scan;
    ScanJoins(source, from, upto, upto + 1, [], height);
    assert Braces(n) + [Brace] == Braces(n + 1);
    ScanOne(source, upto, Braces(n), height);
  }

  lemma ClosedBrace(source: string, from: nat, upto: nat, n: nat, height: nat)
    requires Opened(source, from, upto, n, height) && upto < |source| && source[upto] == '}' && n > 0
    ensures Opened(source, from, upto + 1, n - 1, height)
  {
    hide Scan;
    ScanJoins(source, from, upto, upto + 1, [], height);
    assert Braces(n)[..n - 1] == Braces(n - 1);
    ScanOne(source, upto, Braces(n), height);
  }

  /** Tokens without brackets between. */
  lemma OpenedPast(source: string, from: nat, upto: nat, n: nat, next: nat, height: nat)
    requires Opened(source, from, upto, n, height) && Neutral1(source, upto, next)
    ensures Opened(source, from, next, n, height)
  {
    hide Scan;
    ScanJoins(source, from, upto, next, [], height);
    ScanOne(source, upto, Braces(n), height);
  }

  /** Exactly one token, and no bracket. */
  predicate Neutral1(source: string, i: nat, next: nat) {
    i < |source| && TokenEnd(source, i) == next && EffectOf(source, i).Neutral?
  }

  lemma ScanOne(source: string, i: nat, stack: seq<Bracket>, height: nat)
    requires i < |source|
    ensures Scan(source, i, TokenEnd(source, i), stack, height)
         == match EffectOf(source, i)
            case Opens(b) => if |stack| >= height then None else Some(stack + [b])
            case Closes(b) => if |stack| > 0 && stack[|stack| - 1] == b then Some(stack[..|stack| - 1]) else None
            case Neutral => Some(stack)
  {
  }
}
