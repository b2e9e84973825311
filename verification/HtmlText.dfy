/**
 The lexical parts of the HTML projector: where a token ends, which tokens are
 tags, and how character references decode.
 */
module HtmlText {
  import opened Options

  // ---------- Characters ----------

  predicate AsciiSpace(c: char) { c == ' ' || c == '\t' || c == '\n' || c == '\r' || c == 12 as char }

  /** `char::is_whitespace` */
  predicate Space(c: char) {
    || AsciiSpace(c) || c == 11 as char || c == '\U{85}' || c == '\U{A0}' || c == '\U{1680}'
    || '\U{2000}' <= c <= '\U{200A}' || c == '\U{2028}' || c == '\U{2029}' || c == '\U{202F}' || c == '\U{205F}'
    || c == '\U{3000}'
  }

  predicate Upper(c: char) { 'A' <= c <= 'Z' }

  predicate Letter(c: char) { 'a' <= c <= 'z' || Upper(c) }

  predicate Digit(c: char) { '0' <= c <= '9' }

  predicate HexDigit(c: char) { Digit(c) || 'a' <= c <= 'f' || 'A' <= c <= 'F' }

  function LowerChar(c: char): char { if Upper(c) then (c as int + 32) as char else c }

  /** `to_ascii_lowercase` */
  function Lower(s: string): (t: string)
    ensures |t| == |s|
  {
    seq(|s|, i requires 0 <= i < |s| => LowerChar(s[i]))
  }

  /** `find`: the first character that satisfies `p`, or the length. */
  function Find(s: string, p: char -> bool): (n: nat)
    ensures n <= |s| && (n < |s| ==> p(s[n]))
    ensures forall i :: 0 <= i < n ==> !p(s[i])
  {
    if |s| == 0 || p(s[0]) then 0 else 1 + Find(s[1..], p)
  }

  lemma {:induction false} FindFirst(s: string, p: char -> bool, n: nat)
    requires n <= |s| && (n < |s| ==> p(s[n])) && forall i :: 0 <= i < n ==> !p(s[i])
    ensures Find(s, p) == n
  {
    if n > 0 { FindFirst(s[1..], p, n - 1); }
  }

  function TrimStart(s: string): string { s[Find(s, c => !Space(c))..] }

  function TrimEnd(s: string): string {
    if |s| > 0 && Space(s[|s| - 1]) then TrimEnd(s[..|s| - 1]) else s
  }

  // ---------- token_end ----------

  /** Where a comment ends. */
  function CommentEnd(s: string): Option<nat> {
    if |s| < 3 then None
    else if s[..3] == "-->" then Some(3)
    else
      var rest := CommentEnd(s[1..]);
      if rest.None? then None else Some(rest.value + 1)
  }

  /** Where a tag ends, from inside it: quotes hide what ends or spoils it. */
  function TagEnd(s: string, quote: Option<char>): Option<nat> {
    if |s| == 0 then None
    else
      var c := s[0];
      var isQuote := c == '\'' || c == '"';
      if quote.None? && c == '>' then Some(1)
      else if quote.None? && c == '<' then None
      else
        var next := if isQuote && quote == Some(c) then None else if isQuote && quote.None? then Some(c) else quote;
        var rest := TagEnd(s[1..], next);
        if rest.None? then None else Some(rest.value + 1)
  }

  function TokenEnd(s: string): (end: Option<nat>)
    requires |s| > 0
    ensures end.Some? ==> 1 < end.value <= |s|
  {
    if "<!--" <= s then
      var end := CommentEnd(s);
      CommentEndInside(s);
      end
    else
      var rest := TagEnd(s[1..], None);
      TagEndInside(s[1..], None);
      if rest.None? then None else Some(rest.value + 1)
  }

  lemma {:induction false} CommentEndInside(s: string)
    ensures CommentEnd(s).Some? ==> 3 <= CommentEnd(s).value <= |s|
  {
    if |s| >= 3 { CommentEndInside(s[1..]); }
  }

  lemma {:induction false} TagEndInside(s: string, quote: Option<char>)
    ensures TagEnd(s, quote).Some? ==> 0 < TagEnd(s, quote).value <= |s|
  {
    if |s| > 0 {
      TagEndInside(s[1..], None);
      TagEndInside(s[1..], Some(s[0]));
      TagEndInside(s[1..], quote);
    }
  }

  /** `token_end` as a scan over offsets. */
  method FindTokenEnd(s: string) returns (end: Option<nat>)
    requires |s| > 0
    ensures end == TokenEnd(s)
  {
    if "<!--" <= s {
      return CommentEnd(s);
    }
    var quote: Option<char> := None;
    var offset := 1;
    while offset < |s|
      invariant 1 <= offset <= |s|
      invariant TokenEnd(s) == var rest := TagEnd(s[offset..], quote);
                               if rest.None? then None else Some(rest.value + offset)
    {
      var c := s[offset];
      assert s[offset..][1..] == s[offset + 1..];
      if c == '\'' || c == '"' {
        if quote == Some(c) {
          quote := None;
        } else if quote.None? {
          quote := Some(c);
        }
      } else if c == '>' && quote.None? {
        return Some(offset + 1);
      } else if c == '<' && quote.None? {
        return None;
      }
      offset := offset + 1;
    }
    end := None;
  }

  // ---------- attributes and tags ----------

  predicate NameStop(c: char) { Space(c) || c == '/' || c == '>' || c == '=' || c == '\'' || c == '"' || c == '<' }

  predicate ValueStop(c: char) { c == '"' || c == '\'' || c == '`' || c == '=' || c == '<' || c == '>' }

  /** What follows one attribute, if it is a proper one. */
  function Attribute(rest: string): (next: Option<string>)
    requires |rest| > 0 && !Space(rest[0])
    ensures next.Some? ==> |next.value| < |rest|
  {
    var length := Find(rest, NameStop);
    if length == 0 then None
    else
      var after := TrimStart(rest[length..]);
      if |after| == 0 || after[0] != '=' then Some(after)
      else
        var value := TrimStart(after[1..]);
        var next :=
          if |value| > 0 && (value[0] == '\'' || value[0] == '"') then
            var quote := value[0];
            var end := Find(value[1..], c => c == quote);
            if end == |value| - 1 then None else Some(value[end + 2..])
          else
            var end := Find(value, Space);
            if end == 0 || Find(value[..end], ValueStop) < end then None else Some(value[end..]);
        if next.Some? && (next.value == "" || Space(next.value[0]) || next.value == "/") then next else None
  }

  /** `attributes`: only proper attributes, perhaps a closing slash. */
  predicate Attributes(rest: string)
    decreases |rest|
  {
    var trimmed := TrimStart(rest);
    if trimmed == "" || trimmed == "/" then true
    else
      var next := Attribute(trimmed);
      next.Some? && Attributes(next.value)
  }

  method CheckAttributes(rest: string) returns (ok: bool)
    ensures ok == Attributes(rest)
  {
    hide Attribute;
    var r := rest;
    while TrimStart(r) != ""
      invariant Attributes(r) == Attributes(rest)
      decreases |r|
    {
      r := TrimStart(r);
      assert TrimStart(r) == r by { TrimmedIsTrimmed(r); }
      if r == "/" {
        return true;
      }
      var next := Attribute(r);
      if next.None? {
        return false;
      }
      r := next.value;
    }
    ok := true;
  }

  lemma TrimmedIsTrimmed(r: string)
    requires |r| > 0 ==> !Space(r[0])
    ensures TrimStart(r) == r
  {
  }

  datatype Tag = Tag(name: string, closing: bool, empty: bool)

  /** `tag`: a token that is a proper opening or closing tag. */
  function TagOf(token: string): Option<Tag> {
    if |token| < 2 || token[0] != '<' || token[|token| - 1] != '>' then None
    else
      var inner := token[1..|token| - 1];
      var closing := "/" <= inner;
      var body := if closing then inner[1..] else inner;
      if |body| == 0 || !Letter(body[0]) then None
      else
        var end := Find(body, c => !Letter(c) && !Digit(c) && c != '-');
        var rest := body[end..];
        if rest != "" && !Space(rest[0]) && rest != "/" then None
        else if closing && TrimEnd(TrimStart(rest)) != "" then None
        else if !closing && !Attributes(rest) then None
        else
          var trimmed := TrimEnd(rest);
          Some(Tag(body[..end], closing, |trimmed| > 0 && trimmed[|trimmed| - 1] == '/'))
  }

  // ---------- entities ----------

  function HexValue(c: char): nat
    requires HexDigit(c)
  {
    if Digit(c) then c as int - '0' as int
    else if 'a' <= c <= 'f' then c as int - 'a' as int + 10
    else c as int - 'A' as int + 10
  }

  predicate AllHex(s: string) { forall i :: 0 <= i < |s| ==> HexDigit(s[i]) }

  predicate AllDigits(s: string) { forall i :: 0 <= i < |s| ==> Digit(s[i]) }

  function Number(s: string, base: nat): nat
    requires AllHex(s)
  {
    if |s| == 0 then 0 else Number(s[..|s| - 1], base) * base + HexValue(s[|s| - 1])
  }

  /** A code point a reference may stand for. */
  predicate Scalar(v: nat) { 0 < v <= 0x10FFFF && !(0xD800 <= v < 0xE000) }

  function NumberOf(entity: string): Option<nat> {
    if ("#x" <= entity || "#X" <= entity) && |entity| > 2 && AllHex(entity[2..]) then Some(Number(entity[2..], 16))
    else if "#" <= entity && |entity| > 1 && AllDigits(entity[1..]) then
      assert AllHex(entity[1..]);
      Some(Number(entity[1..], 10))
    else None
  }

  function Decode(entity: string): Option<char> {
    if entity == "amp" then Some('&')
    else if entity == "lt" then Some('<')
    else if entity == "gt" then Some('>')
    else if entity == "quot" then Some('"')
    else if entity == "apos" then Some('\'')
    else if entity == "nbsp" then Some('\U{A0}')
    else
      var v := NumberOf(entity);
      if v.Some? && Scalar(v.value) then Some(v.value as char) else None
  }

  predicate EntityStop(c: char) { c == ';' || c == '&' }

  /** The character that a reference at the start of `s` stands for, and its length. */
  function Reference(s: string): (r: Option<(char, nat)>)
    requires |s| > 0
    ensures r.Some? ==> 1 < r.value.1 <= |s| && s[0] == '&' && '&' !in s[1..r.value.1]
  {
    if s[0] != '&' then None
    else
      var end := Find(s[1..], EntityStop);
      if end == |s| - 1 || s[1 + end] != ';' || Decode(s[1..1 + end]).None? then None
      else Some((Decode(s[1..1 + end]).value, end + 2))
  }

  /** `entities`: references decoded, everything else as it is. */
  function Entities(s: string): string {
    if |s| == 0 then ""
    else
      var r := Reference(s);
      if r.Some? then [r.value.0] + Entities(s[r.value.1..]) else [s[0]] + Entities(s[1..])
  }

  /** `entities` as it works: output is copied up to each reference that decodes. */
  method DecodeEntities(s: string) returns (output: string)
    ensures output == Entities(s)
  {
    hide Reference, Entities;
    output := "";
    NothingLeft(s);
    var copied: nat, start: nat := 0, 0;
    while start < |s|
      invariant copied <= start <= |s|
      invariant Entities(s) == output + s[copied..start] + Entities(s[start..])
    {
      var r := Reference(s[start..]);
      NextPart(s, output, copied, start);
      if r.Some? {
        output := output + s[copied..start] + [r.value.0];
        start := start + r.value.1;
        copied := start;
        assert s[copied..start] == "";
      } else {
        start := start + 1;
      }
    }
    output := output + s[copied..];
  }

  lemma NothingLeft(s: string)
    ensures s[0..] == s && Entities(s[|s|..]) == "" && "" + s[0..0] + Entities(s[0..]) == Entities(s)
  {
    assert s[0..] == s && "" + s[0..0] + Entities(s) == Entities(s);
  }

  /** A reference that decodes is put after what was copied; anything else waits to be copied. */
  lemma NextPart(s: string, output: string, copied: nat, start: nat)
    requires copied <= start < |s|
    ensures var r := Reference(s[start..]);
            var whole := output + s[copied..start] + Entities(s[start..]);
            if r.Some? then
              var next := start + r.value.1;
              whole == output + s[copied..start] + [r.value.0] + s[next..next] + Entities(s[next..])
            else whole == output + s[copied..start + 1] + Entities(s[start + 1..])
  {
    hide Reference;
    var r, before := Reference(s[start..]), s[copied..start];
    if r.Some? {
      var next := start + r.value.1;
      assert s[start..][r.value.1..] == s[next..] && s[next..next] == "";
      var rest := Entities(s[next..]);
      assert output + before + ([r.value.0] + rest) == output + before + [r.value.0] + "" + rest;
    } else {
      assert s[start..][1..] == s[start + 1..] && s[copied..start + 1] == before + [s[start]];
      var rest := Entities(s[start + 1..]);
      assert output + before + ([s[start]] + rest) == output + (before + [s[start]]) + rest;
    }
  }
}
