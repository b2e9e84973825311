/**
 How HTML is written: characters as themselves or as references, tags in any
 case and with attributes, and how what is written is read back.
 */
module HtmlPrint {
  import opened Options
  import opened HtmlText

  // ---------- Characters ----------

  /** A character as it may be written. */
  datatype Spelling =
    | Literal(c: char) | Amp | Lt | Gt | Quot | Apos | Nbsp | Decimal(code: nat) | Hex(code: nat, capital: bool)

  /** Code points other than zero and surrogates. */
  predicate Encodable(code: nat) { 0 < code < 0xD800 || 0xE000 <= code <= 0x10FFFF }

  predicate Proper(s: Spelling) {
    match s
    case Literal(c) => c != '&' && c != '<'
    case Decimal(code) => Encodable(code)
    case Hex(code, _) => Encodable(code)
    case _ => true
  }

  function CharOf(s: Spelling): char
    requires Proper(s)
  {
    match s
    case Literal(c) => c
    case Amp => '&'
    case Lt => '<'
    case Gt => '>'
    case Quot => '"'
    case Apos => '\''
    case Nbsp => '\U{A0}'
    case Decimal(code) => code as char
    case Hex(code, _) => code as char
  }

  function DigitOf(d: nat): char
    requires d < 16
  {
    if d < 10 then (d + 48) as char else (d + 87) as char
  }

  function Digits(n: nat, base: nat): string
    requires base == 10 || base == 16
  {
    if n < base then [DigitOf(n)] else Digits(n / base, base) + [DigitOf(n % base)]
  }

  function NameOf(s: Spelling): string {
    match s
    case Literal(c) => ""
    case Amp => "amp"
    case Lt => "lt"
    case Gt => "gt"
    case Quot => "quot"
    case Apos => "apos"
    case Nbsp => "nbsp"
    case Decimal(code) => "#" + Digits(code, 10)
    case Hex(code, capital) => (if capital then "#X" else "#x") + Digits(code, 16)
  }

  function Spell(s: Spelling): string { if s.Literal? then [s.c] else "&" + NameOf(s) + ";" }

  function SpellAll(text: seq<Spelling>): string { if |text| == 0 then "" else Spell(text[0]) + SpellAll(text[1..]) }

  predicate AllProper(text: seq<Spelling>) { forall i :: 0 <= i < |text| ==> Proper(text[i]) }

  function Characters(text: seq<Spelling>): string
    requires AllProper(text)
  {
    seq(|text|, i requires 0 <= i < |text| => CharOf(text[i]))
  }

  // ---------- References read back ----------

  lemma DigitReadsBack(d: nat, base: nat)
    requires d < base && (base == 10 || base == 16)
    ensures HexDigit(DigitOf(d)) && HexValue(DigitOf(d)) == d && (base == 10 ==> Digit(DigitOf(d)))
  {
  }

  lemma {:induction false} DigitsReadBack(n: nat, base: nat)
    requires base == 10 || base == 16
    ensures |Digits(n, base)| > 0 && AllHex(Digits(n, base)) && Number(Digits(n, base), base) == n
    ensures base == 10 ==> AllDigits(Digits(n, base))
  {
    var s := Digits(n, base);
    if n < base {
      DigitReadsBack(n, base);
      assert s[..0] == "";
    } else {
      DigitsReadBack(n / base, base);
      DigitReadsBack(n % base, base);
      assert s[..|s| - 1] == Digits(n / base, base);
      assert n / base * base + n % base == n;
    }
  }

  lemma NumberReadsBack(s: Spelling)
    requires Proper(s) && (s.Decimal? || s.Hex?)
    ensures Decode(NameOf(s)) == Some(CharOf(s))
  {
    var name := NameOf(s);
    if s.Decimal? {
      DigitsReadBack(s.code, 10);
      assert name[1..] == Digits(s.code, 10) && name[1] == Digits(s.code, 10)[0];
    } else {
      DigitsReadBack(s.code, 16);
      assert name[2..] == Digits(s.code, 16);
    }
    assert name[0] == '#';
    hide Number, Digits, AllHex, AllDigits;
  }

  lemma NameReadsBack(s: Spelling)
    requires Proper(s) && !s.Literal?
    ensures Decode(NameOf(s)) == Some(CharOf(s))
  {
    if s.Decimal? || s.Hex? { NumberReadsBack(s); }
  }

  lemma NameHasNoStop(s: Spelling)
    requires !s.Literal?
    ensures forall i :: 0 <= i < |NameOf(s)| ==> !EntityStop(NameOf(s)[i])
  {
    if s.Decimal? { DigitsReadBack(s.code, 10); }
    if s.Hex? { DigitsReadBack(s.code, 16); }
    hide Number, Digits;
  }

  lemma SpelledReadsBack(s: Spelling, u: string)
    requires Proper(s)
    ensures Entities(Spell(s) + u) == [CharOf(s)] + Entities(u)
  {
    hide Decode, NameOf, Find;
    var whole := Spell(s) + u;
    if s.Literal? {
      assert whole[1..] == u;
    } else {
      var name := NameOf(s);
      NameReadsBack(s);
      NameHasNoStop(s);
      assert whole[1..] == name + (";" + u);
      FindFirst(whole[1..], EntityStop, |name|);
      assert whole[1..1 + |name|] == name && whole[1 + |name|] == ';';
      assert Reference(whole) == Some((CharOf(s), |name| + 2));
      assert whole[|name| + 2..] == u;
    }
  }

  /** Text reads back as its characters, however each is written, whatever comes after it. */
  lemma {:induction false} SpelledTextReadsBack(text: seq<Spelling>, u: string)
    requires AllProper(text)
    ensures Entities(SpellAll(text) + u) == Characters(text) + Entities(u)
  {
    hide Entities, Spell, CharOf, Proper;
    if |text| == 0 {
      assert SpellAll(text) + u == u && Characters(text) + Entities(u) == Entities(u);
    } else {
      SpelledTextReadsBack(text[1..], u);
      SpelledReadsBack(text[0], SpellAll(text[1..]) + u);
      assert SpellAll(text) + u == Spell(text[0]) + (SpellAll(text[1..]) + u);
      assert Characters(text) == [CharOf(text[0])] + Characters(text[1..]);
      assert [CharOf(text[0])] + (Characters(text[1..]) + Entities(u)) == Characters(text) + Entities(u);
    }
  }

  lemma NoTagInside(s: Spelling)
    requires Proper(s)
    ensures |Spell(s)| > 0 && forall i :: 0 <= i < |Spell(s)| ==> Spell(s)[i] != '<'
  {
    if s.Decimal? { DigitsReadBack(s.code, 10); }
    if s.Hex? { DigitsReadBack(s.code, 16); }
    hide Number, Digits;
  }

  lemma {:induction false} NoTagInText(text: seq<Spelling>)
    requires AllProper(text)
    ensures forall i :: 0 <= i < |SpellAll(text)| ==> SpellAll(text)[i] != '<'
    ensures |text| > 0 ==> |SpellAll(text)| > 0
  {
    hide Spell, Proper;
    if |text| > 0 {
      NoTagInText(text[1..]);
      NoTagInside(text[0]);
    }
  }

  // ---------- Names ----------

  /** `name` in lower, upper or mixed case. */
  predicate SpeltAs(spelt: string, name: string) {
    && |spelt| == |name| > 0
    && forall i :: 0 <= i < |name| ==>
         'a' <= name[i] <= 'z' && (spelt[i] == name[i] || spelt[i] as int + 32 == name[i] as int)
  }

  lemma SpeltIsLower(spelt: string, name: string)
    requires SpeltAs(spelt, name)
    ensures Lower(spelt) == name && forall i :: 0 <= i < |spelt| ==> Letter(spelt[i])
  {
    forall i | 0 <= i < |spelt| ensures LowerChar(spelt[i]) == name[i] && Letter(spelt[i]) {
    }
  }

  // ---------- Attributes ----------

  datatype Value = Quoted(quote: char, text: string) | Unquoted(text: string)

  datatype Attr = Attr(name: string, value: Option<Value>)

  predicate ProperValue(v: Value) {
    match v
    case Quoted(quote, text) => (quote == '"' || quote == '\'') && quote !in text
    case Unquoted(text) =>
      && |text| > 0 && (forall i :: 0 <= i < |text| ==> !Space(text[i]) && !ValueStop(text[i]))
      && text[|text| - 1] != '/'
  }

  predicate ProperAttr(a: Attr) {
    && |a.name| > 0 && (forall i :: 0 <= i < |a.name| ==> !NameStop(a.name[i]))
    && (a.value.Some? ==> ProperValue(a.value.value))
  }

  predicate ProperAttrs(attrs: seq<Attr>) { forall i :: 0 <= i < |attrs| ==> ProperAttr(attrs[i]) }

  function PrintValue(v: Value): string { if v.Quoted? then [v.quote] + v.text + [v.quote] else v.text }

  function PrintAttr(a: Attr): string {
    " " + a.name + if a.value.Some? then "=" + PrintValue(a.value.value) else ""
  }

  function PrintAttrs(attrs: seq<Attr>): string {
    if |attrs| == 0 then "" else PrintAttr(attrs[0]) + PrintAttrs(attrs[1..])
  }

  /** What follows the name in a tag. */
  function Tail(attrs: seq<Attr>, slash: bool): string { PrintAttrs(attrs) + if slash then " /" else "" }

  lemma TailStart(attrs: seq<Attr>, slash: bool)
    ensures Tail(attrs, slash) == "" || Tail(attrs, slash)[0] == ' '
  {
  }

  lemma Trimmed(blank: string, s: string)
    requires (forall i :: 0 <= i < |blank| ==> Space(blank[i])) && (|s| > 0 ==> !Space(s[0]))
    ensures TrimStart(blank + s) == s
  {
    FindFirst(blank + s, c => !Space(c), |blank|);
  }

  lemma ValueReads(v: Value, rest: string)
    requires v.Quoted? && ProperValue(v) && (rest == "" || rest[0] == ' ')
    ensures var s := PrintValue(v) + rest;
            var end := Find(s[1..], c => c == v.quote);
            end != |s| - 1 && s[end + 2..] == rest
  {
    var s := PrintValue(v) + rest;
    assert s[1..] == v.text + ([v.quote] + rest);
    FindFirst(s[1..], c => c == v.quote, |v.text|);
  }

  lemma UnquotedReads(v: Value, rest: string)
    requires v.Unquoted? && ProperValue(v) && (rest == "" || rest[0] == ' ')
    ensures var s := v.text + rest;
            var end := Find(s, Space);
            end == |v.text| > 0 && s[end..] == rest && Find(s[..end], ValueStop) == end
  {
    var s := v.text + rest;
    FindFirst(s, Space, |v.text|);
    assert s[..|v.text|] == v.text;
    FindFirst(v.text, ValueStop, |v.text|);
  }

  lemma BareReads(name: string, rest: string)
    requires ProperAttr(Attr(name, None)) && (rest == "" || rest[0] == ' ')
    requires TrimStart(rest) == "" || TrimStart(rest)[0] != '='
    ensures Attribute(name + rest) == Some(TrimStart(rest))
  {
    hide Find, TrimStart;
    var s := name + rest;
    assert s[0] == name[0] && !NameStop(name[0]);
    FindFirst(s, NameStop, |name|);
    assert s[|name|..] == rest;
  }

  /** Where the value of an attribute stands. */
  lemma ValueStands(name: string, v: Value, rest: string)
    requires ProperAttr(Attr(name, Some(v)))
    ensures var value := PrintValue(v) + rest;
            var s := name + ("=" + value);
            && !Space(s[0]) && Find(s, NameStop) == |name| && TrimStart(s[|name|..]) == "=" + value
            && ("=" + value)[1..] == value && TrimStart(value) == value
  {
    hide Find, TrimStart, Space;
    var value := PrintValue(v) + rest;
    var after := "=" + value;
    var s := name + after;
    assert s[0] == name[0] && !NameStop(name[0]);
    FindFirst(s, NameStop, |name|);
    assert s[|name|..] == after && after[1..] == value;
    ValueStarts(v);
    Trimmed("", after);
    Trimmed("", value);
    assert "" + after == after && "" + value == value;
  }

  lemma ValuedReads(name: string, v: Value, rest: string)
    requires ProperAttr(Attr(name, Some(v))) && (rest == "" || rest[0] == ' ')
    ensures Attribute(name + ("=" + (PrintValue(v) + rest))) == Some(rest)
  {
    hide Find, TrimStart, Space, NameStop, ValueStop, ProperAttr;
    ValueStands(name, v, rest);
    ValueStarts(v) by { ProperOnes(name, v); }
    ProperOnes(name, v);
    BlankIsSpace();
    if v.Quoted? { ValueReads(v, rest); } else { UnquotedReads(v, rest); }
  }

  lemma ProperOnes(name: string, v: Value)
    requires ProperAttr(Attr(name, Some(v)))
    ensures |name| > 0 && ProperValue(v)
  {
  }

  lemma ValueStarts(v: Value)
    requires ProperValue(v)
    ensures |PrintValue(v)| > 0 && !Space(PrintValue(v)[0]) && !Space('=')
    ensures v.Quoted? <==> PrintValue(v)[0] == '\'' || PrintValue(v)[0] == '"'
  {
    assert v.Unquoted? ==> !ValueStop(v.text[0]);
  }

  lemma BlankIsSpace()
    ensures Space(' ')
  {
  }

  /** An attribute without the blank before it, and what follows. */
  function FirstOf(a: Attr, rest: string): string {
    if a.value.Some? then a.name + ("=" + (PrintValue(a.value.value) + rest)) else a.name + rest
  }

  lemma TailSplits(attrs: seq<Attr>, slash: bool)
    requires |attrs| > 0 && ProperAttrs(attrs)
    ensures var s := FirstOf(attrs[0], Tail(attrs[1..], slash));
            TrimStart(Tail(attrs, slash)) == s && |s| > 0 && !Space(s[0]) && s != "/"
  {
    hide Space, TrimStart, PrintValue;
    var s := FirstOf(attrs[0], Tail(attrs[1..], slash));
    assert Tail(attrs, slash) == " " + s;
    assert s[0] == attrs[0].name[0] && !NameStop(attrs[0].name[0]);
    assert Space(' ') by { BlankIsSpace(); }
    Trimmed(" ", s);
  }

  lemma {:induction false} AttributesRead(attrs: seq<Attr>, slash: bool)
    requires ProperAttrs(attrs)
    ensures Attributes(Tail(attrs, slash))
    decreases |attrs|
  {
    hide Attribute, Attributes, TrimStart, PrintValue, NameStop, Space;
    var tail := Tail(attrs, slash);
    if |attrs| == 0 {
      NoAttributes();
      assert tail == "" || tail == " /";
    } else {
      var a, rest := attrs[0], Tail(attrs[1..], slash);
      AttributesRead(attrs[1..], slash);
      TailStart(attrs[1..], slash);
      TailStartsName(attrs[1..], slash);
      var s := FirstOf(a, rest);
      TailSplits(attrs, slash);
      if a.value.Some? {
        ValuedReads(a.name, a.value.value, rest);
      } else {
        BareReads(a.name, rest);
        TrimmedReads(rest);
      }
      OneAttribute(tail, s);
    }
  }

  lemma NoAttributes()
    ensures Attributes("") && Attributes(" /")
  {
    Trimmed(" ", "/");
  }

  /** What follows a blank is a name or the closing slash. */
  lemma TailStartsName(attrs: seq<Attr>, slash: bool)
    requires ProperAttrs(attrs)
    ensures var t := TrimStart(Tail(attrs, slash)); t == "" || t[0] != '='
  {
    var tail := Tail(attrs, slash);
    if |attrs| > 0 {
      assert !NameStop(attrs[0].name[0]) && tail[1] == attrs[0].name[0];
      Trimmed(" ", tail[1..]);
      assert tail == " " + tail[1..];
    } else if slash {
      Trimmed(" ", "/");
      assert tail == " " + "/";
    }
  }

  lemma TrimmedReads(rest: string)
    ensures Attributes(TrimStart(rest)) == Attributes(rest)
  {
    Trimmed("", TrimStart(rest));
    assert "" + TrimStart(rest) == TrimStart(rest);
  }

  lemma OneAttribute(tail: string, s: string)
    requires TrimStart(tail) == s && |s| > 0 && !Space(s[0]) && s != "/"
    requires Attribute(s).Some? && Attributes(Attribute(s).value)
    ensures Attributes(tail)
  {
  }

  // ---------- Tags ----------

  function OpenTag(name: string, attrs: seq<Attr>, slash: bool): string { "<" + name + Tail(attrs, slash) + ">" }

  function CloseTag(name: string): string { "</" + name + ">" }

  predicate Bare(c: char) { c != '\'' && c != '"' && c != '<' && c != '>' }

  lemma {:induction false} BareIsSkipped(s: string, rest: string)
    requires forall i :: 0 <= i < |s| ==> Bare(s[i])
    requires TagEnd(rest, None).Some?
    ensures TagEnd(s + rest, None) == Some(|s| + TagEnd(rest, None).value)
  {
    if |s| > 0 {
      assert (s + rest)[1..] == s[1..] + rest;
      BareIsSkipped(s[1..], rest);
    } else {
      assert s + rest == rest;
    }
  }

  lemma {:induction false} QuotedIsSkipped(text: string, quote: char, rest: string)
    requires (quote == '"' || quote == '\'') && quote !in text && TagEnd(rest, None).Some?
    ensures TagEnd(text + ([quote] + rest), Some(quote)) == Some(|text| + 1 + TagEnd(rest, None).value)
  {
    var s := text + ([quote] + rest);
    if |text| > 0 {
      assert s[1..] == text[1..] + ([quote] + rest);
      assert text[0] in text && forall c :: c in text[1..] ==> c in text;
      QuotedIsSkipped(text[1..], quote, rest);
    } else {
      assert s[1..] == rest;
    }
  }

  lemma AttrIsSkipped(a: Attr, rest: string)
    requires ProperAttr(a) && TagEnd(rest, None).Some?
    ensures TagEnd(PrintAttr(a) + rest, None) == Some(|PrintAttr(a)| + TagEnd(rest, None).value)
  {
    hide TagEnd;
    if a.value.Some? && a.value.value.Quoted? {
      var v, before := a.value.value, " " + a.name + "=";
      var inside := v.text + ([v.quote] + rest);
      QuotedIsSkipped(v.text, v.quote, rest);
      QuoteOpens(v.quote, inside);
      BareIsSkipped(before, [v.quote] + inside);
      assert PrintAttr(a) + rest == before + ([v.quote] + inside);
    } else {
      assert a.value.Some? ==> forall i :: 0 <= i < |a.value.value.text| ==> !ValueStop(a.value.value.text[i]);
      BareIsSkipped(PrintAttr(a), rest);
    }
  }

  lemma QuoteOpens(quote: char, inside: string)
    requires (quote == '"' || quote == '\'') && TagEnd(inside, Some(quote)).Some?
    ensures TagEnd([quote] + inside, None) == Some(1 + TagEnd(inside, Some(quote)).value)
  {
    assert ([quote] + inside)[1..] == inside;
  }

  lemma {:induction false} TailIsSkipped(attrs: seq<Attr>, slash: bool, rest: string)
    requires ProperAttrs(attrs) && TagEnd(rest, None).Some?
    ensures TagEnd(Tail(attrs, slash) + rest, None) == Some(|Tail(attrs, slash)| + TagEnd(rest, None).value)
    decreases |attrs|
  {
    hide TagEnd, PrintAttr;
    if |attrs| == 0 {
      BareIsSkipped(Tail(attrs, slash), rest);
    } else {
      TailIsSkipped(attrs[1..], slash, rest);
      AttrIsSkipped(attrs[0], Tail(attrs[1..], slash) + rest);
      assert Tail(attrs, slash) + rest == PrintAttr(attrs[0]) + (Tail(attrs[1..], slash) + rest);
    }
  }

  lemma TagCloses(tail: string)
    ensures TagEnd(">" + tail, None) == Some(1)
  {
  }

  lemma OpenToken(name: string, attrs: seq<Attr>, slash: bool, tail: string)
    requires |name| > 0 && (forall i :: 0 <= i < |name| ==> Letter(name[i])) && ProperAttrs(attrs)
    ensures var token := OpenTag(name, attrs, slash);
            token[0] == '<' && TokenEnd(token + tail) == Some(|token|)
  {
    hide TagEnd, Tail;
    var whole := OpenTag(name, attrs, slash) + tail;
    TagCloses(tail);
    TailIsSkipped(attrs, slash, ">" + tail);
    BareIsSkipped(name, Tail(attrs, slash) + (">" + tail));
    assert whole[1..] == name + (Tail(attrs, slash) + (">" + tail));
    assert whole[1] == name[0];
  }

  lemma CloseToken(name: string, tail: string)
    requires |name| > 0 && forall i :: 0 <= i < |name| ==> Letter(name[i])
    ensures var token := CloseTag(name);
            token[0] == '<' && TokenEnd(token + tail) == Some(|token|)
  {
    hide TagEnd;
    var whole := CloseTag(name) + tail;
    TagCloses(tail);
    BareIsSkipped("/" + name, ">" + tail);
    assert whole[1..] == "/" + name + (">" + tail);
    assert whole[1] == '/';
  }

  lemma {:induction false} NothingToTrim(s: string)
    requires |s| > 0 ==> !Space(s[|s| - 1])
    ensures TrimEnd(s) == s
  {
  }

  lemma {:induction false} TailEnds(attrs: seq<Attr>, slash: bool)
    requires ProperAttrs(attrs)
    ensures var t := Tail(attrs, slash);
            && (|t| > 0 ==> !Space(t[|t| - 1]))
            && ((|t| > 0 && t[|t| - 1] == '/') <==> slash)
    decreases |attrs|
  {
    if |attrs| > 0 {
      TailEnds(attrs[1..], slash);
      var a, rest := attrs[0], Tail(attrs[1..], slash);
      assert Tail(attrs, slash) == PrintAttr(a) + rest;
      if |rest| == 0 {
        assert a.value.None? ==> !NameStop(a.name[|a.name| - 1]);
      }
    }
  }

  lemma NameEnds(name: string, rest: string)
    requires (forall i :: 0 <= i < |name| ==> Letter(name[i])) && (rest == "" || rest[0] == ' ')
    ensures Find(name + rest, c => !Letter(c) && !Digit(c) && c != '-') == |name|
  {
    FindFirst(name + rest, c => !Letter(c) && !Digit(c) && c != '-', |name|);
  }

  lemma OpenIsTag(name: string, attrs: seq<Attr>, slash: bool)
    requires |name| > 0 && (forall i :: 0 <= i < |name| ==> Letter(name[i])) && ProperAttrs(attrs)
    ensures TagOf(OpenTag(name, attrs, slash)) == Some(Tag(name, false, slash))
  {
    hide TrimStart, TrimEnd, Attributes, Tail, Find;
    var token, rest := OpenTag(name, attrs, slash), Tail(attrs, slash);
    AttributesRead(attrs, slash);
    TailStart(attrs, slash);
    TailEnds(attrs, slash);
    NothingToTrim(rest);
    NameEnds(name, rest);
    var inner := token[1..|token| - 1];
    assert inner == name + rest && inner[0] == name[0];
    assert inner[|name|..] == rest && inner[..|name|] == name;
  }

  lemma CloseIsTag(name: string)
    requires |name| > 0 && forall i :: 0 <= i < |name| ==> Letter(name[i])
    ensures TagOf(CloseTag(name)) == Some(Tag(name, true, false))
  {
    hide TrimStart, TrimEnd, Attributes, Find;
    var token := CloseTag(name);
    NameEnds(name, "");
    Trimmed("", "");
    NothingToTrim("");
    var inner := token[1..|token| - 1];
    assert inner == "/" + name && inner[1..] == name;
    assert name + "" == name && name[|name|..] == "" && name[..|name|] == name && "" + "" == "";
  }

  // ---------- Comments ----------

  /** An end of a comment stands at `i`. */
  predicate EndsAt(s: string, i: nat) { i + 3 <= |s| && s[i] == '-' && s[i + 1] == '-' && s[i + 2] == '>' }

  /** The comment ends where it says, and not before. */
  predicate ProperComment(text: string) {
    var whole := "<!--" + text + "-->";
    forall i :: 0 <= i < |whole| - 3 ==> !EndsAt(whole, i)
  }

  lemma {:induction false} CommentEndsAt(s: string, n: nat)
    requires EndsAt(s, n) && forall i :: 0 <= i < n ==> !EndsAt(s, i)
    ensures CommentEnd(s) == Some(n + 3)
  {
    assert EndsAt(s, 0) <==> |s| >= 3 && s[..3] == "-->";
    if n > 0 {
      forall i | 0 <= i < n - 1 ensures !EndsAt(s[1..], i) { assert !EndsAt(s, i + 1); }
      CommentEndsAt(s[1..], n - 1);
    }
  }

  lemma CommentIsToken(text: string, tail: string)
    requires ProperComment(text)
    ensures var token := "<!--" + text + "-->";
            && token[0] == '<' && TokenEnd(token + tail) == Some(|token|)
            && TagOf(token).None? && "<!" <= token
  {
    hide TagEnd;
    var token := "<!--" + text + "-->";
    forall i | 0 <= i < |token| - 3 ensures !EndsAt(token + tail, i) { assert !EndsAt(token, i); }
    CommentEndsAt(token + tail, |token| - 3);
    assert token[1..|token| - 1][0] == '!';
  }

  // ---------- Tokens that are no tags ----------

  /** Between angle brackets, neither a name nor the beginning of a comment. */
  predicate NoTag(inner: string) {
    && |inner| > 0 && !Letter(inner[0]) && inner[0] != '/' && !("!--" <= inner)
    && forall i :: 0 <= i < |inner| ==> Bare(inner[i])
  }

  function Bracketed(inner: string): string { "<" + inner + ">" }

  lemma NoTagIsToken(inner: string, tail: string)
    requires NoTag(inner)
    ensures var token := Bracketed(inner);
            && token[0] == '<' && TokenEnd(token + tail) == Some(|token|) && TagOf(token).None?
            && ("<!" <= token || "<?" <= token <==> inner[0] == '!' || inner[0] == '?')
  {
    hide TagEnd;
    var token := Bracketed(inner);
    var whole := token + tail;
    TagCloses(tail);
    BareIsSkipped(inner, ">" + tail);
    assert whole[1..] == inner + (">" + tail);
    assert token[1..|token| - 1] == inner;
    NoComment(inner, tail);
  }

  lemma NoComment(inner: string, tail: string)
    requires NoTag(inner)
    ensures !("<!--" <= Bracketed(inner) + tail)
  {
    var whole := Bracketed(inner) + tail;
    if |inner| >= 3 {
      assert whole[1..4] == inner[..3];
    } else {
      assert whole[1 + |inner|] == '>';
    }
  }
}
