/**
 UTF-8 as section 4 of RFC 3629 defines it, and the scan that splits any bytes
 into their longest valid prefix and what is left of them.
 */
module Utf8 {
  type Byte = b: int | 0 <= b < 256

  // ---------- The grammar ----------

  predicate Tail(b: Byte) { 0x80 <= b <= 0xBF }

  /** UTF8-char: UTF8-1, UTF8-2, UTF8-3 or UTF8-4. */
  predicate IsChar(s: seq<Byte>) {
    || (|s| == 1 && s[0] <= 0x7F)
    || (|s| == 2 && 0xC2 <= s[0] <= 0xDF && Tail(s[1]))
    || (|s| == 3 && Second3(s[0], s[1]) && Tail(s[2]))
    || (|s| == 4 && Second4(s[0], s[1]) && Tail(s[2]) && Tail(s[3]))
  }

  predicate Second3(a: Byte, b: Byte) {
    || (a == 0xE0 && 0xA0 <= b <= 0xBF)
    || (0xE1 <= a <= 0xEC && Tail(b))
    || (a == 0xED && 0x80 <= b <= 0x9F)
    || (0xEE <= a <= 0xEF && Tail(b))
  }

  predicate Second4(a: Byte, b: Byte) {
    || (a == 0xF0 && 0x90 <= b <= 0xBF)
    || (0xF1 <= a <= 0xF3 && Tail(b))
    || (a == 0xF4 && 0x80 <= b <= 0x8F)
  }

  function Flatten(chars: seq<seq<Byte>>): seq<Byte> {
    if |chars| == 0 then [] else chars[0] + Flatten(chars[1..])
  }

  ghost predicate Spells(chars: seq<seq<Byte>>, s: seq<Byte>) {
    Flatten(chars) == s && forall k :: 0 <= k < |chars| ==> IsChar(chars[k])
  }

  /** UTF8-octets: any number of characters, one after another. */
  ghost predicate Utf8Octets(s: seq<Byte>) { exists chars :: Spells(chars, s) }

  // ---------- The scan ----------

  /** What bytes begin with: a character, the beginning of one, or neither. */
  datatype Lead = Char(n: nat) | Partial | Bad

  function LeadOf(s: seq<Byte>): (lead: Lead)
    requires |s| > 0
    ensures lead.Char? ==> 0 < lead.n <= |s|
  {
    var a := s[0];
    if a <= 0x7F then Char(1)
    else if 0xC2 <= a <= 0xDF then
      if |s| == 1 then Partial else if Tail(s[1]) then Char(2) else Bad
    else if 0xE0 <= a <= 0xEF then
      if |s| == 1 then Partial
      else if !Second3(a, s[1]) then Bad
      else if |s| == 2 then Partial else if Tail(s[2]) then Char(3) else Bad
    else if 0xF0 <= a <= 0xF4 then
      if |s| == 1 then Partial
      else if !Second4(a, s[1]) then Bad
      else if |s| == 2 then Partial
      else if !Tail(s[2]) then Bad
      else if |s| == 3 then Partial else if Tail(s[3]) then Char(4) else Bad
    else Bad
  }

  /** `valid_up_to`: the length of the characters that were read before the scan stopped. */
  function ValidLength(s: seq<Byte>): (n: nat)
    ensures n <= |s|
  {
    if |s| == 0 || !LeadOf(s).Char? then 0 else LeadOf(s).n + ValidLength(s[LeadOf(s).n..])
  }

  /** What the scan stopped at: nothing, a character that is not complete yet, or an error. */
  function Stop(s: seq<Byte>): Lead { var rest := s[ValidLength(s)..]; if |rest| == 0 then Char(0) else LeadOf(rest) }

  /** The lead is read off the grammar: exactly the three possibilities. */
  lemma LeadIsGrammatical(s: seq<Byte>)
    requires |s| > 0
    ensures LeadOf(s).Char? <==> exists n :: 0 < n <= |s| && IsChar(s[..n])
    ensures LeadOf(s).Char? ==> IsChar(s[..LeadOf(s).n])
    ensures forall n :: 0 < n <= |s| && IsChar(s[..n]) ==> LeadOf(s) == Char(n)
  {
    if LeadOf(s).Char? {
      var n := LeadOf(s).n;
      assert IsChar(s[..n]);
    }
    forall n | 0 < n <= |s| && IsChar(s[..n]) ensures LeadOf(s) == Char(n) {
      var c := s[..n];
      assert c[0] == s[0] && (n > 1 ==> c[1] == s[1]) && (n > 2 ==> c[2] == s[2]) && (n > 3 ==> c[3] == s[3]);
    }
  }

  /** Enough further bytes to complete a partial character. */
  function Completion(s: seq<Byte>): seq<Byte>
    requires |s| > 0
  {
    var second := if s[0] == 0xE0 then 0xA0 else if s[0] == 0xF0 then 0x90 else 0x80;
    if s[0] <= 0xDF then [0x80]
    else if s[0] <= 0xEF then (if |s| == 1 then [second, 0x80] else [0x80])
    else if |s| == 1 then [second, 0x80, 0x80] else if |s| == 2 then [0x80, 0x80] else [0x80]
  }

  lemma PartialCompletes(s: seq<Byte>)
    requires |s| > 0 && LeadOf(s).Partial?
    ensures |s| <= 3 && IsChar(s + Completion(s))
  {
  }

  /** An error stays one, whatever bytes follow. */
  lemma BadStaysBad(s: seq<Byte>, more: seq<Byte>)
    requires |s| > 0 && LeadOf(s).Bad?
    ensures LeadOf(s + more).Bad?
  {
    var t := s + more;
    assert t[0] == s[0] && (|s| > 1 ==> t[1] == s[1]) && (|s| > 2 ==> t[2] == s[2]) && (|s| > 3 ==> t[3] == s[3]);
  }

  lemma CharStaysChar(s: seq<Byte>, more: seq<Byte>)
    requires |s| > 0 && LeadOf(s).Char?
    ensures LeadOf(s + more) == LeadOf(s)
  {
    var t := s + more;
    assert t[0] == s[0] && (|s| > 1 ==> t[1] == s[1]) && (|s| > 2 ==> t[2] == s[2]) && (|s| > 3 ==> t[3] == s[3]);
  }

  // ---------- The scan and the grammar ----------

  lemma {:induction false} ScannedIsValid(s: seq<Byte>)
    ensures Utf8Octets(s[..ValidLength(s)])
  {
    hide LeadOf, IsChar;
    if |s| == 0 || !LeadOf(s).Char? {
      assert Spells([], s[..0]);
    } else {
      var n := LeadOf(s).n;
      var rest := s[n..];
      ScannedIsValid(rest);
      LeadIsGrammatical(s);
      var chars :| Spells(chars, rest[..ValidLength(rest)]);
      assert ([s[..n]] + chars)[1..] == chars;
      assert s[..ValidLength(s)] == s[..n] + rest[..ValidLength(rest)];
      assert Spells([s[..n]] + chars, s[..ValidLength(s)]);
    }
  }

  lemma {:induction false} SpelledIsScanned(chars: seq<seq<Byte>>, s: seq<Byte>)
    requires Spells(chars, s)
    ensures ValidLength(s) == |s|
    decreases |chars|
  {
    hide LeadOf, IsChar;
    if |chars| > 0 {
      var first, rest := chars[0], Flatten(chars[1..]);
      assert IsChar(first);
      NotEmpty(first);
      assert s[..|first|] == first && s[|first|..] == rest;
      LeadIsGrammatical(s);
      forall k | 0 <= k < |chars[1..]| ensures IsChar(chars[1..][k]) { assert chars[1..][k] == chars[k + 1]; }
      SpelledIsScanned(chars[1..], rest);
    }
  }

  lemma NotEmpty(c: seq<Byte>)
    requires IsChar(c)
    ensures |c| > 0
  {
  }

  /** Bytes are UTF-8 exactly when the scan reaches their end. */
  lemma ValidExactlyWhenScanned(s: seq<Byte>)
    ensures Utf8Octets(s) <==> ValidLength(s) == |s|
  {
    if Utf8Octets(s) {
      var chars :| Spells(chars, s);
      SpelledIsScanned(chars, s);
    }
    if ValidLength(s) == |s| {
      ScannedIsValid(s);
      assert s[..|s|] == s;
    }
  }

  /** Scanning can be taken up again after any valid prefix. */
  lemma {:induction false} ScanResumes(a: seq<Byte>, b: seq<Byte>)
    requires ValidLength(a) == |a|
    ensures ValidLength(a + b) == |a| + ValidLength(b) && Stop(a + b) == Stop(b)
    decreases |a|
  {
    hide LeadOf;
    if |a| == 0 {
      assert a + b == b;
    } else {
      var n := LeadOf(a).n;
      CharStaysChar(a, b);
      assert (a + b)[n..] == a[n..] + b;
      ScanResumes(a[n..], b);
      assert (a + b)[|a| + ValidLength(b)..] == b[ValidLength(b)..];
    }
  }

  /** What is left after the scan begins no character. */
  lemma {:induction false} ScanStops(s: seq<Byte>)
    ensures ValidLength(s) < |s| ==> !Stop(s).Char?
    ensures ValidLength(s) == |s| ==> Stop(s) == Char(0)
    ensures ValidLength(s[ValidLength(s)..]) == 0
    decreases |s|
  {
    hide LeadOf;
    if |s| > 0 && LeadOf(s).Char? {
      var rest := s[LeadOf(s).n..];
      ScanStops(rest);
      assert s[ValidLength(s)..] == rest[ValidLength(rest)..];
    } else {
      assert s[0..] == s;
    }
  }

  lemma ValidPrefixIsScanned(s: seq<Byte>, m: nat)
    requires m <= |s| && Utf8Octets(s[..m])
    ensures m <= ValidLength(s)
  {
    hide *;
    ValidExactlyWhenScanned(s[..m]);
    ScanResumes(s[..m], s[m..]);
    assert s[..m] + s[m..] == s;
  }

  /** The scanned prefix is the longest valid one. */
  lemma LongestValidPrefix(s: seq<Byte>)
    ensures Utf8Octets(s[..ValidLength(s)])
    ensures forall m :: ValidLength(s) < m <= |s| ==> !Utf8Octets(s[..m])
  {
    ScannedIsValid(s);
    hide Utf8Octets, ValidLength;
    forall m | 0 <= m <= |s| && Utf8Octets(s[..m]) ensures m <= ValidLength(s) {
      ValidPrefixIsScanned(s, m);
    }
  }

  /** Past an error, more bytes change nothing. */
  lemma ErrorIsFinal(s: seq<Byte>, more: seq<Byte>)
    requires Stop(s).Bad?
    ensures ValidLength(s + more) == ValidLength(s) && Stop(s + more).Bad?
  {
    hide *;
    StopsAtLead(s);
    var n := ValidLength(s);
    var rest := s[n..];
    BadRestStays(rest, more);
    ValidExactlyWhenScanned(s[..n]);
    ScannedIsValid(s);
    ScanResumes(s[..n], rest + more);
    assert s[..n] + (rest + more) == s + more;
  }

  lemma StopsAtLead(s: seq<Byte>)
    requires Stop(s).Bad?
    ensures ValidLength(s) < |s| && LeadOf(s[ValidLength(s)..]).Bad?
  {
    hide LeadOf, ValidLength;
  }

  lemma BadRestStays(rest: seq<Byte>, more: seq<Byte>)
    requires |rest| > 0 && LeadOf(rest).Bad?
    ensures ValidLength(rest + more) == 0 && Stop(rest + more).Bad?
  {
    BadStaysBad(rest, more);
    hide LeadOf;
    assert (rest + more)[0..] == rest + more;
  }

  // ---------- What can still become text ----------

  ghost predicate Completable(s: seq<Byte>) { exists more :: Utf8Octets(s + more) }

  /** The scan has met an error exactly when no bytes could make a text of what was read. */
  lemma ErrorsAreHopeless(s: seq<Byte>)
    ensures Completable(s) <==> !Stop(s).Bad?
  {
    hide LeadOf, Utf8Octets;
    if Stop(s).Bad? {
      ScanStops(s);
      forall more ensures !Utf8Octets(s + more) {
        ErrorIsFinal(s, more);
        ValidExactlyWhenScanned(s + more);
      }
    } else {
      var more := Rest(s);
      RestCompletes(s);
      assert Utf8Octets(s + more);
    }
  }

  /** The rest of the character that is under way. */
  function Rest(s: seq<Byte>): seq<Byte> {
    if ValidLength(s) == |s| then [] else Completion(s[ValidLength(s)..])
  }

  lemma RestCompletes(s: seq<Byte>)
    requires !Stop(s).Bad?
    ensures Utf8Octets(s + Rest(s))
  {
    hide LeadOf, IsChar, Utf8Octets, Completion, ValidLength;
    ScanStops(s);
    ScannedIsValid(s);
    if ValidLength(s) == |s| {
      assert s[..|s|] == s && s + Rest(s) == s;
    } else {
      LastCompletes(s, ValidLength(s));
    }
  }

  lemma LastCompletes(s: seq<Byte>, v: nat)
    requires v < |s| && Utf8Octets(s[..v]) && LeadOf(s[v..]).Partial?
    ensures Utf8Octets(s + Completion(s[v..]))
  {
    hide LeadOf, IsChar, Utf8Octets, Completion, ValidLength;
    var last := s[v..] + Completion(s[v..]);
    PartialCompletes(s[v..]);
    CharIsScanned(last);
    ValidExactlyWhenScanned(s[..v]);
    ScanResumes(s[..v], last);
    assert s[..v] + last == s + Completion(s[v..]);
    ValidExactlyWhenScanned(s + Completion(s[v..]));
  }

  lemma CharIsScanned(c: seq<Byte>)
    requires IsChar(c)
    ensures ValidLength(c) == |c|
  {
    hide LeadOf, IsChar, ValidLength;
    assert Flatten([c]) == c + Flatten([]) && c + [] == c;
    SpelledIsScanned([c], c);
  }
}
