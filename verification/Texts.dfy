/** Lengths, control characters and path components as the code counts and tests them. */
module Texts {
  /** The bytes of a character in UTF-8. */
  function CharSize(c: char): nat {
    if c as int < 0x80 then 1 else if c as int < 0x800 then 2 else if c as int < 0x10000 then 3 else 4
  }

  function Size(s: string): nat { if |s| == 0 then 0 else Size(s[..|s| - 1]) + CharSize(s[|s| - 1]) }

  lemma {:induction false} SizeAdds(a: string, b: string)
    ensures Size(a + b) == Size(a) + Size(b)
    decreases |b|
  {
    if |b| == 0 {
      assert a + b == a;
    } else {
      assert (a + b)[..|a + b| - 1] == a + b[..|b| - 1];
      SizeAdds(a, b[..|b| - 1]);
    }
  }

  lemma {:induction false} SizeIsBounded(s: string)
    ensures |s| <= Size(s) <= 4 * |s|
  {
    if |s| > 0 { SizeIsBounded(s[..|s| - 1]); }
  }

  /** `char::is_control` */
  predicate Control(c: char) { c < 32 as char || 127 as char <= c < 160 as char }

  predicate NoControl(s: string) { forall i :: 0 <= i < |s| ==> !Control(s[i]) }

  /** `segment`: one plain path component. */
  predicate Segment(name: string) {
    && name != "" && name != "." && name != ".." && Size(name) <= 255 && NoControl(name)
    && '/' !in name && '\\' !in name
  }

  /** What stands between the slashes. */
  function Components(path: string): seq<string> {
    if |path| == 0 then [""]
    else
      var rest := Components(path[1..]);
      if path[0] == '/' then [""] + rest else [[path[0]] + rest[0]] + rest[1..]
  }

  lemma {:induction false} OneComponent(b: string)
    requires '/' !in b
    ensures Components(b) == [b]
  {
    if |b| > 0 {
      OneComponent(b[1..]);
      assert [b[0]] + b[1..] == b;
    }
  }

  lemma {:induction false} TwoComponents(a: string, b: string)
    requires '/' !in a && '/' !in b
    ensures Components(a + "/" + b) == [a, b]
    decreases |a|
  {
    var s := a + "/" + b;
    if |a| > 0 {
      TwoComponents(a[1..], b);
      assert s[1..] == a[1..] + "/" + b;
      assert [a[0]] + a[1..] == a;
    } else {
      OneComponent(b);
      assert s[1..] == b;
    }
  }

  const MAX_PATH: nat := 32 * 1024

  /** A bounded absolute path, each of its components plain or a dot that stands for nothing. */
  predicate Absolute(path: string) {
    && "/" <= path && Size(path) <= MAX_PATH
    && forall c :: c in Components(path[1..]) ==> c == "." || Segment(c)
  }
}
