/** Byte-wise string order, and lists of strings sorted by it. */
module StringOrder {
  predicate Before(a: string, b: string) {
    |b| > 0 && (|a| == 0 || a[0] < b[0] || (a[0] == b[0] && Before(a[1..], b[1..])))
  }

  lemma {:induction false} BeforeIrreflexive(a: string)
    ensures !Before(a, a)
  {
    if |a| > 0 { BeforeIrreflexive(a[1..]); }
  }

  lemma {:induction false} BeforeTransitive(a: string, b: string, c: string)
    requires Before(a, b) && Before(b, c)
    ensures Before(a, c)
  {
    if |a| > 0 && a[0] == b[0] == c[0] { BeforeTransitive(a[1..], b[1..], c[1..]); }
  }

  lemma {:induction false} BeforeTotal(a: string, b: string)
    ensures a == b || Before(a, b) || Before(b, a)
  {
    if |a| > 0 && |b| > 0 && a[0] == b[0] {
      BeforeTotal(a[1..], b[1..]);
      assert a == [a[0]] + a[1..] && b == [b[0]] + b[1..];
    }
  }

  predicate Ordered(s: seq<string>) { forall i, j :: 0 <= i < j < |s| ==> !Before(s[j], s[i]) }

  function Place(e: string, s: seq<string>): (r: seq<string>)
    ensures multiset(r) == multiset(s) + multiset{e}
  {
    if |s| > 0 && Before(s[0], e) then
      assert s == [s[0]] + s[1..];
      [s[0]] + Place(e, s[1..])
    else [e] + s
  }

  /** `sort` */
  function Arranged(s: seq<string>): (r: seq<string>)
    ensures multiset(r) == multiset(s)
  {
    if |s| == 0 then [] else
      assert s == [s[0]] + s[1..];
      Place(s[0], Arranged(s[1..]))
  }

  lemma NotBefore(a: string, b: string, c: string)
    requires !Before(b, a) && !Before(c, b)
    ensures !Before(c, a)
  {
    BeforeTotal(a, b);
    BeforeTotal(b, c);
    BeforeIrreflexive(a);
    if Before(c, a) {
      if Before(a, b) { BeforeTransitive(c, a, b); }
    }
  }

  lemma {:induction false} PlaceKeepsOrder(e: string, s: seq<string>)
    requires Ordered(s)
    ensures Ordered(Place(e, s))
  {
    if |s| > 0 && Before(s[0], e) {
      var t := Place(e, s[1..]);
      PlaceKeepsOrder(e, s[1..]);
      forall j | 0 <= j < |t| ensures !Before(t[j], s[0]) {
        assert t[j] in multiset(t);
        if t[j] == e {
          if Before(e, s[0]) {
            BeforeTransitive(e, s[0], e);
            BeforeIrreflexive(e);
          }
        } else {
          assert t[j] in multiset(s[1..]);
        }
      }
    } else {
      forall j | 0 <= j < |s| ensures !Before(s[j], e) {
        if j > 0 { NotBefore(e, s[0], s[j]); }
      }
    }
  }

  lemma {:induction false} ArrangedIsOrdered(s: seq<string>)
    ensures Ordered(Arranged(s))
  {
    if |s| > 0 {
      ArrangedIsOrdered(s[1..]);
      PlaceKeepsOrder(s[0], Arranged(s[1..]));
    }
  }

  lemma FirstIsLeast(s: seq<string>, e: string)
    requires Ordered(s) && e in multiset(s)
    ensures |s| > 0 && !Before(e, s[0])
  {
    hide Before;
    BeforeIrreflexive(e);
    assert e in s;
  }

  lemma TailMembers(s: seq<string>)
    requires |s| > 0
    ensures multiset(s[1..]) == multiset(s) - multiset{s[0]}
  {
    assert s == [s[0]] + s[1..];
  }

  /** Ordered lists with the same members, counted, are the same list. */
  lemma {:induction false} OrderedUnique(s: seq<string>, t: seq<string>)
    requires Ordered(s) && Ordered(t) && multiset(s) == multiset(t)
    ensures s == t
  {
    hide Before;
    if |s| > 0 {
      FirstIsLeast(t, s[0]);
      FirstIsLeast(s, t[0]);
      BeforeTotal(s[0], t[0]);
      TailMembers(s);
      TailMembers(t);
      OrderedUnique(s[1..], t[1..]);
      assert s == [s[0]] + s[1..] && t == [t[0]] + t[1..];
    } else {
      assert multiset(t) == multiset{};
    }
  }

  /** Sorting forgets the order and nothing else. */
  lemma SameArrangement(s: seq<string>, t: seq<string>)
    ensures Arranged(s) == Arranged(t) <==> multiset(s) == multiset(t)
  {
    ArrangedIsOrdered(s);
    ArrangedIsOrdered(t);
    if multiset(s) == multiset(t) { OrderedUnique(Arranged(s), Arranged(t)); }
  }
}
