/** Entries sorted by path: the order that makes a snapshot independent of directory enumeration. */
module GenerationOrder {
  import opened GenerationIdentity
  import opened StringOrder

  predicate Sorted(s: seq<SourceEntry>) {
    forall i, j :: 0 <= i < j < |s| ==> !Before(s[j].path, s[i].path)
  }

  predicate StrictlySorted(s: seq<SourceEntry>) {
    forall i, j :: 0 <= i < j < |s| ==> Before(s[i].path, s[j].path)
  }

  function Insert(e: SourceEntry, s: seq<SourceEntry>): (r: seq<SourceEntry>)
    ensures multiset(r) == multiset(s) + multiset{e}
  {
    if |s| == 0 then [e]
    else if Before(s[0].path, e.path) then
      assert s == [s[0]] + s[1..];
      [s[0]] + Insert(e, s[1..])
    else [e] + s
  }

  /** The final sort of `collect_source`. */
  function Sort(s: seq<SourceEntry>): (r: seq<SourceEntry>)
    ensures multiset(r) == multiset(s)
  {
    if |s| == 0 then [] else
      assert s == [s[0]] + s[1..];
      Insert(s[0], Sort(s[1..]))
  }

  lemma {:induction false} InsertSorted(e: SourceEntry, s: seq<SourceEntry>)
    requires Sorted(s)
    ensures Sorted(Insert(e, s))
  {
    var r := Insert(e, s);
    if |s| > 0 {
      if Before(s[0].path, e.path) {
        InsertSorted(e, s[1..]);
        var t := Insert(e, s[1..]);
        forall j | 0 <= j < |t| ensures !Before(t[j].path, s[0].path) {
          assert t[j] in multiset(t);
          if t[j] == e {
            if Before(e.path, s[0].path) {
              BeforeTransitive(e.path, s[0].path, e.path);
              BeforeIrreflexive(e.path);
            }
          } else {
            assert t[j] in multiset(s[1..]);
            var k :| 0 <= k < |s[1..]| && s[1..][k] == t[j];
            assert s[k + 1] == t[j];
          }
        }
      } else {
        forall j | 0 <= j < |s| ensures !Before(s[j].path, e.path) {
          if Before(s[j].path, e.path) {
            BeforeTotal(s[0].path, e.path);
            if s[0].path != e.path {
              BeforeTransitive(s[j].path, e.path, s[0].path);
            }
          }
        }
      }
    }
  }

  lemma {:induction false} SortSorted(s: seq<SourceEntry>)
    ensures Sorted(Sort(s))
  {
    if |s| > 0 {
      SortSorted(s[1..]);
      InsertSorted(s[0], Sort(s[1..]));
    }
  }

  predicate DistinctPaths(s: seq<SourceEntry>) {
    forall i, j :: 0 <= i < j < |s| ==> s[i].path != s[j].path
  }

  lemma StrictWhenDistinct(s: seq<SourceEntry>)
    requires Sorted(s) && DistinctPaths(s)
    ensures StrictlySorted(s)
  {
    forall i, j | 0 <= i < j < |s| ensures Before(s[i].path, s[j].path) {
      BeforeTotal(s[i].path, s[j].path);
    }
  }

  lemma {:induction false} DistinctIsMultiset(s: seq<SourceEntry>, t: seq<SourceEntry>)
    requires DistinctPaths(s) && multiset(s) == multiset(t)
    ensures DistinctPaths(t)
  {
    forall i, j | 0 <= i < j < |t| ensures t[i].path != t[j].path {
      if t[i].path == t[j].path {
        assert t[i] in multiset(s) && t[j] in multiset(s);
        var a :| 0 <= a < |s| && s[a] == t[i];
        var b :| 0 <= b < |s| && s[b] == t[j];
        assert a == b;
        TwiceCounts(t, i, j);
        OnceCounts(s, a);
      }
    }
  }

  lemma TwiceCounts(t: seq<SourceEntry>, i: nat, j: nat)
    requires i < j < |t| && t[i] == t[j]
    ensures multiset(t)[t[i]] >= 2
  {
    assert t == t[..i] + [t[i]] + t[i + 1..j] + [t[j]] + t[j + 1..];
  }

  lemma OnceCounts(s: seq<SourceEntry>, a: nat)
    requires a < |s| && DistinctPaths(s)
    ensures multiset(s)[s[a]] == 1
  {
    assert s == s[..a] + [s[a]] + s[a + 1..];
    assert s[a] !in s[..a] && s[a] !in s[a + 1..];
  }

  /** Strictly sorted lists with the same members are the same list. */
  lemma {:induction false} StrictlySortedUnique(s: seq<SourceEntry>, t: seq<SourceEntry>)
    requires StrictlySorted(s) && StrictlySorted(t)
    requires forall e :: e in s <==> e in t
    ensures s == t
  {
    MembersNeedRoom(s, t);
    MembersNeedRoom(t, s);
    if |s| > 0 {
      assert s[0] in t;
      assert t[0] in s;
      HeadIsLeast(s, t[0]);
      HeadIsLeast(t, s[0]);
      if s[0] != t[0] {
        BeforeTransitive(s[0].path, t[0].path, s[0].path);
        BeforeIrreflexive(s[0].path);
      }
      forall e ensures e in s[1..] <==> e in t[1..] {
        TailMembers(s, e);
        TailMembers(t, e);
      }
      StrictlySortedUnique(s[1..], t[1..]);
      assert s == [s[0]] + s[1..] && t == [t[0]] + t[1..];
    }
  }

  lemma MembersNeedRoom(s: seq<SourceEntry>, t: seq<SourceEntry>)
    requires forall e :: e in t ==> e in s
    ensures |t| > 0 ==> |s| > 0
  {
    assert |t| > 0 ==> t[0] in s;
  }

  lemma HeadIsLeast(s: seq<SourceEntry>, e: SourceEntry)
    requires StrictlySorted(s) && e in s
    ensures |s| > 0 && (e == s[0] || Before(s[0].path, e.path))
  {
  }

  lemma TailMembers(s: seq<SourceEntry>, e: SourceEntry)
    requires StrictlySorted(s) && |s| > 0
    ensures e in s[1..] <==> e in s && e != s[0]
  {
    BeforeIrreflexive(s[0].path);
  }

  /** However a directory is enumerated, the sorted snapshot is the same. */
  lemma SortIgnoresOrder(s: seq<SourceEntry>, t: seq<SourceEntry>)
    requires DistinctPaths(s) && multiset(s) == multiset(t)
    ensures Sort(s) == Sort(t) && StrictlySorted(Sort(s))
  {
    DistinctIsMultiset(s, Sort(s));
    DistinctIsMultiset(s, Sort(t));
    SortSorted(s);
    SortSorted(t);
    StrictWhenDistinct(Sort(s));
    StrictWhenDistinct(Sort(t));
    forall e ensures e in Sort(s) <==> e in Sort(t) {
      assert e in Sort(s) <==> e in multiset(Sort(s));
      assert e in Sort(t) <==> e in multiset(Sort(t));
    }
    StrictlySortedUnique(Sort(s), Sort(t));
  }
}
