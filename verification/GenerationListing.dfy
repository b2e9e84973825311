/** The snapshot of a directory does not depend on the order in which it is enumerated. */
module GenerationListing {
  import opened Options
  import opened GenerationIdentity
  import opened GenerationOrder
  import opened GenerationCollect

  predicate PlainName(name: string) { |name| > 0 && '/' !in name }

  /** What any real directory satisfies: proper names, none of them twice. */
  predicate WellNamedEntry(child: (string, Observed))
    decreases child, 0
  {
    PlainName(child.0) && (child.1.ObservedDirectory? ==> WellNamed(child.1.children))
  }

  predicate WellNamed(children: seq<(string, Observed)>)
    decreases children, 1
  {
    && (forall i :: 0 <= i < |children| ==> WellNamedEntry(children[i]))
    && (forall i, j :: 0 <= i < j < |children| ==> children[i].0 != children[j].0)
  }

  /** `path` names `root` or something inside it. */
  predicate Under(root: string, path: string) {
    |root| <= |path| && path[..|root|] == root && (|path| == |root| || path[|root|] == '/')
  }

  function Base(prefix: string): string {
    if |prefix| == 0 then "" else prefix + "/"
  }

  lemma SegmentsDiffer(base: string, a: string, b: string, path: string)
    requires PlainName(a) && PlainName(b) && Under(base + a, path) && Under(base + b, path)
    ensures a == b
  {
    var rest := path[|base|..];
    assert path[..|base + a|][|base|..] == a && path[..|base + b|][|base|..] == b;
    assert rest[..|a|] == a && rest[..|b|] == b;
    assert forall k :: 0 <= k < |a| ==> rest[k] == a[k] && rest[k] != '/';
    assert forall k :: 0 <= k < |b| ==> rest[k] == b[k] && rest[k] != '/';
    assert |a| < |rest| ==> rest[|a|] == '/';
    assert |b| < |rest| ==> rest[|b|] == '/';
    assert |a| == |b|;
  }

  lemma UnderTransitive(a: string, b: string, path: string)
    requires Under(a, b) && Under(b, path)
    ensures Under(a, path)
  {
    assert path[..|a|] == path[..|b|][..|a|];
    assert |b| > |a| ==> path[|a|] == b[|a|];
  }

  lemma {:induction false} ItemUnder(child: (string, Observed), prefix: string, e: SourceEntry)
    requires WellNamedEntry(child) && e in Item(child, prefix)
    ensures Under(Join(prefix, child.0), e.path)
    decreases child, 0
  {
    var path := Join(prefix, child.0);
    if child.1.ObservedDirectory? && e.path != path {
      assert e in EntriesOf(child.1.children, path);
      var i := EntriesUnder(child.1.children, path, e);
      var inner := Join(path, child.1.children[i].0);
      assert inner[..|path|] == path && inner[|path|] == '/';
      UnderTransitive(path, inner, e.path);
    }
  }

  /** Every entry lies inside the name it was listed under. */
  lemma {:induction false} EntriesUnder(children: seq<(string, Observed)>, prefix: string, e: SourceEntry)
    returns (i: nat)
    requires forall k :: 0 <= k < |children| ==> WellNamedEntry(children[k])
    requires e in EntriesOf(children, prefix)
    ensures i < |children| && e in Item(children[i], prefix) && Under(Join(prefix, children[i].0), e.path)
    decreases children, 1
  {
    var n := |children| - 1;
    if e in Item(children[n], prefix) {
      ItemUnder(children[n], prefix, e);
      i := n;
    } else {
      i := EntriesUnder(children[..n], prefix, e);
      assert children[..n][i] == children[i];
    }
  }

  lemma DistinctAppend(a: seq<SourceEntry>, b: seq<SourceEntry>)
    requires DistinctPaths(a) && DistinctPaths(b)
    requires forall x, y :: x in a && y in b ==> x.path != y.path
    ensures DistinctPaths(a + b)
  {
  }

  lemma {:induction false} ItemDistinct(child: (string, Observed), prefix: string)
    requires WellNamedEntry(child)
    ensures DistinctPaths(Item(child, prefix))
    decreases child, 0
  {
    if child.1.ObservedDirectory? {
      var path := Join(prefix, child.0);
      var inside := EntriesOf(child.1.children, path);
      EntriesDistinct(child.1.children, path);
      forall y | y in inside ensures path != y.path {
        var i := EntriesUnder(child.1.children, path, y);
      }
      DistinctAppend([SourceEntry(path, Directory)], inside);
    }
  }

  /** No path is listed twice. */
  lemma {:induction false} EntriesDistinct(children: seq<(string, Observed)>, prefix: string)
    requires WellNamed(children)
    ensures DistinctPaths(EntriesOf(children, prefix))
    decreases children, 1
  {
    if |children| > 0 {
      var n := |children| - 1;
      EntriesDistinct(children[..n], prefix);
      ItemDistinct(children[n], prefix);
      var a, b := EntriesOf(children[..n], prefix), Item(children[n], prefix);
      forall x, y | x in a && y in b ensures x.path != y.path {
        var i := EntriesUnder(children[..n], prefix, x);
        ItemUnder(children[n], prefix, y);
        if x.path == y.path {
          assert Join(prefix, children[i].0) == Base(prefix) + children[i].0;
          assert Join(prefix, children[n].0) == Base(prefix) + children[n].0;
          SegmentsDiffer(Base(prefix), children[i].0, children[n].0, x.path);
        }
      }
      DistinctAppend(a, b);
    }
  }

  // ---------- The same directory, listed in another order ----------

  ghost predicate AlikeEntry(a: (string, Observed), b: (string, Observed))
    decreases a, 0
  {
    && a.0 == b.0
    && (if a.1.ObservedDirectory? then b.1.ObservedDirectory? && Alike(a.1.children, b.1.children) else a.1 == b.1)
  }

  /** Each name of `a` appears in `b` with the same contents, at every level. */
  ghost predicate Alike(a: seq<(string, Observed)>, b: seq<(string, Observed)>)
    decreases a, 1
  {
    forall i :: 0 <= i < |a| ==> exists j :: 0 <= j < |b| && AlikeEntry(a[i], b[j])
  }

  lemma {:induction false} MemberOfListing(children: seq<(string, Observed)>, prefix: string, j: nat, e: SourceEntry)
    requires j < |children| && e in Item(children[j], prefix)
    ensures e in EntriesOf(children, prefix)
  {
    if j < |children| - 1 {
      assert children[..|children| - 1][j] == children[j];
      MemberOfListing(children[..|children| - 1], prefix, j, e);
    }
  }

  lemma {:induction false} AlikeMembers(a: seq<(string, Observed)>, b: seq<(string, Observed)>, prefix: string,
                                        e: SourceEntry)
    requires WellNamed(a) && Alike(a, b) && e in EntriesOf(a, prefix)
    ensures e in EntriesOf(b, prefix)
    decreases a, 1
  {
    var i := EntriesUnder(a, prefix, e);
    assert AlikeHere(a, b, i);
    var j :| 0 <= j < |b| && AlikeEntry(a[i], b[j]);
    AlikeItem(a[i], b[j], prefix, e);
    MemberOfListing(b, prefix, j, e);
  }

  ghost predicate AlikeHere(a: seq<(string, Observed)>, b: seq<(string, Observed)>, i: int) {
    0 <= i < |a| && exists j :: 0 <= j < |b| && AlikeEntry(a[i], b[j])
  }

  lemma {:induction false} AlikeItem(a: (string, Observed), b: (string, Observed), prefix: string, e: SourceEntry)
    requires WellNamedEntry(a) && AlikeEntry(a, b) && e in Item(a, prefix)
    ensures e in Item(b, prefix)
    decreases a, 0
  {
    var path := Join(prefix, a.0);
    if a.1.ObservedDirectory? {
      if e in EntriesOf(a.1.children, path) {
        AlikeMembers(a.1.children, b.1.children, path, e);
      }
    }
  }

  /** However a directory is enumerated at any level, the sorted snapshot, and so the identity, is one. */
  lemma EnumerationOrderIsIrrelevant(a: seq<(string, Observed)>, b: seq<(string, Observed)>, p: Provenance)
    requires WellNamed(a) && WellNamed(b) && Alike(a, b) && Alike(b, a)
    ensures Sort(EntriesOf(a, "")) == Sort(EntriesOf(b, ""))
    ensures IdentityBytes(Sort(EntriesOf(a, "")), p) == IdentityBytes(Sort(EntriesOf(b, "")), p)
  {
    var x, y := EntriesOf(a, ""), EntriesOf(b, "");
    EntriesDistinct(a, "");
    EntriesDistinct(b, "");
    SortIgnoresOrder(x, x);
    SortIgnoresOrder(y, y);
    forall e ensures e in Sort(x) <==> e in Sort(y) {
      if e in x { AlikeMembers(a, b, "", e); }
      if e in y { AlikeMembers(b, a, "", e); }
      assert e in Sort(x) <==> e in multiset(x);
      assert e in Sort(y) <==> e in multiset(y);
    }
    StrictlySortedUnique(Sort(x), Sort(y));
  }
}
