/**
 The walk of a tree that nobody else touches: `CollectSource`, given a faithful
 account of the tree, gives the same answer as `CollectNodes`.
 */
module GenerationWalk {
  import opened Options
  import opened StringOrder
  import opened GenerationIdentity
  import opened GenerationOrder
  import opened GenerationCollect
  import opened GenerationListing
  import opened GenerationTree

  /** Nothing about the name was replaced, linked twice or out of the ordinary. */
  predicate UntouchedEntry(child: (string, Observed))
    decreases child, 0
  {
    match child.1
    case ObservedFile(links, _, _, checksum) => links == 1 && checksum.Some?
    case ObservedDirectory(intact, children) => intact && Untouched(children)
    case _ => false
  }

  predicate Untouched(children: seq<(string, Observed)>)
    decreases children, 1
  {
    forall i :: 0 <= i < |children| ==> UntouchedEntry(children[i])
  }

  /** A walk saw exactly the nodes of the tree. */
  ghost predicate Faithful(tree: seq<(string, Observed)>, nodes: Nodes, hash: Hash) {
    && WellNamed(tree) && Untouched(tree)
    && forall e :: e in EntriesOf(tree, "") <==> e.path in nodes && e == EntryFor(e.path, nodes[e.path], hash)
  }

  // ---------- Depth ----------

  lemma {:induction false} SlashesAdd(a: string, b: string)
    ensures Slashes(a + b) == Slashes(a) + Slashes(b)
  {
    if |a| == 0 {
      assert a + b == b;
    } else {
      assert (a + b)[1..] == a[1..] + b;
      SlashesAdd(a[1..], b);
    }
  }

  lemma {:induction false} PlainHasNone(name: string)
    requires '/' !in name
    ensures Slashes(name) == 0
  {
    if |name| > 0 {
      assert name[0] in name && forall c :: c in name[1..] ==> c in name;
      PlainHasNone(name[1..]);
    }
  }

  /** How deep the contents of a directory are walked. */
  function DepthOf(prefix: string): nat { if |prefix| == 0 then 0 else Slashes(prefix) + 1 }

  lemma JoinIsDeeper(prefix: string, name: string)
    requires PlainName(name)
    ensures Slashes(Join(prefix, name)) == DepthOf(prefix) && DepthOf(Join(prefix, name)) == DepthOf(prefix) + 1
  {
    PlainHasNone(name);
    PlainHasNone("");
    assert "/"[1..] == "";
    SlashesAdd(prefix + "/", name);
    SlashesAdd(prefix, "/");
  }

  // ---------- What a sound walk accepts ----------

  ghost predicate AllFit(entries: seq<SourceEntry>, bounds: Bounds) {
    forall e :: e in entries ==> EntryFits(e, bounds)
  }

  lemma {:induction false} SoundEntryFits(child: (string, Observed), prefix: string, bounds: Bounds)
    requires WellNamedEntry(child) && UntouchedEntry(child) && DepthOf(prefix) <= MAX_DEPTH
    ensures SoundEntry(child, bounds, DepthOf(prefix)) <==> AllFit(Item(child, prefix), bounds)
    decreases child, 0
  {
    var path := Join(prefix, child.0);
    JoinIsDeeper(prefix, child.0);
    match child.1
    case ObservedFile(_, size, executable, checksum) =>
      assert Item(child, prefix) == [SourceEntry(path, File(size, checksum.value, executable))];
      assert Item(child, prefix)[0] in Item(child, prefix);
    case ObservedDirectory(_, children) =>
      var first := SourceEntry(path, Directory);
      assert first in [first] + EntriesOf(children, path);
      if DepthOf(path) <= MAX_DEPTH {
        SoundFits(children, path, bounds);
        assert forall e :: e in EntriesOf(children, path) ==> e in [first] + EntriesOf(children, path);
      }
  }

  /** A directory is sound exactly when each of its entries fits. */
  lemma {:induction false} SoundFits(children: seq<(string, Observed)>, prefix: string, bounds: Bounds)
    requires WellNamed(children) && Untouched(children) && DepthOf(prefix) <= MAX_DEPTH
    ensures Sound(children, bounds, DepthOf(prefix)) <==> AllFit(EntriesOf(children, prefix), bounds)
    decreases children, 1
  {
    hide Item, EntriesOf, EntryFits;
    forall i | 0 <= i < |children|
      ensures SoundEntry(children[i], bounds, DepthOf(prefix)) <==> AllFit(Item(children[i], prefix), bounds)
    {
      SoundEntryFits(children[i], prefix, bounds);
    }
    if AllFit(EntriesOf(children, prefix), bounds) {
      forall i, e | 0 <= i < |children| && e in Item(children[i], prefix) ensures EntryFits(e, bounds) {
        MemberOfListing(children, prefix, i, e);
      }
      assert forall i :: 0 <= i < |children| ==> AllFit(Item(children[i], prefix), bounds);
    }
    if forall i :: 0 <= i < |children| ==> AllFit(Item(children[i], prefix), bounds) {
      forall e | e in EntriesOf(children, prefix) ensures EntryFits(e, bounds) {
        var i := EntriesUnder(children, prefix, e);
        assert AllFit(Item(children[i], prefix), bounds);
      }
    }
  }

  // ---------- Counting ----------

  lemma {:induction false} CountInsert(t: Tally, e: SourceEntry, s: seq<SourceEntry>)
    ensures CountAll(t, Insert(e, s)) == CountAll(Count(t, e), s)
    decreases |s|
  {
    hide CountAll, Before;
    if |s| > 0 && Before(s[0].path, e.path) {
      CountInsert(Count(t, s[0]), e, s[1..]);
      DirectoryCounts(t, s[0], Insert(e, s[1..]));
      DirectoryCounts(Count(t, e), s[0], s[1..]);
      assert s == [s[0]] + s[1..];
    } else {
      DirectoryCounts(t, e, s);
      assert |s| == 0 ==> Insert(e, s) == [e] + s;
    }
  }

  lemma {:induction false} CountSort(t: Tally, s: seq<SourceEntry>)
    ensures CountAll(t, Sort(s)) == CountAll(t, s)
    decreases |s|
  {
    hide CountAll, Insert;
    if |s| > 0 {
      CountInsert(t, s[0], Sort(s[1..]));
      CountSort(Count(t, s[0]), s[1..]);
      DirectoryCounts(t, s[0], s[1..]);
      assert s == [s[0]] + s[1..];
    }
  }

  lemma SortKeepsMembers(s: seq<SourceEntry>, e: SourceEntry)
    ensures e in Sort(s) <==> e in s
  {
    assert e in Sort(s) <==> e in multiset(Sort(s));
    assert e in s <==> e in multiset(s);
  }

  lemma FaithfulLists(entries: seq<SourceEntry>, sorted: seq<SourceEntry>, nodes: Nodes, hash: Hash)
    requires StrictlySorted(sorted) && forall e :: e in sorted <==> e in entries
    requires forall e :: e in entries <==> e.path in nodes && e == EntryFor(e.path, nodes[e.path], hash)
    ensures Lists(sorted, nodes, hash)
  {
    hide StrictlySorted;
    forall p | p in nodes ensures EntryFor(p, nodes[p], hash) in sorted {
      assert EntryFor(p, nodes[p], hash) in entries;
    }
  }

  lemma FitsSorted(entries: seq<SourceEntry>, sorted: seq<SourceEntry>, bounds: Bounds)
    requires forall e :: e in sorted <==> e in entries
    requires CountAll(Tally(0, 0, 0), sorted) == CountAll(Tally(0, 0, 0), entries)
    ensures FitsBounds(sorted, bounds)
       <==> AllFit(entries, bounds) && Within(CountAll(Tally(0, 0, 0), entries), bounds)
  {
    hide CountAll, Within, EntryFits;
    assert forall i :: 0 <= i < |sorted| ==> sorted[i] in sorted;
  }

  /**
   Whatever order a faithful walk takes, it is accepted exactly when the tree
   fits the bounds, and its sorted snapshot is the tree's one listing.
   */
  lemma WalkAgrees(tree: seq<(string, Observed)>, nodes: Nodes, bounds: Bounds, hash: Hash)
    requires Faithful(tree, nodes, hash)
    ensures Sort(EntriesOf(tree, "")) == Listing(nodes, hash)
    ensures Accepts(tree, bounds) <==> FitsBounds(Listing(nodes, hash), bounds)
  {
    hide EntriesOf, Sort, WellNamed, Untouched, Sound, StrictlySorted, CountAll, Listing, Within, EntryFits, EntryFor,
         FitsBounds, AllFit, Lists;
    var entries := EntriesOf(tree, "");
    var sorted := Sort(entries);
    EntriesDistinct(tree, "");
    SortIgnoresOrder(entries, entries);
    forall e ensures e in sorted <==> e in entries { SortKeepsMembers(entries, e); }
    FaithfulLists(entries, sorted, nodes, hash);
    ListingIs(sorted, nodes, hash);
    CountSort(Tally(0, 0, 0), entries);
    FitsSorted(entries, sorted, bounds);
    SoundFits(tree, "", bounds);
  }
}
