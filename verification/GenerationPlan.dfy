/** Every source that a walk accepts has a plan that is valid and agrees with it: the one that lists its files. */
module GenerationPlan {
  import opened Options
  import opened GenerationIdentity
  import opened GenerationOrder
  import opened GenerationCollect
  import opened GenerationListing
  import opened GenerationTree
  import opened GenerationStage
  import opened GenerationWalk

  /** The manifest that lists just the files of a snapshot. */
  function ManifestOf(list: seq<SourceEntry>): seq<ManifestEntry> {
    if |list| == 0 then []
    else
      var last := list[|list| - 1];
      ManifestOf(list[..|list| - 1])
      + if last.kind.File? then [ManifestEntry(last.path, last.kind.size, last.kind.checksum)] else []
  }

  // ---------- Counting ----------

  lemma {:induction false} DeclaredAdds(a: seq<ManifestEntry>, b: seq<ManifestEntry>)
    ensures Declared(a + b) == Declared(a) + Declared(b)
  {
    if |a| == 0 {
      assert a + b == b;
    } else {
      assert (a + b)[1..] == a[1..] + b;
      DeclaredAdds(a[1..], b);
    }
  }

  lemma DeclaredOne(m: ManifestEntry)
    ensures Declared([m]) == m.size
  {
    assert [m][1..] == [];
  }

  lemma {:induction false} ManifestCounts(list: seq<SourceEntry>)
    ensures |ManifestOf(list)| == CountAll(Tally(0, 0, 0), list).files
    ensures Declared(ManifestOf(list)) == CountAll(Tally(0, 0, 0), list).total
  {
    if |list| > 0 {
      var last := list[|list| - 1];
      ManifestCounts(list[..|list| - 1]);
      if last.kind.File? {
        var m := ManifestEntry(last.path, last.kind.size, last.kind.checksum);
        DeclaredAdds(ManifestOf(list[..|list| - 1]), [m]);
        DeclaredOne(m);
      } else {
        assert ManifestOf(list) == ManifestOf(list[..|list| - 1]);
      }
    }
  }

  predicate Declares(m: ManifestEntry, e: SourceEntry) {
    e.kind.File? && m == ManifestEntry(e.path, e.kind.size, e.kind.checksum)
  }

  /** Each entry of a manifest declares a file of the list. */
  lemma {:induction false} ManifestDeclares(list: seq<SourceEntry>, i: nat) returns (k: nat)
    requires i < |ManifestOf(list)|
    ensures k < |list| && Declares(ManifestOf(list)[i], list[k])
  {
    var n := |list| - 1;
    if i < |ManifestOf(list[..n])| {
      k := ManifestDeclares(list[..n], i);
    } else {
      k := n;
    }
  }

  lemma {:induction false} ManifestIsDistinct(list: seq<SourceEntry>)
    requires DistinctPaths(list)
    ensures forall i, j :: 0 <= i < j < |ManifestOf(list)| ==> ManifestOf(list)[i].path != ManifestOf(list)[j].path
  {
    if |list| > 0 {
      var n := |list| - 1;
      var front := ManifestOf(list[..n]);
      ManifestIsDistinct(list[..n]);
      forall i | 0 <= i < |front| ensures front[i].path != list[n].path {
        var k := ManifestDeclares(list[..n], i);
      }
    }
  }

  lemma {:induction false} ManifestMatches(list: seq<SourceEntry>)
    requires DistinctPaths(list)
    ensures Matches(FilesOf(list), ManifestOf(list))
  {
    if |list| > 0 {
      var n := |list| - 1;
      var front, files, more := ManifestOf(list[..n]), FilesOf(list[..n]), ManifestOf(list);
      ManifestMatches(list[..n]);
      forall i | 0 <= i < |front| ensures front[i].path != list[n].path {
        var k := ManifestDeclares(list[..n], i);
      }
      assert forall i :: 0 <= i < |front| ==> more[i] == front[i];
      forall p | p in FilesOf(list) ensures exists i :: 0 <= i < |more| && more[i].path == p {
        if p in files {
          var i :| 0 <= i < |front| && front[i].path == p;
          assert more[i].path == p;
        } else {
          assert more[|more| - 1].path == p;
        }
      }
    }
  }

  // ---------- Paths ----------

  /** No directory lists these. */
  predicate RealName(name: string) { name != "." && name != ".." && '\0' !in name }

  predicate RealEntry(child: (string, Observed))
    decreases child, 0
  {
    RealName(child.0) && (child.1.ObservedDirectory? ==> RealNames(child.1.children))
  }

  predicate RealNames(children: seq<(string, Observed)>)
    decreases children, 1
  {
    forall i :: 0 <= i < |children| ==> RealEntry(children[i])
  }

  lemma {:induction false} OnePart(name: string)
    requires '/' !in name
    ensures Parts(name) == [name]
  {
    if |name| > 0 {
      assert name[0] in name && forall c :: c in name[1..] ==> c in name;
      OnePart(name[1..]);
      assert [name[0]] + name[1..] == name;
    }
  }

  lemma {:induction false} PartsJoin(prefix: string, name: string)
    requires '/' !in name
    ensures Parts(prefix + "/" + name) == Parts(prefix) + [name]
    decreases |prefix|
  {
    var path := prefix + "/" + name;
    if |prefix| == 0 {
      OnePart(name);
      assert path[1..] == name;
    } else {
      PartsJoin(prefix[1..], name);
      assert path[1..] == prefix[1..] + "/" + name;
    }
  }

  lemma JoinIsSafe(prefix: string, name: string)
    requires (prefix == "" || SafeRelative(prefix)) && PlainName(name) && RealName(name)
    ensures SafeRelative(Join(prefix, name))
  {
    hide Parts;
    assert name[0] in name;
    if prefix == "" {
      OnePart(name);
    } else {
      PartsJoin(prefix, name);
    }
  }

  lemma {:induction false} ItemIsSafe(child: (string, Observed), prefix: string, e: SourceEntry)
    requires WellNamedEntry(child) && RealEntry(child) && (prefix == "" || SafeRelative(prefix))
    requires e in Item(child, prefix)
    ensures SafeRelative(e.path)
    decreases child, 0
  {
    hide SafeRelative, EntriesOf, PlainName, RealName;
    JoinIsSafe(prefix, child.0);
    if child.1.ObservedDirectory? && e in EntriesOf(child.1.children, Join(prefix, child.0)) {
      EntriesAreSafe(child.1.children, Join(prefix, child.0), e);
    }
  }

  /** What a walk lists are safe paths. */
  lemma {:induction false} EntriesAreSafe(children: seq<(string, Observed)>, prefix: string, e: SourceEntry)
    requires WellNamed(children) && RealNames(children) && (prefix == "" || SafeRelative(prefix))
    requires e in EntriesOf(children, prefix)
    ensures SafeRelative(e.path)
    decreases children, 1
  {
    hide SafeRelative, EntriesOf;
    var i := EntriesUnder(children, prefix, e);
    ItemIsSafe(children[i], prefix, e);
  }

  // ---------- The plan ----------

  predicate ProperBounds(b: Bounds) {
    && 0 < b.maxFiles <= MAX_MANIFEST && 0 < b.maxFileBytes <= MAX_FILE_BYTES
    && 0 < b.maxCacheBytes <= MAX_CACHE_BYTES
  }

  predicate ProperProvenance(p: Provenance) {
    && |p.sources| > 0 && DigestShape(p.before) && DigestShape(p.after)
    && (forall i :: 0 <= i < |p.sources| ==> DigestShape(p.sources[i]))
    && (forall i, j :: 0 <= i < j < |p.sources| ==> p.sources[i] != p.sources[j])
  }

  /** Checksums are digests, and paths no longer than a manifest allows. */
  ghost predicate Hashed(list: seq<SourceEntry>) {
    forall k :: 0 <= k < |list| && list[k].kind.File? ==>
      DigestShape(list[k].kind.checksum) && |list[k].path| <= MAX_PATH_BYTES
  }

  /** The plan that lists the files of an accepted source is valid and agrees with it. */
  lemma AcceptedHasPlan(tree: seq<(string, Observed)>, bounds: Bounds, provenance: Provenance)
    requires WellNamed(tree) && RealNames(tree) && Accepts(tree, bounds) && Hashed(Sort(EntriesOf(tree, "")))
    requires ProperBounds(bounds) && ProperProvenance(provenance)
    ensures var list := Sort(EntriesOf(tree, ""));
            ValidPlan(Plan(ManifestOf(list), bounds, provenance)) && Matches(FilesOf(list), ManifestOf(list))
  {
    hide EntriesOf, WellNamed, RealNames, Sort, CountAll, ManifestOf, Declared, SafeRelative, DigestShape, FilesOf,
      Treelike, Accepts;
    var entries := EntriesOf(tree, "");
    var list := Sort(entries);
    SnapshotIsTreelike(tree, bounds);
    SnapshotIsDistinct(tree, bounds);
    ManifestMatches(list);
    ManifestIsDistinct(list);
    ManifestCounts(list);
    var m := ManifestOf(list);
    forall i | 0 <= i < |m|
      ensures |m[i].path| <= MAX_PATH_BYTES && SafeRelative(m[i].path) && DigestShape(m[i].checksum)
      ensures m[i].size <= bounds.maxFileBytes
    {
      var k := ManifestDeclares(list, i);
      SortKeepsMembers(entries, list[k]);
      EntriesAreSafe(tree, "", list[k]);
      assert EntryFits(list[k], bounds);
    }
  }

  lemma SnapshotIsDistinct(tree: seq<(string, Observed)>, bounds: Bounds)
    requires WellNamed(tree) && Accepts(tree, bounds)
    ensures DistinctPaths(Sort(EntriesOf(tree, "")))
  {
    SnapshotIsTreelike(tree, bounds);
    StrictIsDistinct(Sort(EntriesOf(tree, "")));
  }
}
