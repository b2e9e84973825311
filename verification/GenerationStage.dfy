/**
 The staging tree as it is filled: which snapshots can be staged, and what a
 filled stage holds.
 */
module GenerationStage {
  import opened Options
  import opened GenerationIdentity
  import opened GenerationOrder
  import opened GenerationCollect
  import opened GenerationListing
  import opened GenerationTree
  import opened GenerationWalk

  /** `p` names a directory on the way to `path`. */
  predicate Ancestor(p: string, path: string) { |p| < |path| && path[|p|] == '/' && path[..|p|] == p }

  /** Every directory on the way to an entry is an entry. */
  ghost predicate Treelike(s: seq<SourceEntry>) {
    && StrictlySorted(s)
    && forall e, p :: e in s && Ancestor(p, e.path) ==> SourceEntry(p, Directory) in s
  }

  /** The copy of a file yields the bytes that were hashed, within the bound. */
  predicate CopyFits(e: SourceEntry, copies: map<string, string>, bounds: Bounds, hash: Hash)
    requires e.kind.File?
  {
    && e.path in copies && |copies[e.path]| == e.kind.size <= bounds.maxFileBytes
    && hash(copies[e.path]) == e.kind.checksum
  }

  ghost predicate CopiesFit(s: seq<SourceEntry>, copies: map<string, string>, bounds: Bounds, hash: Hash) {
    forall k :: 0 <= k < |s| && s[k].kind.File? ==> CopyFits(s[k], copies, bounds, hash)
  }

  /** No entry is one that cannot be made. */
  ghost predicate Free(s: seq<SourceEntry>, blocked: set<string>) {
    forall k :: 0 <= k < |s| ==> s[k].path !in blocked
  }

  // ---------- What the stage holds ----------

  const STAGED_DIRECTORY := DirectoryNode(MODE_700)

  /** Directories of the snapshot only, and all of its first `n`. */
  ghost predicate HoldsDirectories(nodes: Nodes, s: seq<SourceEntry>, n: nat) {
    && (forall p :: p in nodes ==> nodes[p] == STAGED_DIRECTORY && SourceEntry(p, Directory) in s)
    && forall k :: 0 <= k < n <= |s| && s[k].kind.Directory? ==> s[k].path in nodes
  }

  function Copied(e: SourceEntry, copies: map<string, string>): Node
    requires e.kind.File? && e.path in copies
  {
    FileNode(copies[e.path], ImmutableMode(e.kind.executable))
  }

  ghost predicate IsOneOf(s: seq<SourceEntry>, n: nat, p: string) {
    exists k :: 0 <= k < n <= |s| && s[k].path == p && s[k].kind.File?
  }

  /** All directories of the snapshot, the files among its first `n` with the bytes copied, and nothing else. */
  ghost predicate Holds(nodes: Nodes, s: seq<SourceEntry>, copies: map<string, string>, n: nat) {
    && (forall p :: SourceEntry(p, Directory) in s ==> p in nodes && nodes[p] == STAGED_DIRECTORY)
    && (forall k :: 0 <= k < n <= |s| && s[k].kind.File? ==>
          s[k].path in copies && s[k].path in nodes && nodes[s[k].path] == Copied(s[k], copies))
    && (forall p :: p in nodes ==> SourceEntry(p, Directory) in s || IsOneOf(s, n, p))
  }

  /** The nodes on the way to `path`, and those that were there. */
  ghost predicate Opened(before: Nodes, after: Nodes, path: string) {
    && (forall p :: p in before ==> p in after && after[p] == before[p])
    && (forall p :: p in after && p !in before ==> Ancestor(p, path) && after[p] == STAGED_DIRECTORY)
    && (forall p :: Ancestor(p, path) ==> p in after)
  }

  /** The way to `path` can be made. */
  ghost predicate Open(nodes: Nodes, path: string, blocked: set<string>) {
    forall p :: Ancestor(p, path) ==> CanBe(nodes, p, blocked)
  }

  predicate CanBe(nodes: Nodes, p: string, blocked: set<string>) {
    if p in nodes then nodes[p].DirectoryNode? else p !in blocked
  }

  lemma StagedOnce(s: seq<SourceEntry>, j: nat, k: nat)
    requires StrictlySorted(s) && j < |s| && k < |s| && s[j].path == s[k].path
    ensures j == k
  {
    StrictIsDistinct(s);
  }

  lemma WayIsOpen(s: seq<SourceEntry>, nodes: Nodes, k: nat, n: nat, blocked: set<string>)
    requires Treelike(s) && HoldsDirectories(nodes, s, n) && k < |s| && Free(s, blocked)
    ensures Open(nodes, s[k].path, blocked)
  {
    forall p | Ancestor(p, s[k].path) ensures CanBe(nodes, p, blocked) {
      assert SourceEntry(p, Directory) in s;
      var j :| 0 <= j < |s| && s[j] == SourceEntry(p, Directory);
      assert s[j].path !in blocked;
    }
  }

  /** One more directory. */
  lemma DirectoryAdded(s: seq<SourceEntry>, before: Nodes, middle: Nodes, after: Nodes, k: nat)
    requires Treelike(s) && HoldsDirectories(before, s, k) && k < |s| && s[k].kind.Directory?
    requires Opened(before, middle, s[k].path)
    requires after == if s[k].path in middle then middle else middle[s[k].path := STAGED_DIRECTORY]
    ensures HoldsDirectories(after, s, k + 1)
  {
    assert s[k] in s && s[k] == SourceEntry(s[k].path, Directory);
    forall p | p in after ensures after[p] == STAGED_DIRECTORY && SourceEntry(p, Directory) in s {
    }
  }

  lemma DirectoriesDone(s: seq<SourceEntry>, nodes: Nodes, copies: map<string, string>)
    requires Treelike(s) && HoldsDirectories(nodes, s, |s|)
    ensures Holds(nodes, s, copies, 0)
  {
    forall p | SourceEntry(p, Directory) in s ensures p in nodes && nodes[p] == STAGED_DIRECTORY {
      var j :| 0 <= j < |s| && s[j] == SourceEntry(p, Directory);
      assert s[j].path in nodes;
    }
  }

  lemma WayIsThere(s: seq<SourceEntry>, nodes: Nodes, copies: map<string, string>, k: nat, blocked: set<string>)
    requires Treelike(s) && Holds(nodes, s, copies, k) && k < |s|
    ensures Open(nodes, s[k].path, blocked)
    ensures forall after :: Opened(nodes, after, s[k].path) ==> after == nodes
    ensures s[k].kind.File? ==> s[k].path !in nodes
  {
    assert forall p :: Ancestor(p, s[k].path) ==> SourceEntry(p, Directory) in s;
    if s[k].kind.File? && s[k].path in nodes {
      if SourceEntry(s[k].path, Directory) in s {
        var j :| 0 <= j < |s| && s[j] == SourceEntry(s[k].path, Directory);
        StagedOnce(s, j, k);
      } else {
        var j :| 0 <= j < k && s[j].path == s[k].path && s[j].kind.File?;
        StagedOnce(s, j, k);
      }
    }
  }

  /** One more file. */
  lemma FileAdded(s: seq<SourceEntry>, nodes: Nodes, copies: map<string, string>, k: nat)
    requires Treelike(s) && Holds(nodes, s, copies, k) && k < |s| && s[k].kind.File? && s[k].path in copies
    requires s[k].path !in nodes
    ensures Holds(nodes[s[k].path := Copied(s[k], copies)], s, copies, k + 1)
  {
    var after := nodes[s[k].path := Copied(s[k], copies)];
    forall p | p in after ensures SourceEntry(p, Directory) in s || IsOneOf(s, k + 1, p) {
      if p == s[k].path { assert IsOneOf(s, k + 1, p); }
      else if IsOneOf(s, k, p) {
        var j :| 0 <= j < k && s[j].path == p && s[j].kind.File?;
        assert IsOneOf(s, k + 1, p);
      }
    }
  }

  lemma DirectorySkipped(s: seq<SourceEntry>, nodes: Nodes, copies: map<string, string>, k: nat)
    requires Holds(nodes, s, copies, k) && k < |s| && s[k].kind.Directory?
    ensures Holds(nodes, s, copies, k + 1)
  {
    forall p | p in nodes ensures SourceEntry(p, Directory) in s || IsOneOf(s, k + 1, p) {
      if IsOneOf(s, k, p) {
        var j :| 0 <= j < k && s[j].path == p && s[j].kind.File?;
        assert IsOneOf(s, k + 1, p);
      }
    }
  }

  /** A directory, with those on the way to it, has been made, or could not be. */
  lemma DirectoryTurn(s: seq<SourceEntry>, before: Nodes, after: Nodes, k: nat, blocked: set<string>, made: bool)
    requires Treelike(s) && HoldsDirectories(before, s, k) && k < |s| && s[k].kind.Directory?
    requires made <==> Open(before, s[k].path, blocked) && CanBe(before, s[k].path, blocked)
    requires made ==> exists middle :: Opened(before, middle, s[k].path)
                        && after == if s[k].path in middle then middle else middle[s[k].path := STAGED_DIRECTORY]
    ensures if made then HoldsDirectories(after, s, k + 1) else !Free(s, blocked)
  {
    hide Treelike, Opened, Open;
    if made {
      var middle :| Opened(before, middle, s[k].path)
                    && after == if s[k].path in middle then middle else middle[s[k].path := STAGED_DIRECTORY];
      DirectoryAdded(s, before, middle, after, k);
    } else if Free(s, blocked) {
      WayIsOpen(s, before, k, k, blocked);
    }
  }

  /** The first `n` entries can be copied. */
  ghost predicate FilesFit(s: seq<SourceEntry>, n: nat, copies: map<string, string>, bounds: Bounds,
                           blocked: set<string>, hash: Hash)
  {
    forall k :: 0 <= k < n <= |s| && s[k].kind.File? ==> CopyFits(s[k], copies, bounds, hash) && s[k].path !in blocked
  }

  /** A file has been copied, or could not be. */
  lemma FileTurn(s: seq<SourceEntry>, before: Nodes, after: Nodes, copies: map<string, string>, k: nat, bounds: Bounds,
                 blocked: set<string>, hash: Hash, made: bool)
    requires Treelike(s) && Holds(before, s, copies, k) && k < |s| && s[k].kind.File?
    requires FilesFit(s, k, copies, bounds, blocked, hash)
    requires made <==> CopyFits(s[k], copies, bounds, hash) && Open(before, s[k].path, blocked)
                       && s[k].path !in before && s[k].path !in blocked
    requires made ==> exists middle ::
               Opened(before, middle, s[k].path) && after == middle[s[k].path := Copied(s[k], copies)]
    ensures if made then Holds(after, s, copies, k + 1) && FilesFit(s, k + 1, copies, bounds, blocked, hash)
            else !FilesFit(s, |s|, copies, bounds, blocked, hash)
  {
    WayIsThere(s, before, copies, k, blocked);
    hide Treelike, Opened, Open, Holds;
    if made {
      var middle :| Opened(before, middle, s[k].path) && after == middle[s[k].path := Copied(s[k], copies)];
      assert middle == before;
      FileAdded(s, before, copies, k);
    }
  }

  lemma FitAndFree(s: seq<SourceEntry>, directories: Nodes, copies: map<string, string>, bounds: Bounds,
                   blocked: set<string>, hash: Hash)
    requires HoldsDirectories(directories, s, |s|) && directories.Keys !! blocked
    ensures FilesFit(s, |s|, copies, bounds, blocked, hash) <==> CopiesFit(s, copies, bounds, hash) && Free(s, blocked)
  {
    hide CopyFits;
    forall k | 0 <= k < |s| && s[k].kind.Directory? ensures s[k].path !in blocked {
      assert s[k].path in directories;
    }
  }

  /** A stage filled with what was hashed lists as the snapshot. */
  lemma FilledLists(s: seq<SourceEntry>, nodes: Nodes, copies: map<string, string>, bounds: Bounds, hash: Hash)
    requires Treelike(s) && Holds(nodes, s, copies, |s|) && CopiesFit(s, copies, bounds, hash)
    ensures Lists(s, nodes, hash)
  {
    hide StrictlySorted;
    forall k | 0 <= k < |s| ensures s[k].path in nodes && s[k] == EntryFor(s[k].path, nodes[s[k].path], hash) {
      if s[k].kind.Directory? { assert s[k] == SourceEntry(s[k].path, Directory); }
    }
    forall p | p in nodes ensures EntryFor(p, nodes[p], hash) in s {
      if SourceEntry(p, Directory) !in s {
        var j :| 0 <= j < |s| && s[j].path == p && s[j].kind.File?;
        assert s[j] in s;
      }
    }
  }

  lemma FreeOfKeys(s: seq<SourceEntry>, nodes: Nodes, blocked: set<string>, hash: Hash)
    requires Lists(s, nodes, hash)
    ensures Free(s, blocked) <==> nodes.Keys !! blocked
  {
    hide StrictlySorted;
    if Free(s, blocked) {
      forall p | p in nodes ensures p !in blocked {
        var e := EntryFor(p, nodes[p], hash);
        var k :| 0 <= k < |s| && s[k] == e;
        assert s[k].path == p;
      }
    } else {
      var k :| 0 <= k < |s| && s[k].path in blocked;
      assert s[k] in s;
    }
  }

  // ---------- Snapshots are trees ----------

  lemma NoSlashInside(base: string, name: string, path: string)
    requires PlainName(name) && |base + name| <= |path| && path[..|base + name|] == base + name
    ensures forall j :: |base| <= j < |base + name| ==> path[j] != '/'
  {
    forall j | |base| <= j < |base + name| ensures path[j] != '/' {
      assert path[j] == path[..|base + name|][j] == name[j - |base|];
    }
  }

  lemma {:induction false} ItemIsTreelike(child: (string, Observed), prefix: string, e: SourceEntry, p: string)
    requires WellNamedEntry(child) && e in Item(child, prefix)
    requires Ancestor(p, e.path) && |p| >= |Base(prefix)|
    ensures SourceEntry(p, Directory) in Item(child, prefix)
    decreases child, 0
  {
    var path := Join(prefix, child.0);
    ItemUnder(child, prefix, e);
    assert path == Base(prefix) + child.0;
    NoSlashInside(Base(prefix), child.0, e.path);
    if child.1.ObservedDirectory? {
      if |p| == |path| {
        assert p == path;
      } else {
        assert e in EntriesOf(child.1.children, path);
        EntriesAreTreelike(child.1.children, path, e, p);
      }
    }
  }

  /** What a walk of proper names lists is a tree. */
  lemma {:induction false} EntriesAreTreelike(children: seq<(string, Observed)>, prefix: string, e: SourceEntry, p: string)
    requires WellNamed(children) && e in EntriesOf(children, prefix)
    requires Ancestor(p, e.path) && |p| >= |Base(prefix)|
    ensures SourceEntry(p, Directory) in EntriesOf(children, prefix)
    decreases children, 1
  {
    var i := EntriesUnder(children, prefix, e);
    ItemIsTreelike(children[i], prefix, e, p);
    MemberOfListing(children, prefix, i, SourceEntry(p, Directory));
  }

  lemma {:induction false} SoundIsUntouchedEntry(child: (string, Observed), bounds: Bounds, depth: nat)
    requires SoundEntry(child, bounds, depth)
    ensures UntouchedEntry(child)
    decreases child, 0
  {
    if child.1.ObservedDirectory? { SoundIsUntouched(child.1.children, bounds, depth + 1); }
  }

  lemma {:induction false} SoundIsUntouched(children: seq<(string, Observed)>, bounds: Bounds, depth: nat)
    requires Sound(children, bounds, depth)
    ensures Untouched(children)
    decreases children, 1
  {
    forall i | 0 <= i < |children| ensures UntouchedEntry(children[i]) {
      SoundIsUntouchedEntry(children[i], bounds, depth);
    }
  }

  /** An accepted walk of proper names gives a snapshot that can be staged, and fits the bounds. */
  lemma SnapshotIsTreelike(tree: seq<(string, Observed)>, bounds: Bounds)
    requires WellNamed(tree) && Accepts(tree, bounds)
    ensures Treelike(Sort(EntriesOf(tree, ""))) && FitsBounds(Sort(EntriesOf(tree, "")), bounds)
  {
    var entries := EntriesOf(tree, "");
    var s := Sort(entries);
    EntriesDistinct(tree, "");
    SortIgnoresOrder(entries, entries);
    SoundIsUntouched(tree, bounds, 0);
    SoundFits(tree, "", bounds);
    CountSort(Tally(0, 0, 0), entries);
    hide EntriesOf, Sort, WellNamed, Untouched, Sound, StrictlySorted, CountAll, Within, EntryFits, Ancestor;
    forall e ensures e in s <==> e in entries { SortKeepsMembers(entries, e); }
    FitsSorted(entries, s, bounds);
    forall e, p | e in s && Ancestor(p, e.path) ensures SourceEntry(p, Directory) in s {
      EntriesAreTreelike(tree, "", e, p);
    }
  }
}
