/**
 The tree of a generation: its listing, its agreement with the manifest, and
 what a plan must look like to be promoted.
 */
module GenerationTree {
  import opened Options
  import opened GenerationIdentity
  import opened GenerationOrder
  import opened StringOrder
  import opened GenerationCollect

  datatype ManifestEntry = ManifestEntry(path: string, size: nat, checksum: string)

  datatype Plan = Plan(manifest: seq<ManifestEntry>, bounds: Bounds, provenance: Provenance)

  // ---------- Reconciling a snapshot with the manifest ----------

  /** The files of a snapshot, by path; of two with one path the later counts. */
  function FilesOf(entries: seq<SourceEntry>): map<string, (nat, string)> {
    if |entries| == 0 then map[]
    else
      var last := entries[|entries| - 1];
      var rest := FilesOf(entries[..|entries| - 1]);
      if last.kind.File? then rest[last.path := (last.kind.size, last.kind.checksum)] else rest
  }

  /** Exactly the manifest's files, with exactly their sizes and checksums. */
  ghost predicate Matches(files: map<string, (nat, string)>, manifest: seq<ManifestEntry>) {
    && (forall i :: 0 <= i < |manifest| ==>
          manifest[i].path in files && files[manifest[i].path] == (manifest[i].size, manifest[i].checksum))
    && (forall p :: p in files ==> exists i :: 0 <= i < |manifest| && manifest[i].path == p)
  }

  method ReconcileManifest(entries: seq<SourceEntry>, manifest: seq<ManifestEntry>)
    returns (error: Option<CacheError>)
    ensures error.None? <==> Matches(FilesOf(entries), manifest)
  {
    var collected: map<string, (nat, string)> := map[];
    for i := 0 to |entries|
      invariant collected == FilesOf(entries[..i])
    {
      assert entries[..i + 1][..i] == entries[..i];
      if entries[i].kind.File? {
        collected := collected[entries[i].path := (entries[i].kind.size, entries[i].kind.checksum)];
      }
    }
    assert entries[..|entries|] == entries;
    var declared: set<string> := {};
    for i := 0 to |manifest|
      invariant forall k :: 0 <= k < i ==>
        manifest[k].path in collected && collected[manifest[k].path] == (manifest[k].size, manifest[k].checksum)
      invariant forall p :: p in declared <==> exists k :: 0 <= k < i && manifest[k].path == p
    {
      var m := manifest[i];
      if m.path !in collected {
        return Some(MissingFile);
      }
      if collected[m.path].0 != m.size {
        return Some(SizeMismatch);
      }
      if collected[m.path].1 != m.checksum {
        return Some(ChecksumMismatch);
      }
      declared := declared + {m.path};
    }
    if collected.Keys <= declared {
      return None;
    }
    assert !(forall p :: p in collected.Keys ==> p in declared);
    return Some(UnlistedFile);
  }

  // ---------- The staging tree ----------

  /** One node of a tree the provider owns. Modes are permission bits. */
  datatype Node = FileNode(content: string, mode: nat) | DirectoryNode(mode: nat)

  type Nodes = map<string, Node>

  const MODE_444: nat := 292
  const MODE_555: nat := 365
  const MODE_600: nat := 384
  const MODE_700: nat := 448

  predicate Immutable(n: Node) { n.mode == MODE_555 || (n.FileNode? && n.mode == MODE_444) }

  ghost predicate AllImmutable(nodes: Nodes) { forall p :: p in nodes ==> Immutable(nodes[p]) }

  function ImmutableMode(executable: bool): nat { if executable then MODE_555 else MODE_444 }

  /** Whether any of the three execute bits is set. */
  predicate Executes(mode: nat) { mode % 2 == 1 || mode / 8 % 2 == 1 || mode / 64 % 2 == 1 }

  /** What a faithful walk reports for one node. */
  function EntryFor(path: string, node: Node, hash: Hash): SourceEntry {
    match node
    case DirectoryNode(_) => SourceEntry(path, Directory)
    case FileNode(content, mode) => SourceEntry(path, File(|content|, hash(content), Executes(mode)))
  }

  /** `list` is the complete, sorted account of `nodes`. */
  ghost predicate Lists(list: seq<SourceEntry>, nodes: Nodes, hash: Hash) {
    && StrictlySorted(list)
    && (forall e :: e in list ==> e.path in nodes && e == EntryFor(e.path, nodes[e.path], hash))
    && (forall p :: p in nodes ==> EntryFor(p, nodes[p], hash) in list)
  }

  lemma {:induction false} InsertKeeps(e: SourceEntry, s: seq<SourceEntry>)
    requires StrictlySorted(s) && forall x :: x in s ==> x.path != e.path
    ensures StrictlySorted(Insert(e, s))
    ensures forall x :: x in Insert(e, s) <==> x in s || x == e
  {
    assert Sorted(s) by {
      forall i, j | 0 <= i < j < |s| ensures !Before(s[j].path, s[i].path) {
        if Before(s[j].path, s[i].path) {
          BeforeTransitive(s[i].path, s[j].path, s[i].path);
          BeforeIrreflexive(s[i].path);
        }
      }
    }
    var r := Insert(e, s);
    InsertSorted(e, s);
    assert DistinctPaths([e] + s) by {
      forall i, j | 0 <= i < j < |s| ensures s[i].path != s[j].path {
        BeforeIrreflexive(s[i].path);
      }
    }
    assert multiset([e] + s) == multiset(r);
    DistinctIsMultiset([e] + s, r);
    StrictWhenDistinct(r);
    forall x ensures x in r <==> x in s || x == e {
      assert x in r <==> x in multiset(r);
      assert x in s <==> x in multiset(s);
    }
  }

  /**
   `collect_source` over a tree nobody else can touch: it is complete, or it
   refuses because a bound is exceeded.
   */
  method CollectNodes(nodes: Nodes, bounds: Bounds, hash: Hash)
    returns (list: Result<seq<SourceEntry>, CacheError>)
    ensures list.Ok? ==> Lists(list.value, nodes, hash) && FitsBounds(list.value, bounds)
    ensures list.Err? ==> Ordinary(list.error) && exists l :: Lists(l, nodes, hash) && !FitsBounds(l, bounds)
  {
    var rest := nodes.Keys;
    var found: seq<SourceEntry> := [];
    while rest != {}
      invariant rest <= nodes.Keys
      invariant StrictlySorted(found)
      invariant forall e :: e in found ==> e.path in nodes && e.path !in rest && e == EntryFor(e.path, nodes[e.path], hash)
      invariant forall p :: p in nodes && p !in rest ==> EntryFor(p, nodes[p], hash) in found
      decreases |rest|
    {
      var p :| p in rest;
      InsertKeeps(EntryFor(p, nodes[p], hash), found);
      found := Insert(EntryFor(p, nodes[p], hash), found);
      rest := rest - {p};
    }
    if FitsBounds(found, bounds) {
      return Ok(found);
    }
    assert Lists(found, nodes, hash);
    return Err(AggregateSize);
  }

  /** Trees that differ in write bits at most. */
  ghost predicate SameListing(a: Nodes, b: Nodes, hash: Hash) {
    a.Keys == b.Keys && forall p :: p in a ==> EntryFor(p, b[p], hash) == EntryFor(p, a[p], hash)
  }

  lemma SameLists(list: seq<SourceEntry>, a: Nodes, b: Nodes, hash: Hash)
    requires Lists(list, a, hash) && SameListing(a, b, hash)
    ensures Lists(list, b, hash)
  {
    hide StrictlySorted;
  }

  lemma OneMoreListed(rest: seq<SourceEntry>, nodes: Nodes, p: string, hash: Hash)
    requires p in nodes && Lists(rest, nodes - {p}, hash)
    ensures Lists(Insert(EntryFor(p, nodes[p], hash), rest), nodes, hash)
  {
    var e := EntryFor(p, nodes[p], hash);
    InsertKeeps(e, rest);
    hide StrictlySorted, Insert;
    forall q | q in nodes ensures EntryFor(q, nodes[q], hash) in Insert(e, rest) {
      if q != p { assert q in nodes - {p}; }
    }
  }

  /** The one complete, sorted account of a tree. */
  ghost function Listing(nodes: Nodes, hash: Hash): (list: seq<SourceEntry>)
    ensures Lists(list, nodes, hash)
    decreases |nodes|
  {
    hide Lists, Insert;
    if |nodes| == 0 then
      NothingListed(nodes, hash);
      []
    else
      var p :| p in nodes;
      var rest := Listing(nodes - {p}, hash);
      OneMoreListed(rest, nodes, p, hash);
      Insert(EntryFor(p, nodes[p], hash), rest)
  }

  lemma NothingListed(nodes: Nodes, hash: Hash)
    requires |nodes| == 0
    ensures Lists([], nodes, hash)
  {
  }

  lemma OnlyListing(nodes: Nodes, bounds: Bounds, hash: Hash)
    requires exists l :: Lists(l, nodes, hash) && !FitsBounds(l, bounds)
    ensures !FitsBounds(Listing(nodes, hash), bounds)
  {
    hide FitsBounds, Lists;
    var l :| Lists(l, nodes, hash) && !FitsBounds(l, bounds);
    ListingIs(l, nodes, hash);
  }

  lemma ListingIs(list: seq<SourceEntry>, nodes: Nodes, hash: Hash)
    requires Lists(list, nodes, hash)
    ensures list == Listing(nodes, hash)
  {
    hide Listing, StrictlySorted;
    StrictlySortedUnique(list, Listing(nodes, hash));
  }

  function Slashes(path: string): nat {
    if |path| == 0 then 0 else (if path[0] == '/' then 1 else 0) + Slashes(path[1..])
  }

  predicate EntryFits(e: SourceEntry, bounds: Bounds) {
    match e.kind
    case File(size, _, _) => size <= bounds.maxFileBytes
    case Directory => Slashes(e.path) < MAX_DEPTH
  }

  predicate FitsBounds(list: seq<SourceEntry>, bounds: Bounds) {
    && Within(CountAll(Tally(0, 0, 0), list), bounds)
    && forall i :: 0 <= i < |list| ==> EntryFits(list[i], bounds)
  }

  // ---------- Validating a plan ----------

  const MAX_MANIFEST: nat := 4096
  const MAX_FILE_BYTES: nat := 8 * 1024 * 1024 * 1024
  const MAX_CACHE_BYTES: nat := 64 * 1024 * 1024 * 1024
  const MAX_PATH_BYTES: nat := 4096

  function Parts(path: string): (parts: seq<string>)
    ensures |parts| > 0
  {
    if |path| == 0 then [""]
    else
      var rest := Parts(path[1..]);
      if path[0] == '/' then [""] + rest else [[path[0]] + rest[0]] + rest[1..]
  }

  predicate SafeRelative(path: string) {
    && |path| > 0 && path[0] != '/' && '\0' !in path
    && forall i :: 0 <= i < |Parts(path)| ==> Parts(path)[i] !in ["", ".", ".."]
  }

  function Declared(manifest: seq<ManifestEntry>): nat {
    if |manifest| == 0 then 0 else manifest[0].size + Declared(manifest[1..])
  }

  predicate ValidPlan(plan: Plan) {
    && 0 < plan.bounds.maxFiles <= MAX_MANIFEST
    && 0 < plan.bounds.maxFileBytes <= MAX_FILE_BYTES
    && 0 < plan.bounds.maxCacheBytes <= MAX_CACHE_BYTES
    && |plan.manifest| <= MAX_MANIFEST
    && (forall i :: 0 <= i < |plan.manifest| ==>
          var m := plan.manifest[i];
          |m.path| <= MAX_PATH_BYTES && SafeRelative(m.path) && DigestShape(m.checksum)
          && m.size <= plan.bounds.maxFileBytes)
    && (forall i, j :: 0 <= i < j < |plan.manifest| ==> plan.manifest[i].path != plan.manifest[j].path)
    && Declared(plan.manifest) <= plan.bounds.maxCacheBytes
    && ValidProvenance(plan.provenance)
    && (forall i, j :: 0 <= i < j < |plan.provenance.sources| ==>
          plan.provenance.sources[i] != plan.provenance.sources[j])
  }

  // ---------- What a published generation is ----------

  /** A fresh generation holds exactly the declared files, immutable and within every bound. */
  ghost predicate Exact(g: Nodes, plan: Plan, snapshot: seq<SourceEntry>, hash: Hash) {
    && (forall p :: p in g && g[p].FileNode? ==> exists i :: 0 <= i < |plan.manifest| && plan.manifest[i].path == p)
    && (forall i :: 0 <= i < |plan.manifest| ==>
          var m := plan.manifest[i];
          && m.path in g && g[m.path].FileNode?
          && |g[m.path].content| == m.size && hash(g[m.path].content) == m.checksum)
    && (forall p :: (p in g && g[p].DirectoryNode?) <==> SourceEntry(p, Directory) in snapshot)
    && AllImmutable(g)
    && Lists(snapshot, g, hash)
    && FitsBounds(snapshot, plan.bounds)
  }

  lemma {:induction false} FilesOfSorted(list: seq<SourceEntry>)
    requires DistinctPaths(list)
    ensures forall e :: e in list && e.kind.File? ==>
              e.path in FilesOf(list) && FilesOf(list)[e.path] == (e.kind.size, e.kind.checksum)
    ensures forall p :: p in FilesOf(list) ==> exists e :: e in list && e.kind.File? && e.path == p
  {
    if |list| > 0 {
      var front, last := list[..|list| - 1], list[|list| - 1];
      FilesOfSorted(front);
      assert list == front + [last];
      forall p | p in FilesOf(list) ensures exists e :: e in list && e.kind.File? && e.path == p {
        if last.kind.File? && last.path == p {
          assert last in list;
        } else {
          assert p in FilesOf(front);
          var e :| e in front && e.kind.File? && e.path == p;
          assert e in list;
        }
      }
    }
  }

  lemma StrictIsDistinct(list: seq<SourceEntry>)
    requires StrictlySorted(list)
    ensures DistinctPaths(list)
  {
    forall i, j | 0 <= i < j < |list| ensures list[i].path != list[j].path {
      BeforeIrreflexive(list[i].path);
    }
  }

  /** A verified staging tree with normalized modes is an exact generation. */
  lemma VerifiedIsExact(g: Nodes, plan: Plan, snapshot: seq<SourceEntry>, hash: Hash)
    requires Lists(snapshot, g, hash) && FitsBounds(snapshot, plan.bounds)
    requires Matches(FilesOf(snapshot), plan.manifest)
    requires AllImmutable(g)
    ensures Exact(g, plan, snapshot, hash)
  {
    StrictIsDistinct(snapshot);
    FilesOfSorted(snapshot);
    forall p | p in g && g[p].FileNode?
      ensures exists i :: 0 <= i < |plan.manifest| && plan.manifest[i].path == p
    {
      var e := EntryFor(p, g[p], hash);
      assert e in snapshot && e.path in FilesOf(snapshot);
    }
    forall i | 0 <= i < |plan.manifest|
      ensures var m := plan.manifest[i];
              && m.path in g && g[m.path].FileNode?
              && |g[m.path].content| == m.size && hash(g[m.path].content) == m.checksum
    {
      var m := plan.manifest[i];
      assert m.path in FilesOf(snapshot);
      var e :| e in snapshot && e.kind.File? && e.path == m.path;
    }
    forall p ensures (p in g && g[p].DirectoryNode?) <==> SourceEntry(p, Directory) in snapshot {
      if p in g && g[p].DirectoryNode? {
        assert EntryFor(p, g[p], hash) in snapshot;
      }
    }
  }

  /** A tree that verifies to an identity has exactly that identity's entries, or the hash has collided. */
  lemma ReuseSawSameContent(g: Nodes, a: seq<SourceEntry>, b: seq<SourceEntry>, p: Provenance, hash: Hash)
    requires ValidProvenance(p) && Encodable(IdentityFields(a, p)) && Encodable(IdentityFields(b, p))
    requires Lists(a, g, hash) && hash(IdentityBytes(a, p)) == hash(IdentityBytes(b, p))
    ensures (a == b && Lists(b, g, hash)) || IdentityBytes(a, p) != IdentityBytes(b, p)
  {
    if IdentityBytes(a, p) == IdentityBytes(b, p) { IdentityBytesInjective(a, p, b, p); }
  }
}
