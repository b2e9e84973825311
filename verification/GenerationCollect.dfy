/**
 `collect_source`: one bounded walk of a Cargo home.

 The source may be edited between any two reads, so a walk is given not a
 directory but everything it happened to observe: an arbitrary tree. Two walks
 of the same source may observe unrelated trees.
 */
module GenerationCollect {
  import opened Sequences
  import opened Options
  import opened GenerationIdentity
  import opened GenerationOrder

  datatype CacheError =
    | InvalidPlan | FileCount | FileSize | AggregateSize | DirectoryCount | DirectoryDepth
    | SourceSymlink | SourceHardLink | SourceNonRegular | SourceReplaced
    | MissingFile | SizeMismatch | ChecksumMismatch | UnlistedFile | StagedChecksumMismatch
    | GenerationCollision | Cleanup | Io

  /** Errors that are neither a collision nor a failed cleanup. */
  predicate Ordinary(error: CacheError) { error != GenerationCollision && error != Cleanup }

  /**
   What `fstatat`, `openat`, `fstat` and the streamed hash said about one name.
   A file's checksum is absent when it was replaced, grew past the bound or
   could not be read; a directory is not intact when it was replaced.
   */
  datatype Observed =
    | Unreadable | Link | Special
    | ObservedFile(links: nat, size: nat, executable: bool, checksum: Option<string>)
    | ObservedDirectory(intact: bool, children: seq<(string, Observed)>)

  datatype Bounds = Bounds(maxFiles: nat, maxFileBytes: nat, maxCacheBytes: nat)

  const MAX_DIRECTORIES: nat := 4096
  const MAX_DEPTH: nat := 64

  function Join(prefix: string, name: string): string {
    if |prefix| == 0 then name else prefix + "/" + name
  }

  // ---------- What a walk lists ----------

  /** The entries of one observed name, a directory before its contents. */
  function Item(child: (string, Observed), prefix: string): seq<SourceEntry>
    decreases child, 0
  {
    var path := Join(prefix, child.0);
    match child.1
    case ObservedFile(_, size, executable, checksum) =>
      [SourceEntry(path, File(size, if checksum.Some? then checksum.value else "", executable))]
    case ObservedDirectory(_, children) => [SourceEntry(path, Directory)] + EntriesOf(children, path)
    case _ => []
  }

  function EntriesOf(children: seq<(string, Observed)>, prefix: string): seq<SourceEntry>
    decreases children, 1
  {
    if |children| == 0 then []
    else EntriesOf(children[..|children| - 1], prefix) + Item(children[|children| - 1], prefix)
  }

  // ---------- When a walk accepts ----------

  /** Only single-link regular files and directories, no file too large, none too deep. */
  predicate SoundEntry(child: (string, Observed), bounds: Bounds, depth: nat)
    decreases child, 0
  {
    match child.1
    case ObservedFile(links, size, _, checksum) => links == 1 && size <= bounds.maxFileBytes && checksum.Some?
    case ObservedDirectory(intact, children) => intact && Sound(children, bounds, depth + 1)
    case _ => false
  }

  predicate Sound(children: seq<(string, Observed)>, bounds: Bounds, depth: nat)
    decreases children, 1
  {
    depth <= MAX_DEPTH && forall i :: 0 <= i < |children| ==> SoundEntry(children[i], bounds, depth)
  }

  datatype Tally = Tally(files: nat, directories: nat, total: nat)

  function Count(t: Tally, e: SourceEntry): Tally {
    match e.kind
    case Directory => t.(directories := t.directories + 1)
    case File(size, _, _) => t.(files := t.files + 1, total := t.total + size)
  }

  function CountAll(t: Tally, entries: seq<SourceEntry>): Tally {
    if |entries| == 0 then t else Count(CountAll(t, entries[..|entries| - 1]), entries[|entries| - 1])
  }

  predicate Within(t: Tally, bounds: Bounds) {
    t.files <= bounds.maxFiles && t.directories <= MAX_DIRECTORIES && t.total <= bounds.maxCacheBytes
  }

  lemma {:induction false} CountAppend(t: Tally, a: seq<SourceEntry>, b: seq<SourceEntry>)
    ensures CountAll(t, a + b) == CountAll(CountAll(t, a), b)
    ensures CountAll(t, a).files <= CountAll(t, a + b).files
    ensures CountAll(t, a).directories <= CountAll(t, a + b).directories
    ensures CountAll(t, a).total <= CountAll(t, a + b).total
    decreases |b|
  {
    if |b| == 0 {
      assert a + b == a;
    } else {
      CountAppend(t, a, b[..|b| - 1]);
      assert (a + b)[..|a + b| - 1] == a + b[..|b| - 1];
    }
  }

  /** What a walk would have counted after the first `i` names can only grow. */
  lemma {:induction false} CountGrows(t: Tally, children: seq<(string, Observed)>, prefix: string, i: nat)
    requires i <= |children|
    ensures var some, all := CountAll(t, EntriesOf(children[..i], prefix)), CountAll(t, EntriesOf(children, prefix));
            some.files <= all.files && some.directories <= all.directories && some.total <= all.total
    decreases |children| - i
  {
    if i == |children| {
      assert children[..i] == children;
    } else {
      CountGrows(t, children, prefix, i + 1);
      assert children[..i + 1][..i] == children[..i];
      CountAppend(t, EntriesOf(children[..i], prefix), Item(children[i], prefix));
    }
  }

  lemma OneMore(children: seq<(string, Observed)>, prefix: string, i: nat)
    requires i < |children|
    ensures EntriesOf(children[..i + 1], prefix) == EntriesOf(children[..i], prefix) + Item(children[i], prefix)
  {
    assert children[..i + 1][..i] == children[..i];
  }

  lemma CountOne(t: Tally, e: SourceEntry)
    ensures CountAll(t, [e]) == Count(t, e)
  {
    assert [e][..0] == [];
  }

  /** A directory counts before its contents, and its contents can only add to that. */
  lemma DirectoryCounts(t: Tally, e: SourceEntry, contents: seq<SourceEntry>)
    ensures CountAll(t, [e] + contents) == CountAll(Count(t, e), contents)
    ensures Count(t, e).directories <= CountAll(t, [e] + contents).directories
  {
    hide CountAll;
    CountOne(t, e);
    CountAppend(t, [e], contents);
  }

  lemma NothingYet(t: Tally, listed: seq<SourceEntry>, children: seq<(string, Observed)>, prefix: string)
    ensures listed == listed + EntriesOf(children[..0], prefix) && t == CountAll(t, EntriesOf(children[..0], prefix))
  {
  }

  /** The next name: what it adds to the entries and to the counters, which only grow. */
  lemma OneMoreName(t: Tally, listed: seq<SourceEntry>, children: seq<(string, Observed)>, prefix: string, i: nat)
    requires i < |children|
    ensures var done, item := EntriesOf(children[..i], prefix), Item(children[i], prefix);
            && listed + EntriesOf(children[..i + 1], prefix) == listed + done + item
            && CountAll(t, EntriesOf(children[..i + 1], prefix)) == CountAll(CountAll(t, done), item)
    ensures var some, all := CountAll(t, EntriesOf(children[..i + 1], prefix)), CountAll(t, EntriesOf(children, prefix));
            some.files <= all.files && some.directories <= all.directories && some.total <= all.total
  {
    hide EntriesOf, Item, CountAll;
    OneMore(children, prefix, i);
    Associates(listed, EntriesOf(children[..i], prefix), Item(children[i], prefix));
    CountAppend(t, EntriesOf(children[..i], prefix), Item(children[i], prefix));
    CountGrows(t, children, prefix, i + 1);
  }

  // ---------- The walk ----------

  /** `CollectionState`: the entries so far and three counters, checked as they grow. */
  class Collection {
    var entries: seq<SourceEntry>
    var files: nat
    var directories: nat
    var total: nat

    constructor ()
      ensures entries == [] && Tallied() == Tally(0, 0, 0)
      ensures forall bounds :: Within(Tallied(), bounds)
    {
      entries, files, directories, total := [], 0, 0, 0;
    }

    function Tallied(): Tally
      reads this
    {
      Tally(files, directories, total)
    }

    /**
     `collect_directory`: accepts exactly when every name is sound and the
     counters, early checks included, end within their bounds.
     */
    method CollectDirectory(children: seq<(string, Observed)>, prefix: string, bounds: Bounds, depth: nat)
      returns (error: Option<CacheError>)
      requires Within(Tallied(), bounds)
      modifies this
      ensures error.None? <==> Sound(children, bounds, depth)
                               && Within(CountAll(old(Tallied()), EntriesOf(children, prefix)), bounds)
      ensures error.None? ==> entries == old(entries) + EntriesOf(children, prefix)
      ensures error.None? ==> Tallied() == CountAll(old(Tallied()), EntriesOf(children, prefix))
      decreases children, 1
    {
      hide EntriesOf, CountAll, Item, SoundEntry;
      if depth > MAX_DEPTH {
        return Some(DirectoryDepth);
      }
      ghost var start, listed := Tallied(), entries;
      var i := 0;
      NothingYet(start, listed, children, prefix);
      while i < |children|
        invariant 0 <= i <= |children|
        invariant forall k :: 0 <= k < i ==> SoundEntry(children[k], bounds, depth)
        invariant entries == listed + EntriesOf(children[..i], prefix)
        invariant Tallied() == CountAll(start, EntriesOf(children[..i], prefix))
        invariant Within(Tallied(), bounds)
      {
        OneMoreName(start, listed, children, prefix, i);
        error := CollectEntry(children[i], prefix, bounds, depth);
        if error.Some? {
          return;
        }
        i := i + 1;
      }
      assert children[..i] == children;
      return None;
    }

    /** One name of the listing. */
    method CollectEntry(child: (string, Observed), prefix: string, bounds: Bounds, depth: nat)
      returns (error: Option<CacheError>)
      requires Within(Tallied(), bounds)
      modifies this
      ensures error.None? <==> SoundEntry(child, bounds, depth)
                               && Within(CountAll(old(Tallied()), Item(child, prefix)), bounds)
      ensures error.None? ==> entries == old(entries) + Item(child, prefix)
      ensures error.None? ==> Tallied() == CountAll(old(Tallied()), Item(child, prefix))
      decreases child, 0
    {
      hide EntriesOf, CountAll, Sound, Join;
      var path := Join(prefix, child.0);
      match child.1
      case Unreadable => return Some(Io);
      case Link => return Some(SourceSymlink);
      case Special => return Some(SourceNonRegular);
      case ObservedDirectory(intact, children) =>
        var entry := SourceEntry(path, Directory);
        DirectoryCounts(Tallied(), entry, EntriesOf(children, path));
        Associates(entries, [entry], EntriesOf(children, path));
        directories := directories + 1;
        if directories > MAX_DIRECTORIES {
          return Some(DirectoryCount);
        }
        if !intact {
          return Some(SourceReplaced);
        }
        entries := entries + [entry];
        error := CollectDirectory(children, path, bounds, depth + 1);
      case ObservedFile(links, size, executable, checksum) =>
        CountOne(Tallied(), SourceEntry(path, File(size, if checksum.Some? then checksum.value else "", executable)));
        if links != 1 {
          return Some(SourceHardLink);
        }
        files := files + 1;
        if files > bounds.maxFiles {
          return Some(FileCount);
        }
        if size > bounds.maxFileBytes {
          return Some(FileSize);
        }
        total := total + size;
        if total > bounds.maxCacheBytes {
          return Some(AggregateSize);
        }
        if checksum.None? {
          return Some(SourceReplaced);
        }
        entries := entries + [SourceEntry(path, File(size, checksum.value, executable))];
        return None;
    }
  }

  /** The snapshot a walk returns, when it returns one. */
  predicate Accepts(root: seq<(string, Observed)>, bounds: Bounds) {
    Sound(root, bounds, 0) && Within(CountAll(Tally(0, 0, 0), EntriesOf(root, "")), bounds)
  }

  method CollectSource(root: seq<(string, Observed)>, bounds: Bounds)
    returns (snapshot: Result<seq<SourceEntry>, CacheError>)
    ensures snapshot.Ok? <==> Accepts(root, bounds)
    ensures snapshot.Ok? ==> snapshot.value == Sort(EntriesOf(root, ""))
  {
    hide Sound, EntriesOf, CountAll, Within;
    var state := new Collection();
    var error := state.CollectDirectory(root, "", bounds, 0);
    if error.Some? {
      return Err(error.value);
    }
    assert state.entries == EntriesOf(root, "");
    return Ok(Sort(state.entries));
  }
}
