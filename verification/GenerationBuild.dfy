/**
 `promote`: from an untrusted, still editable Cargo home to one immutable,
 content-named generation, as one of many promoters.
 */
module GenerationBuild {
  import opened Options
  import opened GenerationIdentity
  import opened GenerationOrder
  import opened GenerationCollect
  import opened GenerationTree
  import opened GenerationListing
  import opened GenerationWalk
  import opened GenerationStage
  import opened GenerationStore

  // ---------- What the protocol stands for ----------

  /** The published trees as the other promoters know them: by their listings. */
  ghost function Listings(published: map<string, Nodes>, hash: Hash): map<string, Content> {
    map n | n in published :: Listing(published[n], hash)
  }

  lemma PublishedListing(published: map<string, Nodes>, name: string, nodes: Nodes, list: Content, hash: Hash)
    requires Lists(list, nodes, hash)
    ensures Listings(published[name := nodes], hash) == Listings(published, hash)[name := list]
  {
    hide Lists, Listing;
    ListingIs(list, nodes, hash);
  }

  lemma GrownListings(a: map<string, Nodes>, b: map<string, Nodes>, hash: Hash)
    requires forall n :: n in a ==> n in b && b[n] == a[n]
    ensures Grows(Listings(a, hash), Listings(b, hash))
  {
    hide Listing;
  }

  /** The protocol's view of one promoter stands for what is on disk. */
  ghost predicate Stands(s: State, hash: Hash, published: map<string, Nodes>, staging: Option<Nodes>) {
    && Inv(s) && s.procs.Keys == {ME} && s.hash == hash && s.published == Listings(published, hash)
    && (ME in s.staging <==> staging.Some?)
    && (s.procs[ME].at.Built? || s.procs[ME].at.Hardened? ==>
          staging.Some? && Lists(s.procs[ME].entries, staging.value, hash))
  }

  /** The staging tree may be anything while it is filled; after that only its modes may change. */
  lemma StagingStands(s: State, hash: Hash, published: map<string, Nodes>, a: Nodes, b: Nodes)
    requires Stands(s, hash, published, Some(a))
    requires s.procs[ME].at.Built? || s.procs[ME].at.Hardened? ==> SameListing(a, b, hash)
    ensures Stands(s, hash, published, Some(b))
  {
    hide Inv, Listings;
  }

  lemma ArrivingStands(hash: Hash, published: map<string, Nodes>, entries: Content, p: Provenance)
    requires ValidProvenance(p)
    ensures Stands(Arriving(hash, Listings(published, hash), entries, p), hash, published, None)
  {
    hide NameOf, ValidProvenance, Listings;
  }

  lemma StartStands(s: State, hash: Hash, published: map<string, Nodes>, nodes: Nodes) returns (t: State)
    requires Stands(s, hash, published, None) && s.procs[ME].at.Starting?
    ensures Step(s, ME, Advance) == Some(t) && Stands(t, hash, published, Some(nodes))
    ensures t.procs[ME] == s.procs[ME].(at := Filling)
  {
    hide Inv, NameOf, Listings;
    StepKeeps(s, ME, Advance);
    t := Step(s, ME, Advance).value;
  }

  lemma NoStartStands(s: State, hash: Hash, published: map<string, Nodes>) returns (t: State)
    requires Stands(s, hash, published, None) && s.procs[ME].at.Starting?
    ensures Step(s, ME, Fail) == Some(t) && Stands(t, hash, published, None)
    ensures t.procs[ME] == s.procs[ME].(at := Returned(Failed))
  {
    hide Inv, NameOf, Listings;
    StepKeeps(s, ME, Fail);
    t := Step(s, ME, Fail).value;
  }

  lemma FailureStands(s: State, hash: Hash, published: map<string, Nodes>, staging: Option<Nodes>)
    returns (t: State)
    requires Stands(s, hash, published, staging)
    requires s.procs[ME].at.Filling? || s.procs[ME].at.Built? || s.procs[ME].at.Hardened?
    ensures Step(s, ME, Fail) == Some(t) && Stands(t, hash, published, staging)
    ensures t.procs[ME] == s.procs[ME].(at := Cleaning(Failed))
  {
    hide Inv, NameOf, Listings, Lists;
    StepKeeps(s, ME, Fail);
    t := Step(s, ME, Fail).value;
  }

  lemma BuiltStands(s: State, hash: Hash, published: map<string, Nodes>, nodes: Nodes) returns (t: State)
    requires Stands(s, hash, published, Some(nodes))
    requires s.procs[ME].at.Filling? && Lists(s.procs[ME].entries, nodes, hash)
    ensures Step(s, ME, Advance) == Some(t) && Stands(t, hash, published, Some(nodes))
    ensures t.procs[ME] == s.procs[ME].(at := Built)
  {
    hide Inv, NameOf, Listings, Lists;
    StepKeeps(s, ME, Advance);
    t := Step(s, ME, Advance).value;
  }

  lemma HardenedStands(s: State, hash: Hash, published: map<string, Nodes>, nodes: Nodes) returns (t: State)
    requires Stands(s, hash, published, Some(nodes))
    requires s.procs[ME].at.Built? && NameOf(hash, s.procs[ME]) !in published
    ensures Step(s, ME, Advance) == Some(t) && Stands(t, hash, published, Some(nodes))
    ensures t.procs[ME] == s.procs[ME].(at := Hardened)
  {
    hide Inv, NameOf, Lists, Step;
    HardenedStep(s);
    StepKeeps(s, ME, Advance);
    t := Step(s, ME, Advance).value;
  }

  lemma ComparedStands(s: State, hash: Hash, published: map<string, Nodes>, staging: Option<Nodes>)
    returns (t: State)
    requires Stands(s, hash, published, staging)
    requires (s.procs[ME].at.Built? || s.procs[ME].at.Hardened?) && NameOf(hash, s.procs[ME]) in published
    ensures Step(s, ME, Advance) == Some(t) && Stands(t, hash, published, staging)
    ensures var there := Listing(published[NameOf(hash, s.procs[ME])], hash);
            t.procs[ME] == s.procs[ME].(at := Compare(hash, there, s.procs[ME]))
  {
    hide Inv, NameOf, Lists, Listing, Step, Compare;
    ComparedStep(s);
    StepKeeps(s, ME, Advance);
    t := Step(s, ME, Advance).value;
  }

  lemma PublishedStands(s: State, hash: Hash, published: map<string, Nodes>, nodes: Nodes) returns (t: State)
    requires Stands(s, hash, published, Some(nodes))
    requires s.procs[ME].at.Hardened? && NameOf(hash, s.procs[ME]) !in published
    ensures Step(s, ME, Advance) == Some(t)
    ensures Stands(t, hash, published[NameOf(hash, s.procs[ME]) := nodes], None)
    ensures t.procs[ME] == s.procs[ME].(at := Returned(Fresh))
  {
    hide Inv, NameOf, Lists, Listing, Step;
    StagedIsOwn(s);
    PublishedStep(s);
    StepKeeps(s, ME, Advance);
    PublishedListing(published, NameOf(hash, s.procs[ME]), nodes, s.procs[ME].entries, hash);
    t := Step(s, ME, Advance).value;
  }

  lemma CleanedStands(s: State, hash: Hash, published: map<string, Nodes>, staging: Option<Nodes>)
    returns (t: State)
    requires Stands(s, hash, published, staging) && s.procs[ME].at.Cleaning?
    ensures Step(s, ME, Advance) == Some(t) && Stands(t, hash, published, None)
    ensures t.procs[ME] == s.procs[ME].(at := Returned(s.procs[ME].at.verdict))
  {
    hide Inv, NameOf, Listings, Lists;
    StepKeeps(s, ME, Advance);
    t := Step(s, ME, Advance).value;
  }

  lemma KeptStands(s: State, hash: Hash, published: map<string, Nodes>, staging: Option<Nodes>)
    returns (t: State)
    requires Stands(s, hash, published, staging) && s.procs[ME].at.Cleaning?
    ensures Step(s, ME, Fail) == Some(t) && Stands(t, hash, published, staging)
    ensures t.procs[ME] == s.procs[ME].(at := Returned(CleanupFailed))
  {
    hide Inv, NameOf, Listings, Lists;
    StepKeeps(s, ME, Fail);
    t := Step(s, ME, Fail).value;
  }

  lemma OthersStand(s: State, hash: Hash, a: map<string, Nodes>, b: map<string, Nodes>, staging: Option<Nodes>)
    requires Stands(s, hash, a, staging) && forall n :: n in a ==> n in b && b[n] == a[n]
    ensures var t := s.(published := Listings(b, hash));
            Stands(t, hash, b, staging) && Follows(s, t) && t.procs == s.procs
  {
    hide Inv, Lists, Listings, Grows, Step;
    var t := s.(published := Listings(b, hash));
    GrownListings(a, b, hash);
    OthersKeep(s, t);
  }

  // ---------- Promotion ----------

  datatype Durability = Synced | ParentSyncUnknown

  datatype PublishedGeneration = PublishedGeneration(name: string, identity: string, durability: Durability,
                                                     reused: bool)

  /** What the outcome of a promotion is to the other promoters. */
  function VerdictOf(r: Result<PublishedGeneration, CacheError>): Verdict {
    match r
    case Ok(g) => if g.reused then Reused else Fresh
    case Err(GenerationCollision) => Refused
    case Err(Cleanup) => CleanupFailed
    case Err(_) => Failed
  }

  // ---------- When a promotion succeeds ----------

  /**
   What the file system answers, and what others publish meanwhile: nodes that
   cannot be made, nodes whose mode cannot be changed, and generations that
   appear before the first and before the second look for the name.
   */
  datatype Host = Host(made: bool, blocked: set<string>, early: map<string, Nodes>, readable: bool,
                       stubborn: set<string>, flushed: bool, late: map<string, Nodes>, renamed: bool, synced: bool,
                       cleaned: bool)

  /** A generation that re-identifies as expected, within the bounds. */
  ghost predicate Reusable(nodes: Nodes, plan: Plan, expected: Digest, hash: Hash) {
    && FitsBounds(Listing(nodes, hash), plan.bounds)
    && hash(IdentityBytes(Listing(nodes, hash), plan.provenance)) == expected
  }

  /** The name is free and the rename works, or what stands there can be reused. */
  ghost predicate Nameable(host: Host, published: map<string, Nodes>, plan: Plan, identity: Digest, hash: Hash) {
    var name := GenerationName(identity);
    if name in published then host.readable && Reusable(published[name], plan, identity, hash) else host.renamed
  }

  ghost predicate Publishable(host: Host, published: map<string, Nodes>, plan: Plan, snapshot: seq<SourceEntry>,
                              hash: Hash)
  {
    var identity := hash(IdentityBytes(snapshot, plan.provenance));
    var now := host.early + published;
    if GenerationName(identity) in now then Nameable(host, now, plan, identity, hash)
    else host.flushed && Free(snapshot, host.stubborn) && Nameable(host, host.late + now, plan, identity, hash)
  }

  /** Every copy yields what was hashed, nothing is in its way, and a second walk sees the same. */
  ghost predicate Stageable(host: Host, plan: Plan, snapshot: seq<SourceEntry>, copies: map<string, string>,
                            second: seq<(string, Observed)>, hash: Hash)
  {
    && CopiesFit(snapshot, copies, plan.bounds, hash) && Free(snapshot, host.blocked)
    && Accepts(second, plan.bounds) && Sort(EntriesOf(second, "")) == snapshot
  }

  /** When a promotion succeeds: a reused generation also needs its staging tree removed. */
  ghost predicate Promotable(host: Host, published: map<string, Nodes>, plan: Plan, first: seq<(string, Observed)>,
                             copies: map<string, string>, second: seq<(string, Observed)>, hash: Hash)
  {
    var snapshot := Sort(EntriesOf(first, ""));
    && ValidPlan(plan) && Accepts(first, plan.bounds) && Matches(FilesOf(snapshot), plan.manifest) && host.made
    && Stageable(host, plan, snapshot, copies, second, hash) && Publishable(host, published, plan, snapshot, hash)
    && (Taken(host, published, plan, snapshot, hash) ==> host.cleaned)
  }

  /** Someone has published the name by the time it is needed. */
  ghost predicate Taken(host: Host, published: map<string, Nodes>, plan: Plan, snapshot: seq<SourceEntry>, hash: Hash) {
    GenerationName(hash(IdentityBytes(snapshot, plan.provenance))) in host.late + (host.early + published)
  }

  /** No action fails. */
  predicate Calm(host: Host) {
    && host.made && host.blocked == {} && host.readable && host.stubborn == {} && host.flushed && host.renamed
    && host.cleaned
  }

  /**
   What is valid and stays as it is can always be promoted: a valid plan, a
   source that is accepted, agrees with the manifest and shows the same again,
   copies that yield its bytes, no failing action, and nothing but this
   content under the name.
   */
  lemma UndisturbedIsPromotable(host: Host, published: map<string, Nodes>, plan: Plan, first: seq<(string, Observed)>,
                                copies: map<string, string>, second: seq<(string, Observed)>, hash: Hash)
    requires WellNamed(first) && Calm(host) && ValidPlan(plan) && Accepts(first, plan.bounds)
    requires Accepts(second, plan.bounds) && Sort(EntriesOf(second, "")) == Sort(EntriesOf(first, ""))
    requires var snapshot := Sort(EntriesOf(first, ""));
             var name := GenerationName(hash(IdentityBytes(snapshot, plan.provenance)));
             var there := host.late + (host.early + published);
             && Matches(FilesOf(snapshot), plan.manifest) && CopiesFit(snapshot, copies, plan.bounds, hash)
             && (name in there ==> Listing(there[name], hash) == snapshot)
    ensures Promotable(host, published, plan, first, copies, second, hash)
  {
    hide Sort, EntriesOf, Accepts, ValidPlan, Matches, FilesOf, CopiesFit, Listing, FitsBounds, IdentityBytes, WellNamed,
         GenerationName, Treelike;
    SnapshotIsTreelike(first, plan.bounds);
  }

  /** What a result says about the published generations. */
  ghost predicate Tells(plan: Plan, snapshot: seq<SourceEntry>, before: map<string, Nodes>, after: map<string, Nodes>,
                        r: Result<PublishedGeneration, CacheError>, hash: Hash)
  {
    && (forall n :: n in before ==> n in after && after[n] == before[n])
    && (r.Ok? ==>
          var g := r.value;
          && g.identity == hash(IdentityBytes(snapshot, plan.provenance))
          && g.name == GenerationName(g.identity) && g.name in after
          && if g.reused then
               exists l :: Lists(l, after[g.name], hash) && hash(IdentityBytes(l, plan.provenance)) == g.identity
             else g.name !in before && Exact(after[g.name], plan, snapshot, hash))
  }

  lemma ErrorTells(plan: Plan, snapshot: seq<SourceEntry>, published: map<string, Nodes>, error: CacheError, hash: Hash)
    ensures Tells(plan, snapshot, published, published, Err(error), hash)
    ensures forall before, r :: Tells(plan, snapshot, before, published, r, hash) ==>
              Tells(plan, snapshot, before, published, Err(error), hash)
  {
  }

  /** The generation parent, as one promotion sees and changes it. */
  class Store {
    const hash: Hash
    var published: map<string, Nodes>
    var staging: Option<Nodes>
    // The promotion as steps of one promoter among many, once its snapshot is accepted.
    ghost var log: seq<State>

    /** All that was done so far is a run of the protocol. */
    ghost predicate InStep()
      reads this
    {
      |log| > 0 && Chain(log) && Stands(log[|log| - 1], hash, published, staging)
    }

    ghost function Me(): Promoter
      reads this
      requires InStep()
    {
      log[|log| - 1].procs[ME]
    }

    constructor (hash: Hash)
      ensures published == map[] && staging.None? && this.hash == hash && log == []
    {
      this.hash := hash;
      published, staging, log := map[], None, [];
    }

    /** Record what the promotion just did as one step of the protocol. */
    ghost method Log(action: Action, next: State)
      requires |log| > 0 && Chain(log) && Step(log[|log| - 1], ME, action) == Some(next)
      requires Stands(next, hash, published, staging)
      modifies this`log
      ensures log == old(log) + [next] && InStep()
    {
      hide Stands, Step;
      assert Follows(log[|log| - 1], next);
      log := log + [next];
    }

    ghost method LogFailure()
      requires InStep() && (Me().at.Filling? || Me().at.Built? || Me().at.Hardened?)
      modifies this`log
      ensures InStep() && old(log) <= log && Me() == old(Me()).(at := Cleaning(Failed))
    {
      hide Chain, Stands;
      var next := FailureStands(log[|log| - 1], hash, published, staging);
      Log(Fail, next);
    }

    /** Every directory on the way to a path; a file in the way is an error. */
    method MakeAncestors(path: string, blocked: set<string>) returns (error: Option<CacheError>)
      requires staging.Some?
      modifies this`staging
      ensures staging.Some? && (error.Some? ==> Ordinary(error.value))
      ensures error.None? <==> Open(old(staging.value), path, blocked)
      ensures error.None? ==> Opened(old(staging.value), staging.value, path)
      ensures old(staging.value).Keys !! blocked ==> staging.value.Keys !! blocked
    {
      error := None;
      var i := 0;
      while i < |path| && error.None?
        invariant 0 <= i <= |path| && staging.Some? && (error.Some? ==> Ordinary(error.value))
        invariant forall p :: p in old(staging.value) ==>
                    p in staging.value && staging.value[p] == old(staging.value)[p]
        invariant forall p :: p in staging.value && p !in old(staging.value) ==>
                    |p| < i && Ancestor(p, path) && staging.value[p] == STAGED_DIRECTORY && p !in blocked
        invariant error.None? ==> forall p :: |p| < i && Ancestor(p, path) ==>
                    CanBe(old(staging.value), p, blocked) && p in staging.value
        invariant error.Some? ==> !Open(old(staging.value), path, blocked)
      {
        if path[i] == '/' {
          assert Ancestor(path[..i], path);
          error := MakeDirectory(path[..i], blocked);
        }
        i := i + 1;
      }
    }

    /** Every ancestor and then the directory itself. */
    method CreateStagingDirectory(path: string, blocked: set<string>) returns (error: Option<CacheError>)
      requires staging.Some?
      modifies this`staging
      ensures staging.Some? && (error.Some? ==> Ordinary(error.value))
      ensures error.None? <==> Open(old(staging.value), path, blocked) && CanBe(old(staging.value), path, blocked)
      ensures error.None? ==>
                exists middle :: Opened(old(staging.value), middle, path)
                                 && staging.value == if path in middle then middle else middle[path := STAGED_DIRECTORY]
      ensures old(staging.value).Keys !! blocked ==> staging.value.Keys !! blocked
    {
      error := MakeAncestors(path, blocked);
      if error.None? {
        assert !Ancestor(path, path);
        error := MakeDirectory(path, blocked);
      }
    }

    method MakeDirectory(path: string, blocked: set<string>) returns (error: Option<CacheError>)
      requires staging.Some?
      modifies this`staging
      ensures staging.Some? && (error.Some? ==> Ordinary(error.value))
      ensures error.None? <==> CanBe(old(staging.value), path, blocked)
      ensures staging.value == if path in old(staging.value) || path in blocked then old(staging.value)
                               else old(staging.value)[path := STAGED_DIRECTORY]
    {
      var nodes := staging.value;
      if path !in nodes {
        if path in blocked {
          return Some(Io);
        }
        staging := Some(nodes[path := DirectoryNode(MODE_700)]);
        return None;
      }
      return if nodes[path].DirectoryNode? then None else Some(Io);
    }

    /** Copy what the reopened source yields now, which need not be what was hashed before. */
    method CopyToStaging(e: SourceEntry, copies: map<string, string>, bounds: Bounds, blocked: set<string>)
      returns (error: Option<CacheError>)
      requires staging.Some? && e.kind.File?
      modifies this`staging
      ensures staging.Some? && (error.Some? ==> Ordinary(error.value))
      ensures error.None? <==>
                && CopyFits(e, copies, bounds, hash) && Open(old(staging.value), e.path, blocked)
                && e.path !in old(staging.value) && e.path !in blocked
      ensures error.None? ==>
                exists middle :: Opened(old(staging.value), middle, e.path)
                                 && staging.value == middle[e.path := Copied(e, copies)]
    {
      if e.path !in copies {
        return Some(SourceReplaced);
      }
      var read := copies[e.path];
      error := MakeAncestors(e.path, blocked);
      if error.Some? {
        return;
      }
      ghost var middle := staging.value;
      assert !Ancestor(e.path, e.path);
      if e.path in staging.value || e.path in blocked {
        return Some(Io);
      }
      if |read| > bounds.maxFileBytes {
        return Some(FileSize);
      }
      staging := Some(staging.value[e.path := FileNode(read, MODE_600)]);
      if |read| != e.kind.size || hash(read) != e.kind.checksum {
        return Some(ChecksumMismatch);
      }
      staging := Some(staging.value[e.path := FileNode(read, ImmutableMode(e.kind.executable))]);
      assert staging.value == middle[e.path := Copied(e, copies)];
      return None;
    }

    /** All directories of the snapshot. */
    method StageDirectories(snapshot: seq<SourceEntry>, blocked: set<string>) returns (error: Option<CacheError>)
      requires staging == Some(map[])
      modifies this`staging
      ensures staging.Some? && (error.Some? ==> Ordinary(error.value))
      ensures Treelike(snapshot) ==>
                if error.Some? then !Free(snapshot, blocked)
                else HoldsDirectories(staging.value, snapshot, |snapshot|) && staging.value.Keys !! blocked
    {
      hide Treelike, Opened, Open, Ordinary;
      error := None;
      var i := 0;
      while i < |snapshot| && error.None?
        invariant 0 <= i <= |snapshot| && staging.Some? && (error.Some? ==> Ordinary(error.value))
        invariant staging.value.Keys !! blocked
        invariant Treelike(snapshot) ==>
                    if error.Some? then !Free(snapshot, blocked) else HoldsDirectories(staging.value, snapshot, i)
      {
        ghost var before := staging.value;
        if snapshot[i].kind.Directory? {
          error := CreateStagingDirectory(snapshot[i].path, blocked);
          if Treelike(snapshot) {
            DirectoryTurn(snapshot, before, staging.value, i, blocked, error.None?);
          }
        }
        i := i + 1;
      }
    }

    /** All files of the snapshot, in a stage that holds its directories. */
    method StageFiles(snapshot: seq<SourceEntry>, copies: map<string, string>, bounds: Bounds, blocked: set<string>)
      returns (error: Option<CacheError>)
      requires staging.Some?
      modifies this`staging
      ensures staging.Some? && (error.Some? ==> Ordinary(error.value))
      ensures Treelike(snapshot) && HoldsDirectories(old(staging.value), snapshot, |snapshot|) ==>
                if error.Some? then !FilesFit(snapshot, |snapshot|, copies, bounds, blocked, hash)
                else
                  && Holds(staging.value, snapshot, copies, |snapshot|)
                  && FilesFit(snapshot, |snapshot|, copies, bounds, blocked, hash)
    {
      hide Treelike, Opened, Open, Ordinary, Holds, HoldsDirectories;
      error := None;
      ghost var ready := Treelike(snapshot) && HoldsDirectories(staging.value, snapshot, |snapshot|);
      if ready { DirectoriesDone(snapshot, staging.value, copies); }
      var i := 0;
      while i < |snapshot| && error.None?
        invariant 0 <= i <= |snapshot| && staging.Some? && (error.Some? ==> Ordinary(error.value))
        invariant ready ==>
                    if error.Some? then !FilesFit(snapshot, |snapshot|, copies, bounds, blocked, hash)
                    else
                      && Holds(staging.value, snapshot, copies, i)
                      && FilesFit(snapshot, i, copies, bounds, blocked, hash)
      {
        ghost var before := staging.value;
        if snapshot[i].kind.File? {
          error := CopyToStaging(snapshot[i], copies, bounds, blocked);
          if ready { FileTurn(snapshot, before, staging.value, copies, i, bounds, blocked, hash, error.None?); }
        } else if ready {
          DirectorySkipped(snapshot, before, copies, i);
        }
        i := i + 1;
      }
    }

    /** Directories first, then every file. */
    method FillStaging(snapshot: seq<SourceEntry>, copies: map<string, string>, bounds: Bounds, blocked: set<string>)
      returns (error: Option<CacheError>)
      requires staging == Some(map[])
      modifies this`staging
      ensures staging.Some? && (error.Some? ==> Ordinary(error.value))
      ensures Treelike(snapshot) ==>
                (error.None? <==> CopiesFit(snapshot, copies, bounds, hash) && Free(snapshot, blocked))
      ensures Treelike(snapshot) && error.None? ==> Holds(staging.value, snapshot, copies, |snapshot|)
    {
      hide Treelike, Ordinary, Holds;
      error := StageDirectories(snapshot, blocked);
      if error.None? {
        ghost var directories := staging.value;
        error := StageFiles(snapshot, copies, bounds, blocked);
        if Treelike(snapshot) { FitAndFree(snapshot, directories, copies, bounds, blocked, hash); }
      }
    }

    /**
     Every mode becomes 0555 or 0444; nothing else about the tree changes.
     The change of a mode may fail and leave the tree half done.
     */
    method MakeImmutable(stubborn: set<string>) returns (error: Option<CacheError>)
      requires staging.Some?
      modifies this`staging
      ensures staging.Some? && SameListing(old(staging.value), staging.value, hash)
      ensures error.None? <==> staging.value.Keys !! stubborn
      ensures error.None? ==> AllImmutable(staging.value)
    {
      var rest := staging.value.Keys;
      while rest != {}
        invariant staging.Some? && SameListing(old(staging.value), staging.value, hash)
        invariant rest <= staging.value.Keys && staging.value.Keys - rest !! stubborn
        invariant forall p :: p in staging.value && p !in rest ==> Immutable(staging.value[p])
        decreases |rest|
      {
        var p :| p in rest;
        if p in stubborn {
          return Some(Io);
        }
        var node := match staging.value[p]
          case DirectoryNode(_) => DirectoryNode(MODE_555)
          case FileNode(content, mode) => FileNode(content, ImmutableMode(Executes(mode)));
        staging := Some(staging.value[p := node]);
        rest := rest - {p};
      }
      error := None;
    }

    /** Other promoters may publish at any time; `RENAME_NOREPLACE` keeps them from rebinding a name. */
    method OthersPublish(others: map<string, Nodes>)
      requires InStep()
      modifies this`published, this`log
      ensures InStep() && Me() == old(Me()) && old(log) <= log
      ensures published == others + old(published)
    {
      ghost var before, last := published, log[|log| - 1];
      published := others + published;
      OthersStand(last, hash, before, published, staging);
      hide Stands, Follows;
      log := log + [last.(published := Listings(published, hash))];
    }

    /** An existing generation is reused only if its content has the expected identity. */
    method ReuseOrCollision(plan: Plan, name: string, expected: Digest, readable: bool)
      returns (r: Result<PublishedGeneration, CacheError>)
      requires InStep() && (Me().at.Built? || Me().at.Hardened?) && Me().provenance == plan.provenance
      requires expected == IdentityOf(hash, Me()) && name == GenerationName(expected) && name in published
      modifies this`log
      ensures InStep() && old(log) <= log
      ensures r.Ok? ==> r.value.reused
      ensures Me() == old(Me()).(at := Cleaning(VerdictOf(r)))
      ensures r.Ok? ==>
                && r.value == PublishedGeneration(name, expected, Synced, true)
                && exists l :: Lists(l, published[name], hash) && hash(IdentityBytes(l, plan.provenance)) == expected
      ensures r.Ok? <==> readable && Reusable(published[name], plan, expected, hash)
    {
      hide Chain, Stands, Lists, IdentityBytes, GenerationName, FitsBounds, Listing;
      if !readable {
        LogFailure();
        return Err(Io);
      }
      var entries := CollectNodes(published[name], plan.bounds, hash);
      if entries.Err? {
        OnlyListing(published[name], plan.bounds, hash);
        LogFailure();
        return Err(entries.error);
      }
      ListingIs(entries.value, published[name], hash);
      ghost var next := ComparedStands(log[|log| - 1], hash, published, staging);
      Log(Advance, next);
      if hash(IdentityBytes(entries.value, plan.provenance)) != expected {
        return Err(GenerationCollision);
      }
      return Ok(PublishedGeneration(name, expected, Synced, true));
    }

    /** The rename itself: the staging tree becomes the generation. */
    method Rename(plan: Plan, snapshot: seq<SourceEntry>, name: string)
      requires InStep() && Me() == Promoter(snapshot, plan.provenance, Hardened)
      requires Matches(FilesOf(snapshot), plan.manifest) && FitsBounds(snapshot, plan.bounds)
      requires staging.Some? && Lists(snapshot, staging.value, hash) && AllImmutable(staging.value)
      requires name == NameOf(hash, Me()) && name !in published
      modifies this
      ensures InStep() && old(log) <= log && Me() == old(Me()).(at := Returned(Fresh))
      ensures staging.None? && published == old(published)[name := old(staging).value]
      ensures Exact(published[name], plan, snapshot, hash)
    {
      hide Chain, Stands, Lists, IdentityBytes, GenerationName, Matches, Exact, FitsBounds, AllImmutable, FilesOf;
      VerifiedIsExact(staging.value, plan, snapshot, hash);
      ghost var done := PublishedStands(log[|log| - 1], hash, published, staging.value);
      published := published[name := staging.value];
      staging := None;
      Log(Advance, done);
    }

    /** Give the hardened staging tree its name, unless another promoter has published it meanwhile. */
    method RenameIntoPlace(plan: Plan, snapshot: seq<SourceEntry>, host: Host)
      returns (r: Result<PublishedGeneration, CacheError>)
      requires InStep() && Me() == Promoter(snapshot, plan.provenance, Hardened)
      requires Matches(FilesOf(snapshot), plan.manifest) && FitsBounds(snapshot, plan.bounds)
      requires staging.Some? && Lists(snapshot, staging.value, hash) && AllImmutable(staging.value)
      modifies this
      ensures InStep() && old(log) <= log && Tells(plan, snapshot, old(published), published, r, hash)
      ensures Me() == old(Me()).(at := if VerdictOf(r).Fresh? then Returned(Fresh) else Cleaning(VerdictOf(r)))
      ensures staging.None? <==> VerdictOf(r).Fresh?
      ensures var now := host.late + old(published);
              var identity := hash(IdentityBytes(snapshot, plan.provenance));
              && (r.Ok? <==> Nameable(host, now, plan, identity, hash))
              && (r.Ok? ==> (r.value.reused <==> GenerationName(identity) in now))
      ensures r.Ok? && !r.value.reused ==> (r.value.durability.Synced? <==> host.synced)
    {
      hide Chain, Stands, Lists, IdentityBytes, GenerationName, Matches, Exact, FitsBounds, AllImmutable, FilesOf;
      var identity := hash(IdentityBytes(snapshot, plan.provenance));
      var name := GenerationName(identity);
      OthersPublish(host.late);
      if name in published {
        // Another promoter published the name while this one prepared its tree.
        r := ReuseOrCollision(plan, name, identity, host.readable);
        return;
      }
      if !host.renamed {
        LogFailure();
        return Err(Io);
      }
      Rename(plan, snapshot, name);
      return Ok(PublishedGeneration(name, identity, if host.synced then Synced else ParentSyncUnknown, false));
    }

    /** The staging tree becomes immutable and is written through. */
    method Harden(plan: Plan, snapshot: seq<SourceEntry>, host: Host) returns (ok: bool)
      requires InStep() && Me() == Promoter(snapshot, plan.provenance, Built) && NameOf(hash, Me()) !in published
      requires staging.Some? && Lists(snapshot, staging.value, hash)
      modifies this`staging, this`log
      ensures InStep() && old(log) <= log && Me() == old(Me()).(at := if ok then Hardened else Cleaning(Failed))
      ensures staging.Some? && Lists(snapshot, staging.value, hash)
      ensures ok ==> AllImmutable(staging.value)
      ensures ok <==> host.flushed && Free(snapshot, host.stubborn)
    {
      hide Chain, Stands, Lists, IdentityBytes, GenerationName, AllImmutable, SameListing;
      ghost var hardened := HardenedStands(log[|log| - 1], hash, published, staging.value);
      Log(Advance, hardened);
      ghost var verified := staging.value;
      var refused := MakeImmutable(host.stubborn);
      StagingStands(log[|log| - 1], hash, published, verified, staging.value);
      SameLists(snapshot, verified, staging.value, hash);
      FreeOfKeys(snapshot, staging.value, host.stubborn, hash);
      if refused.Some? || !host.flushed {
        LogFailure();
        return false;
      }
      return true;
    }

    /** The verified staging tree is published, or an existing generation reused in its place. */
    method Publish(plan: Plan, snapshot: seq<SourceEntry>, host: Host)
      returns (r: Result<PublishedGeneration, CacheError>)
      requires InStep() && Me() == Promoter(snapshot, plan.provenance, Built)
      requires Matches(FilesOf(snapshot), plan.manifest) && FitsBounds(snapshot, plan.bounds)
      requires staging.Some? && Lists(snapshot, staging.value, hash)
      modifies this
      ensures InStep() && old(log) <= log && Tells(plan, snapshot, old(published), published, r, hash)
      ensures Me() == old(Me()).(at := if VerdictOf(r).Fresh? then Returned(Fresh) else Cleaning(VerdictOf(r)))
      ensures staging.None? <==> VerdictOf(r).Fresh?
      ensures r.Ok? <==> Publishable(host, old(published), plan, snapshot, hash)
      ensures r.Ok? ==> (r.value.reused <==> Taken(host, old(published), plan, snapshot, hash))
      ensures r.Ok? && !r.value.reused ==> (r.value.durability.Synced? <==> host.synced)
    {
      hide Chain, Stands, Lists, IdentityBytes, GenerationName, Matches, Exact, FitsBounds, AllImmutable, SameListing,
           FilesOf;
      var identity := hash(IdentityBytes(snapshot, plan.provenance));
      var name := GenerationName(identity);
      OthersPublish(host.early);
      if name in published {
        r := ReuseOrCollision(plan, name, identity, host.readable);
        return;
      }
      var hardened := Harden(plan, snapshot, host);
      if !hardened {
        return Err(Io);
      }
      r := RenameIntoPlace(plan, snapshot, host);
    }

    /** Fill the stage, and see that neither the source nor the stage differs from the snapshot. */
    method StageVerified(plan: Plan, snapshot: seq<SourceEntry>, copies: map<string, string>,
                         second: seq<(string, Observed)>, host: Host)
      returns (error: Option<CacheError>)
      requires staging == Some(map[])
      modifies this`staging
      ensures staging.Some? && (error.Some? ==> Ordinary(error.value))
      ensures error.None? ==> Lists(snapshot, staging.value, hash) && FitsBounds(snapshot, plan.bounds)
      ensures Treelike(snapshot) && FitsBounds(snapshot, plan.bounds) ==>
                (error.None? <==> Stageable(host, plan, snapshot, copies, second, hash))
    {
      hide Lists, FitsBounds, Sort, EntriesOf, Accepts, Treelike, CopiesFit, Free, Holds;
      error := FillStaging(snapshot, copies, plan.bounds, host.blocked);
      if error.Some? {
        return;
      }
      if Treelike(snapshot) {
        FilledLists(snapshot, staging.value, copies, plan.bounds, hash);
        ListingIs(snapshot, staging.value, hash);
      }
      var again := CollectSource(second, plan.bounds);
      if again.Err? || again.value != snapshot {
        return Some(SourceReplaced);
      }
      var staged := CollectNodes(staging.value, plan.bounds, hash);
      if staged.Err? {
        OnlyListing(staging.value, plan.bounds, hash);
        return Some(StagedChecksumMismatch);
      }
      ListingIs(staged.value, staging.value, hash);
      if staged.value != snapshot {
        return Some(StagedChecksumMismatch);
      }
    }

    /** The part of `promote` that works on the private staging tree. */
    method BuildAndPublish(plan: Plan, snapshot: seq<SourceEntry>, copies: map<string, string>,
                           second: seq<(string, Observed)>, host: Host)
      returns (r: Result<PublishedGeneration, CacheError>)
      requires InStep() && Me() == Promoter(snapshot, plan.provenance, Filling)
      requires staging == Some(map[]) && Matches(FilesOf(snapshot), plan.manifest)
      modifies this
      ensures InStep() && old(log) <= log && Tells(plan, snapshot, old(published), published, r, hash)
      ensures Me() == old(Me()).(at := if VerdictOf(r).Fresh? then Returned(Fresh) else Cleaning(VerdictOf(r)))
      ensures staging.None? <==> VerdictOf(r).Fresh?
      ensures Treelike(snapshot) && FitsBounds(snapshot, plan.bounds) ==>
                (r.Ok? <==> Stageable(host, plan, snapshot, copies, second, hash)
                            && Publishable(host, old(published), plan, snapshot, hash))
      ensures r.Ok? ==> (r.value.reused <==> Taken(host, old(published), plan, snapshot, hash))
      ensures r.Ok? && !r.value.reused ==> (r.value.durability.Synced? <==> host.synced)
    {
      hide Chain, Stands, Lists, IdentityBytes, GenerationName, Matches, Exact, FitsBounds, FilesOf, Publishable,
           Stageable, Treelike;
      var error := StageVerified(plan, snapshot, copies, second, host);
      StagingStands(log[|log| - 1], hash, published, map[], staging.value);
      if error.Some? {
        LogFailure();
        return Err(error.value);
      }
      ghost var built := BuiltStands(log[|log| - 1], hash, published, staging.value);
      Log(Advance, built);
      r := Publish(plan, snapshot, host);
    }

    /** A staging tree that was not published is removed; if it cannot be, that is the error. */
    method RemoveStaging(r: Result<PublishedGeneration, CacheError>, cleaned: bool)
      returns (r': Result<PublishedGeneration, CacheError>)
      requires InStep() && Me().at == Cleaning(VerdictOf(r))
      modifies this`staging, this`log
      ensures InStep() && old(log) <= log && Me() == old(Me()).(at := Returned(VerdictOf(r')))
      ensures if cleaned then r' == r && staging.None? else r' == Err(Cleanup) && staging == old(staging)
    {
      hide Chain, Stands, IdentityBytes, GenerationName;
      if cleaned {
        ghost var done := CleanedStands(log[|log| - 1], hash, published, staging);
        staging := None;
        Log(Advance, done);
        return r;
      }
      ghost var kept := KeptStands(log[|log| - 1], hash, published, staging);
      Log(Fail, kept);
      return Err(Cleanup);
    }

    /** `inspect_source`: a valid plan, and a source that agrees with it. */
    method Inspect(plan: Plan, source: seq<(string, Observed)>) returns (r: Result<seq<SourceEntry>, CacheError>)
      ensures r.Ok? <==> ValidPlan(plan) && Accepts(source, plan.bounds)
                         && Matches(FilesOf(Sort(EntriesOf(source, ""))), plan.manifest)
      ensures r.Ok? ==> r.value == Sort(EntriesOf(source, ""))
    {
      hide ValidPlan, Accepts, Matches, FilesOf, Sort, EntriesOf;
      if !ValidPlan(plan) {
        return Err(InvalidPlan);
      }
      var snapshot := CollectSource(source, plan.bounds);
      if snapshot.Err? {
        return Err(snapshot.error);
      }
      var error := ReconcileManifest(snapshot.value, plan.manifest);
      if error.Some? {
        return Err(error.value);
      }
      return Ok(snapshot.value);
    }

    /** `create_staging`: the promoter arrives, with an empty stage if one can be made. */
    method MakeStaging(plan: Plan, snapshot: seq<SourceEntry>, made: bool)
      requires staging.None? && ValidPlan(plan)
      modifies this`staging, this`log
      ensures InStep() && log[0] == Arriving(hash, Listings(published, hash), snapshot, plan.provenance)
      ensures Me() == Promoter(snapshot, plan.provenance, if made then Filling else Returned(Failed))
      ensures staging == if made then Some(map[]) else None
    {
      hide Chain, Stands, ValidProvenance, Listings;
      log := [Arriving(hash, Listings(published, hash), snapshot, plan.provenance)];
      OneIsChain(log[0]);
      ArrivingStands(hash, published, snapshot, plan.provenance);
      if made {
        ghost var filling := StartStands(log[0], hash, published, map[]);
        staging := Some(map[]);
        Log(Advance, filling);
      } else {
        ghost var stopped := NoStartStands(log[0], hash, published);
        Log(Fail, stopped);
      }
    }

    /**
     The whole promotion, whatever the source showed at each read: `first` and
     `second` are what two walks observed, `copies` what each copy yielded. It
     succeeds exactly when it can.
     */
    method Promote(plan: Plan, first: seq<(string, Observed)>, copies: map<string, string>,
                   second: seq<(string, Observed)>, host: Host)
      returns (r: Result<PublishedGeneration, CacheError>)
      requires staging.None?
      modifies this
      ensures r.Ok? ==> ValidPlan(plan) && Accepts(first, plan.bounds) && log != []
      ensures Tells(plan, Sort(EntriesOf(first, "")), old(published), published, r, hash)
      ensures log != [] ==>
                var snapshot := Sort(EntriesOf(first, ""));
                && log[0] == Arriving(hash, Listings(old(published), hash), snapshot, plan.provenance)
                && InStep() && Me() == Promoter(snapshot, plan.provenance, Returned(VerdictOf(r)))
      ensures staging.Some? ==> r == Err(Cleanup)
      ensures WellNamed(first) ==>
                (r.Ok? <==> Promotable(host, old(published), plan, first, copies, second, hash))
      ensures r.Ok? ==> (r.value.reused <==> Taken(host, old(published), plan, Sort(EntriesOf(first, "")), hash))
      ensures r.Ok? && !r.value.reused ==> (r.value.durability.Synced? <==> host.synced)
    {
      hide Chain, Stands, Lists, IdentityBytes, GenerationName, Matches, Exact, FitsBounds, Sort, EntriesOf, Accepts,
           FilesOf, Listings, Stageable, Publishable, Treelike, WellNamed, Tells, ValidPlan, Taken;
      log := [];
      var snapshot := Inspect(plan, first);
      if snapshot.Err? {
        ErrorTells(plan, Sort(EntriesOf(first, "")), published, snapshot.error, hash);
        return Err(snapshot.error);
      }
      MakeStaging(plan, snapshot.value, host.made);
      if !host.made {
        ErrorTells(plan, snapshot.value, published, Io, hash);
        return Err(Io);
      }
      if WellNamed(first) { SnapshotIsTreelike(first, plan.bounds); }
      r := BuildAndPublish(plan, snapshot.value, copies, second, host);
      if r.Err? || r.value.reused {
        ErrorTells(plan, snapshot.value, published, Cleanup, hash);
        r := RemoveStaging(r, host.cleaned);
      }
    }
  }
}
