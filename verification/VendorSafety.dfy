/** What every step of the vendor protocol keeps, and what that means for every run. */
module VendorSafety {
  import opened Options
  import opened VendorProtocol

  // ---------- The invariant ----------

  ghost predicate ReaderOk(d: Disk, r: Reader)
  {
    var seen := r.seen;
    && Below(seen, d.next)
    && (SameIdentity(d.public.receipt, seen.receipt) ==> d.public.receipt == seen.receipt)
    && (SameIdentity(d.public.resolver, seen.resolver) ==> d.public.resolver == seen.resolver)
    && (seen.receipt.Some? ==> seen.receipt.value.bytes == r.graph.digest)
    && (Verified(r) ==> seen.tree.Some? && d.public.tree == seen.tree)
    && (r.reading.FenceClearAgain? || r.reading.WriterAbsentAgain? || r.reading.ReceiptConfirmed?
        ==> d.public in d.done)
    && (r.reading.ReceiptConfirmed? ==> d.public.receipt == seen.receipt && seen.receipt.Some?)
    && (r.reading.Accepted? ==>
          seen in d.done && seen.tree.Some? && seen.resolver.Some? && seen.receipt.Some?)
    && (r.reading.AcceptedUnmanaged? ==> !r.graph.external)
  }

  /** The two coherent results of a commit by `p`. */
  predicate AllOld(d: Disk, p: Publisher)
  {
    d.public == p.before
  }

  predicate AllNew(d: Disk, p: Publisher)
  {
    && p.published && p.resolver.Some? && p.receipt.Some?
    && d.public == Public(p.candidate, p.resolver, p.receipt)
  }

  predicate Early(at: PublishPhase) {
    at.Holding? || at.Relooking? || at.Looked? || at.PrevOpened? || at.PrevTaken? || at.Settled? || at.Staged?
    || at.ConfigSaved? || at.ManifestSaved?
  }

  /** What a publisher knows about itself, whoever owns the operation lock now. */
  ghost predicate LocalOk(p: Publisher)
  {
    && (HoldsOperation(p.at) ==> p.op.Some?)
    && (p.at.Before? ==> !p.moved && !p.published && p.resolver.None? && p.receipt.None?)
    && (p.at.Before? || Scouting(p.at) ==> p.prev.None?)
    && (p.at.Before? || Scouting(p.at) || p.at.PrevOpened? || p.at.PrevTaken? || p.at.Settled? ==> p.candidate.None?)
    && (Committing(p.at) || p.at == Returning(Kept) || p.at == Released(Kept) || p.at == Gone(Kept) ==>
          KeptOk(p))
    && (p.at.Before? || Early(p.at) ==> p.stage.oldVendor.None?)
    && (p.at.Staged? || p.at.ConfigSaved? || p.at.ManifestSaved? ==>
          p.candidate.Some? && p.stage.vendor == p.candidate)
    && (Succeeding(p.at) ==> p.candidate.Some?)
    && (p.at.ConfigSaved? || p.at.ManifestSaved? ==> p.stage.oldConfig == Bytes(p.before.resolver))
    && (p.at.ManifestSaved? ==> p.stage.oldManifest == Bytes(p.before.receipt))
  }

  /** Nothing old is lost: the stage holds what left the public place. */
  predicate KeptOk(p: Publisher)
  {
    && p.candidate.Some?
    && p.stage.oldConfig == Bytes(p.before.resolver)
    && p.stage.oldManifest == Bytes(p.before.receipt)
    && (p.moved ==> p.before.tree.Some?)
    && p.stage.oldVendor == (if p.moved then p.before.tree else None)
    && p.stage.vendor == (if p.published then None else p.candidate)
  }

  /** How far the owner of the operation lock has changed public material. */
  ghost predicate Progress(d: Disk, p: Publisher)
  {
    if !p.published then
      && (p.moved ==> d.public == p.before.(tree := None))
      && (!p.moved ==> d.public == p.before)
    else
      && d.public.tree == p.candidate
      && p.moved == p.before.tree.Some?
      && (p.receipt.Some? ==> p.resolver.Some?)
      && d.public.resolver == (if p.resolver.Some? then p.resolver else p.before.resolver)
      && d.public.receipt == (if p.receipt.Some? then p.receipt else p.before.receipt)
  }

  /** The commit is complete, and nobody else has taken the operation lock since. */
  predicate Succeeding(at: PublishPhase) { at.Unfenced? || at == Returning(Success) || at == Released(Success) }

  ghost predicate OwnerOk(d: Disk, p: Publisher)
  {
    && Progress(d, p)
    && (!d.fence ==> AllOld(d, p) || AllNew(d, p))
    && (!p.published ==> p.resolver.None? && p.receipt.None?)
    && (Early(p.at) || p.at.Fenced? || p.at.BackingOut? || p.at.BackedOut?
        || p.at == Returning(Plain) || p.at == Returning(Reused)
        || p.at == Released(Plain) || p.at == Released(Reused)
        ==> !p.moved && !p.published)
    && (p.at.PrevOpened? || p.at.PrevTaken? || p.at.Settled? || (HoldsCandidate(p.at) && !p.at.Returning?) ==>
          p.prev == p.before.tree)
    && (Committing(p.at) && !p.at.Refencing? && !p.at.Unfenced? && !p.at.BackedOut? ==> d.fence)
    && (Committing(p.at) ==> p.before in d.done)
    && (p.at.Moved? ==> !p.published && p.moved == p.before.tree.Some?)
    && (p.at.Published? ==> p.published && p.resolver.None? && p.receipt.None?)
    && (p.at.ResolverWritten? ==> p.published && p.resolver.Some? && p.receipt.None?)
    && (p.at.ReceiptWritten? || Succeeding(p.at) ==> AllNew(d, p) && d.public in d.done)
    && (Succeeding(p.at) ==> !d.fence)
  }

  ghost predicate PublisherOk(d: Disk, p: Publisher)
  {
    && (p.op.Some? ==> p.op.value < d.next && Below(p.before, p.op.value))
    && (p.op.Some? && p.candidate.Some? ==> p.op.value < p.candidate.value.id)
    && (p.candidate.Some? ==> p.op.Some?)
    && BelowTree(p.prev, d.next) && BelowTree(p.candidate, d.next)
    && LocalOk(p)
    && (HoldsOperation(p.at) ==> d.op == p.op)
    && (HoldsOperation(p.at) || (p.op.Some? && d.op == p.op && !p.at.Gone?) ==> OwnerOk(d, p))
  }

  ghost predicate ProcessOk(d: Disk, p: Process) {
    match p
    case Reading(r) => ReaderOk(d, r)
    case Publishing(p) => PublisherOk(d, p)
  }

  /** No two publishers ever created the same operation lock file. */
  ghost predicate OperationsDistinct(procs: map<Pid, Process>) {
    forall i, j :: i in procs && j in procs && i != j && procs[i].Publishing? && procs[j].Publishing?
                   && procs[i].publisher.op.Some?
                   ==> procs[i].publisher.op != procs[j].publisher.op
  }

  /** Shared and exclusive holders of one directory never coexist. */
  ghost predicate LocksExclusive(procs: map<Pid, Process>) {
    forall i, j :: i in procs && j in procs && procs[i].Reading? && procs[j].Publishing?
                   ==> Compatible(procs[i].reader, procs[j].publisher)
  }

  ghost predicate Compatible(r: Reader, p: Publisher) {
    Leasing(r) && r.seen.tree.Some? ==> !Locks(p, r.seen.tree.value)
  }

  ghost predicate DiskOk(d: Disk) {
    && Below(d.public, d.next)
    && (d.op.Some? ==> d.op.value < d.next)
    && (!d.fence ==> d.public in d.done)
  }

  ghost predicate Inv(s: State) {
    && DiskOk(s.disk)
    && OperationsDistinct(s.procs)
    && LocksExclusive(s.procs)
    && (forall i :: i in s.procs ==> ProcessOk(s.disk, s.procs[i]))
  }

  // ---------- Preservation ----------

  lemma ReaderControls(d: Disk, r: Reader)
    requires DiskOk(d) && ReaderOk(d, r) && InControls(r.reading)
    ensures var n := ControlNext(d, r); ReaderOk(d, n) && !Leasing(n)
  {
  }

  lemma ReaderLease(s: State, r: Reader)
    requires DiskOk(s.disk) && ReaderOk(s.disk, r) && !InControls(r.reading) && LeaseNext(s, r).Some?
    ensures var n := LeaseNext(s, r).value;
            && ReaderOk(s.disk, n)
            && (Leasing(n) ==> n.seen.tree == r.seen.tree)
            && (Leasing(n) && !Leasing(r) ==> n.seen.tree.Some? && Unexcluded(s, n.seen.tree.value))
  {
    if LeaseNext(s, r).value.reading.Accepted? {
      assert r.seen == s.disk.public;
    }
  }

  /** A reader takes a lock only when nobody excludes it, and keeps the tree it locked. */
  lemma ReaderStepKeeps(s: State, r: Reader, a: Action)
    requires DiskOk(s.disk) && ReaderOk(s.disk, r) && ReaderStep(s, r, a).Some?
    ensures var n := ReaderStep(s, r, a).value;
            && ReaderOk(s.disk, n)
            && (Leasing(n) && Leasing(r) ==> n.seen.tree == r.seen.tree)
            && (Leasing(n) && !Leasing(r) ==> n.seen.tree.Some? && Unexcluded(s, n.seen.tree.value))
  {
    if a.Advance? {
      if InControls(r.reading) { ReaderControls(s.disk, r); } else { ReaderLease(s, r); }
    }
  }

  lemma ReaderKeeps(s: State, pid: Pid, a: Action)
    requires Inv(s) && pid in s.procs && s.procs[pid].Reading? && Step(s, pid, a).Some?
    ensures Inv(Step(s, pid, a).value)
  {
    ReaderStepKeeps(s, s.procs[pid].reader, a);
    hide ReaderStep, LookStep, ReaderOk, DiskOk;
  }

  /** Before the lock, and when it looks for something to reuse, a publisher only moves on. */
  lemma MovesOn(d: Disk, p: Publisher, at: PublishPhase)
    requires PublisherOk(d, p) && p.alive
    requires (p.at.Before? && (at.Before? || at == Gone(Plain) || at == Gone(Reused)))
             || (Scouting(p.at) && (Scouting(at) || at.Settled? || at == Released(Reused)))
    requires at.Settled? ==> d.public.tree.None?
    ensures PublisherOk(d, p.(at := at))
  {
  }

  lemma TakesOperation(d: Disk, p: Publisher)
    requires DiskOk(d) && PublisherOk(d, p) && p.alive && p.at.Before? && d.op.None?
    ensures var e := TakeOperation(d, p, Holding); DiskOk(e.disk) && PublisherOk(e.disk, e.publisher)
    ensures var e := TakeOperation(d, p, Gone(Plain)); DiskOk(e.disk) && PublisherOk(e.disk, e.publisher)
  {
  }

  lemma PublisherBegins(s: State, p: Publisher)
    requires DiskOk(s.disk) && PublisherOk(s.disk, p) && p.alive && p.at.Before?
    requires PrefaceNext(s, p).Some?
    ensures var e := PrefaceNext(s, p).value;
            DiskOk(e.disk) && PublisherOk(e.disk, e.publisher)
  {
    hide Looks, DiskOk, PublisherOk, TakeOperation;
    var e := PrefaceNext(s, p).value;
    if p.at.step.Locking? && s.disk.op.None? {
      TakesOperation(s.disk, p);
    } else {
      MovesOn(s.disk, p, e.publisher.at);
    }
  }

  lemma PublisherLooks(s: State, p: Publisher)
    requires DiskOk(s.disk) && PublisherOk(s.disk, p) && p.alive && Scouting(p.at)
    requires LookNext(s, p).Some?
    ensures var e := LookNext(s, p).value;
            DiskOk(e.disk) && PublisherOk(e.disk, e.publisher)
  {
    hide Looks;
  }

  lemma PublisherStages(d: Disk, p: Publisher)
    requires DiskOk(d) && PublisherOk(d, p) && p.alive && p.at.Settled?
    ensures var e := StageTree(d, p);
            DiskOk(e.disk) && PublisherOk(e.disk, e.publisher)
  {
  }

  lemma PublisherSaves(s: State, p: Publisher)
    requires DiskOk(s.disk) && PublisherOk(s.disk, p) && p.alive
    requires p.at.Staged? || p.at.ConfigSaved? || p.at.ManifestSaved?
    ensures var e := PrepareNext(s, p);
            DiskOk(e.disk) && PublisherOk(e.disk, e.publisher)
  {
  }

  lemma PublisherLocksPrevious(s: State, p: Publisher)
    requires DiskOk(s.disk) && PublisherOk(s.disk, p) && p.alive && (p.at.PrevOpened? || p.at.PrevTaken?)
    ensures var e := PrepareNext(s, p);
            DiskOk(e.disk) && PublisherOk(e.disk, e.publisher)
  {
    hide Unlocked;
  }

  lemma PublisherPrepares(s: State, p: Publisher)
    requires DiskOk(s.disk) && PublisherOk(s.disk, p) && p.alive && Preparing(p.at)
    ensures var e := PrepareNext(s, p);
            DiskOk(e.disk) && PublisherOk(e.disk, e.publisher)
  {
    hide DiskOk, PublisherOk, StageTree, Unlocked;
    if p.at.Settled? { PublisherStages(s.disk, p); }
    else if p.at.PrevOpened? || p.at.PrevTaken? { PublisherLocksPrevious(s, p); }
    else { PublisherSaves(s, p); }
  }

  lemma PublisherMovesTrees(d: Disk, p: Publisher)
    requires DiskOk(d) && PublisherOk(d, p) && p.alive && (p.at.Fenced? || p.at.Moved?)
    requires SwapNext(d, p).Some?
    ensures var e := SwapNext(d, p).value;
            DiskOk(e.disk) && PublisherOk(e.disk, e.publisher)
  {
    hide WriteResolver, WriteReceipt;
  }

  lemma PublisherWritesControls(d: Disk, p: Publisher)
    requires DiskOk(d) && PublisherOk(d, p) && p.alive && (p.at.Published? || p.at.ResolverWritten?)
    requires SwapNext(d, p).Some?
    ensures var e := SwapNext(d, p).value;
            DiskOk(e.disk) && PublisherOk(e.disk, e.publisher)
  {
    hide MoveOld, PublishTree;
  }

  lemma PublisherSwaps(d: Disk, p: Publisher)
    requires DiskOk(d) && PublisherOk(d, p) && p.alive && Swapping(p.at)
    requires SwapNext(d, p).Some?
    ensures var e := SwapNext(d, p).value;
            DiskOk(e.disk) && PublisherOk(e.disk, e.publisher)
  {
    hide DiskOk, PublisherOk, SwapNext;
    if p.at.Fenced? || p.at.Moved? { PublisherMovesTrees(d, p); } else { PublisherWritesControls(d, p); }
  }

  lemma PublisherClears(d: Disk, p: Publisher)
    requires DiskOk(d) && PublisherOk(d, p) && p.alive && (p.at.ReceiptWritten? || p.at.BackingOut? || p.at.Refencing?)
    ensures var e := CloseNext(d, p).value;
            DiskOk(e.disk) && PublisherOk(e.disk, e.publisher)
  {
  }

  lemma PublisherLeaves(d: Disk, p: Publisher)
    requires PublisherOk(d, p) && p.alive && (p.at.Unfenced? || p.at.BackedOut?)
    ensures PublisherOk(d, p.(at := Returning(if p.at.Unfenced? then Success else Plain)))
  {
  }

  lemma PublisherEnds(d: Disk, p: Publisher)
    requires DiskOk(d) && PublisherOk(d, p) && p.alive && (p.at.Returning? || p.at.Released?)
    requires CloseNext(d, p).Some?
    ensures var e := CloseNext(d, p).value;
            DiskOk(e.disk) && PublisherOk(e.disk, e.publisher)
  {
  }

  lemma PublisherCloses(d: Disk, p: Publisher)
    requires DiskOk(d) && PublisherOk(d, p) && p.alive && CloseNext(d, p).Some?
    ensures var e := CloseNext(d, p).value;
            DiskOk(e.disk) && PublisherOk(e.disk, e.publisher)
  {
    hide DiskOk, PublisherOk;
    if p.at.Returning? || p.at.Released? { PublisherEnds(d, p); }
    else if p.at.Unfenced? || p.at.BackedOut? { PublisherLeaves(d, p); }
    else { PublisherClears(d, p); }
  }

  lemma PublisherAdvances(s: State, p: Publisher)
    requires DiskOk(s.disk) && PublisherOk(s.disk, p) && p.alive && PublishNext(s, p).Some?
    ensures var e := PublishNext(s, p).value;
            DiskOk(e.disk) && PublisherOk(e.disk, e.publisher)
  {
    hide DiskOk, PublisherOk, PrefaceNext, LookNext, PrepareNext, SwapNext, CloseNext;
    if p.at.Before? { PublisherBegins(s, p); }
    else if Scouting(p.at) { PublisherLooks(s, p); }
    else if Preparing(p.at) { PublisherPrepares(s, p); }
    else if Swapping(p.at) { PublisherSwaps(s.disk, p); }
    else { PublisherCloses(s.disk, p); }
  }

  lemma CommitFails(d: Disk, p: Publisher)
    requires DiskOk(d) && PublisherOk(d, p) && p.alive && Committing(p.at)
    ensures PublisherOk(d, p.(at := AfterFailure(p).value))
  {
  }

  lemma OtherwiseFails(d: Disk, p: Publisher)
    requires DiskOk(d) && PublisherOk(d, p) && p.alive && !Committing(p.at) && AfterFailure(p).Some?
    ensures PublisherOk(d, p.(at := AfterFailure(p).value))
  {
  }

  lemma PublisherFails(s: State, p: Publisher)
    requires DiskOk(s.disk) && PublisherOk(s.disk, p) && p.alive
    requires AfterFailure(p).Some?
    ensures PublisherOk(s.disk, p.(at := AfterFailure(p).value))
  {
    hide DiskOk, PublisherOk;
    if Committing(p.at) { CommitFails(s.disk, p); } else { OtherwiseFails(s.disk, p); }
  }

  lemma PublisherSwapsThenFails(d: Disk, p: Publisher)
    requires DiskOk(d) && PublisherOk(d, p) && p.alive && Swapping(p.at)
    requires PublishThenFail(d, p).Some?
    ensures var e := PublishThenFail(d, p).value;
            DiskOk(e.disk) && PublisherOk(e.disk, e.publisher)
  {
  }

  lemma PublisherStartsThenFails(d: Disk, p: Publisher)
    requires DiskOk(d) && PublisherOk(d, p) && p.alive && !Swapping(p.at)
    requires PublishThenFail(d, p).Some?
    ensures var e := PublishThenFail(d, p).value;
            DiskOk(e.disk) && PublisherOk(e.disk, e.publisher)
  {
  }

  lemma PublisherDies(d: Disk, p: Publisher)
    requires PublisherOk(d, p)
    ensures PublisherOk(d, p.(alive := false))
  {
  }

  lemma PublisherSelf(s: State, p: Publisher, a: Action)
    requires DiskOk(s.disk) && PublisherOk(s.disk, p) && PublisherStep(s, p, a).Some?
    ensures var e := PublisherStep(s, p, a).value;
            DiskOk(e.disk) && PublisherOk(e.disk, e.publisher)
  {
    hide DiskOk, PublisherOk, PublishNext, PublishThenFail, AfterFailure;
    match a
    case Advance => PublisherAdvances(s, p);
    case Fail => PublisherFails(s, p);
    case FailAfter =>
      if Swapping(p.at) { PublisherSwapsThenFails(s.disk, p); } else { PublisherStartsThenFails(s.disk, p); }
    case Kill => PublisherDies(s.disk, p);
    case _ =>
  }

  /** A publisher only ever writes while it owns the operation lock file. */
  ghost predicate Writes(d: Disk, e: Disk, p: Publisher) {
    && d.next <= e.next && d.done <= e.done
    && (e.public != d.public || e.fence != d.fence || e.done != d.done ==> p.op.Some? && d.op == p.op)
    && (e.op == d.op || (p.op.Some? && d.op == p.op && e.op.None?)
        || (d.op.None? && e.op == Some(d.next) && d.next < e.next))
    && (e.public.tree != d.public.tree && d.public.tree.Some? ==> Locks(p, d.public.tree.value))
    && (e.public.receipt != d.public.receipt ==> e.public.receipt.Some? && e.public.receipt.value.id >= d.next)
    && (e.public.resolver != d.public.resolver ==> e.public.resolver.Some? && e.public.resolver.value.id >= d.next)
    && (e.public != d.public && e.public.tree == d.public.tree && d.public.tree.Some? ==> Locks(p, d.public.tree.value))
  }

  /** What an effect may write, and the operation lock it may take. */
  ghost predicate Lawful(d: Disk, p: Publisher, e: Effect) {
    Writes(d, e.disk, p) && (e.publisher.op == p.op || (d.op.None? && e.publisher.op == Some(d.next)))
  }

  lemma PrefaceIsLawful(s: State, p: Publisher)
    requires DiskOk(s.disk) && PublisherOk(s.disk, p) && p.alive && p.at.Before? && PrefaceNext(s, p).Some?
    ensures Lawful(s.disk, p, PrefaceNext(s, p).value)
  {
    hide Looks, Locks, Progress;
  }

  lemma LookIsLawful(s: State, p: Publisher)
    requires DiskOk(s.disk) && PublisherOk(s.disk, p) && p.alive && Scouting(p.at) && LookNext(s, p).Some?
    ensures Lawful(s.disk, p, LookNext(s, p).value)
  {
    hide Looks, Locks, Progress;
  }

  lemma PrepareIsLawful(s: State, p: Publisher)
    requires DiskOk(s.disk) && PublisherOk(s.disk, p) && p.alive && Preparing(p.at)
    ensures Lawful(s.disk, p, PrepareNext(s, p))
  {
    hide Unlocked;
  }

  lemma SwapIsLawful(d: Disk, p: Publisher)
    requires DiskOk(d) && PublisherOk(d, p) && p.alive && Swapping(p.at) && SwapNext(d, p).Some?
    ensures Lawful(d, p, SwapNext(d, p).value)
  {
  }

  lemma CloseIsLawful(d: Disk, p: Publisher)
    requires DiskOk(d) && PublisherOk(d, p) && p.alive && CloseNext(d, p).Some?
    ensures Lawful(d, p, CloseNext(d, p).value)
  {
  }

  lemma FailureIsLawful(d: Disk, p: Publisher)
    requires DiskOk(d) && PublisherOk(d, p) && p.alive && PublishThenFail(d, p).Some?
    ensures Lawful(d, p, PublishThenFail(d, p).value)
  {
  }

  lemma NothingIsLawful(d: Disk, p: Publisher, q: Publisher)
    requires q.op == p.op
    ensures Lawful(d, p, Effect(d, q))
  {
  }

  lemma PublisherWrites(s: State, p: Publisher, a: Action)
    requires DiskOk(s.disk) && PublisherOk(s.disk, p) && PublisherStep(s, p, a).Some?
    ensures Lawful(s.disk, p, PublisherStep(s, p, a).value)
  {
    hide DiskOk, PublisherOk, PrefaceNext, LookNext, PrepareNext, SwapNext, CloseNext, PublishThenFail, AfterFailure,
         Lawful;
    match a
    case Advance =>
      if p.at.Before? { PrefaceIsLawful(s, p); }
      else if Scouting(p.at) { LookIsLawful(s, p); }
      else if Preparing(p.at) { PrepareIsLawful(s, p); }
      else if Swapping(p.at) { SwapIsLawful(s.disk, p); }
      else { CloseIsLawful(s.disk, p); }
    case FailAfter => FailureIsLawful(s.disk, p);
    case Fail => NothingIsLawful(s.disk, p, p.(at := AfterFailure(p).value));
    case Kill => NothingIsLawful(s.disk, p, p.(alive := false));
    case _ =>
  }

  lemma OtherReader(d: Disk, e: Disk, p: Publisher, r: Reader)
    requires DiskOk(d) && DiskOk(e) && Writes(d, e, p) && ReaderOk(d, r) && Compatible(r, p)
    ensures ReaderOk(e, r)
  {
  }

  lemma OtherPublisher(d: Disk, e: Disk, p: Publisher, q: Publisher)
    requires DiskOk(d) && Writes(d, e, p) && PublisherOk(d, q)
    requires p.op.Some? ==> p.op != q.op
    ensures PublisherOk(e, q)
  {
  }

  lemma LocksTaken(s: State, p: Publisher, t: Tree)
    requires LocalOk(p) && p.alive && Preparing(p.at)
    requires t.id < s.disk.next && !Locks(p, t) && !Unlocked(s, t)
    ensures !Locks(PrepareNext(s, p).publisher, t)
  {
    hide Unlocked;
  }

  lemma LocksKept(s: State, p: Publisher, t: Tree)
    requires LocalOk(p) && p.alive && !Preparing(p.at) && PublishNext(s, p).Some? && !Locks(p, t)
    ensures !Locks(PublishNext(s, p).value.publisher, t)
  {
    hide PrepareNext, Looks;
    if p.at.Before? || Scouting(p.at) {
      hide SwapNext, CloseNext;
    } else if Swapping(p.at) {
      hide PrefaceNext, LookNext, CloseNext;
    } else {
      hide PrefaceNext, LookNext, SwapNext;
    }
  }

  lemma LocksKeptInFailure(d: Disk, p: Publisher, t: Tree)
    requires LocalOk(p) && p.alive && PublishThenFail(d, p).Some? && !Locks(p, t)
    ensures !Locks(PublishThenFail(d, p).value.publisher, t)
  {
  }

  /** Locks taken by a publisher respect every reader's lease. */
  lemma PublisherLocks(s: State, p: Publisher, a: Action, t: Tree)
    requires LocalOk(p) && PublisherStep(s, p, a).Some?
    requires t.id < s.disk.next && !Locks(p, t) && !Unlocked(s, t)
    ensures !Locks(PublisherStep(s, p, a).value.publisher, t)
  {
    hide Unlocked;
    if a.Advance? {
      if Preparing(p.at) { LocksTaken(s, p, t); } else { LocksKept(s, p, t); }
    } else if a.FailAfter? {
      LocksKeptInFailure(s.disk, p, t);
    } else {
      hide PublishNext, PublishThenFail;
    }
  }

  lemma PublisherKeeps(s: State, pid: Pid, a: Action)
    requires Inv(s) && pid in s.procs && s.procs[pid].Publishing? && Step(s, pid, a).Some? && !a.Look?
    ensures Inv(Step(s, pid, a).value)
  {
    hide PublisherStep, Writes, DiskOk, Locks;
    if !a.Spawn? {
      var p := s.procs[pid].publisher;
      var e := PublisherStep(s, p, a).value;
      PublisherSelf(s, p, a);
      PublisherWrites(s, p, a);
      var procs := s.procs[pid := Publishing(e.publisher)];
      forall i | i in s.procs && i != pid ensures ProcessOk(e.disk, s.procs[i]) {
        match s.procs[i]
        case Reading(r) => OtherReader(s.disk, e.disk, p, r);
        case Publishing(q) => OtherPublisher(s.disk, e.disk, p, q);
      }
      forall i | i in s.procs && s.procs[i].Reading? ensures Compatible(s.procs[i].reader, e.publisher) {
        var r := s.procs[i].reader;
        if Leasing(r) && r.seen.tree.Some? {
          assert Shares(s.procs[i], r.seen.tree.value);
          assert ProcessOk(s.disk, s.procs[i]);
          PublisherLocks(s, p, a, r.seen.tree.value);
        }
      }
      assert LocksExclusive(procs);
      assert OperationsDistinct(procs);
    }
  }

  /** A publisher that starts a check of its own changes nothing but that it waits for it. */
  lemma LookKeeps(s: State, pid: Pid, child: Pid)
    requires Inv(s) && pid in s.procs && LookStep(s, pid, child).Some?
    ensures Inv(LookStep(s, pid, child).value)
  {
    hide PublisherOk, DiskOk, MayReuse;
    var t, p := LookStep(s, pid, child).value, s.procs[pid].publisher;
    assert t.procs[child] == Reading(Check(p));
    WaitingOk(s.disk, p, t.procs[pid].publisher.at);
    assert forall i :: i in t.procs && i != pid && i != child ==> i in s.procs && t.procs[i] == s.procs[i];
  }

  lemma WaitingOk(d: Disk, p: Publisher, at: PublishPhase)
    requires PublisherOk(d, p) && p.alive
    requires (p.at.Before? && at.Before?) || (p.at.Holding? && at.Relooking?)
    ensures PublisherOk(d, p.(at := at))
    ensures forall t :: !Locks(p.(at := at), t)
  {
  }

  lemma StepKeeps(s: State, pid: Pid, a: Action)
    requires Inv(s) && Step(s, pid, a).Some?
    ensures Inv(Step(s, pid, a).value)
  {
    if a.Spawn? {
    } else if a.Look? {
      LookKeeps(s, pid, a.child);
    } else if s.procs[pid].Reading? {
      ReaderKeeps(s, pid, a);
    } else {
      PublisherKeeps(s, pid, a);
    }
  }

  // ---------- Where installed triples come from ----------

  /** `p` put these three in place, in one commit. */
  predicate InstalledBy(p: Process, t: Public) {
    && p.Publishing? && t == Public(p.publisher.candidate, p.publisher.resolver, p.publisher.receipt)
    && t.tree.Some? && t.resolver.Some? && t.receipt.Some?
    && t.receipt.value.bytes == p.publisher.graph.digest
  }

  ghost predicate Accounted(s: State, start: set<Public>) {
    forall t :: t in s.disk.done ==> t in start || exists i :: i in s.procs && InstalledBy(s.procs[i], t)
  }

  lemma PublisherInstalls(s: State, p: Publisher, a: Action, t: Public)
    requires PublisherOk(s.disk, p) && PublisherStep(s, p, a).Some?
    requires InstalledBy(Publishing(p), t) || t in PublisherStep(s, p, a).value.disk.done - s.disk.done
    ensures InstalledBy(Publishing(PublisherStep(s, p, a).value.publisher), t)
  {
  }

  lemma StepAccounted(s: State, pid: Pid, a: Action, start: set<Public>)
    requires Inv(s) && Accounted(s, start) && Step(s, pid, a).Some?
    ensures Accounted(Step(s, pid, a).value, start)
  {
    var n := Step(s, pid, a).value;
    forall t | t in n.disk.done && t !in start
      ensures exists i :: i in n.procs && InstalledBy(n.procs[i], t)
    {
      var i := pid;
      if t in s.disk.done {
        i :| i in s.procs && InstalledBy(s.procs[i], t);
      }
      if i == pid {
        PublisherInstalls(s, s.procs[pid].publisher, a, t);
      }
      assert InstalledBy(n.procs[i], t);
    }
  }

  // ---------- Every run ----------

  /** From a starting state, no schedule of steps, failures and kills leaves the invariant. */
  lemma {:induction false} RunKeeps(s: State, schedule: seq<(Pid, Action)>, start: set<Public>)
    requires Inv(s) && Accounted(s, start)
    ensures Inv(Run(s, schedule)) && Accounted(Run(s, schedule), start)
    decreases |schedule|
  {
    if |schedule| > 0 {
      var step := Step(s, schedule[0].0, schedule[0].1);
      if step.Some? {
        StepKeeps(s, schedule[0].0, schedule[0].1);
        StepAccounted(s, schedule[0].0, schedule[0].1, start);
        RunKeeps(step.value, schedule[1..], start);
      } else {
        RunKeeps(s, schedule[1..], start);
      }
    }
  }

  /**
   A check that accepts a graph with external packages saw a tree, a resolver
   and a receipt that one commit published together for this very lockfile, or
   the untouched material the run started with.
   */
  lemma CheckSawOnePublication(s: State, schedule: seq<(Pid, Action)>, pid: Pid)
    requires Initial(s) && pid in Run(s, schedule).procs
    requires var p := Run(s, schedule).procs[pid];
             p.Reading? && (p.reader.reading.Accepted? || (p.reader.reading.AcceptedUnmanaged? && p.reader.graph.external))
    ensures var end := Run(s, schedule);
            var r := end.procs[pid].reader;
            && r.seen.receipt.Some? && r.seen.receipt.value.bytes == r.graph.digest
            && ((!s.disk.fence && r.seen == s.disk.public)
                || exists i :: i in end.procs && InstalledBy(end.procs[i], r.seen))
  {
    RunKeeps(s, schedule, s.disk.done);
    assert ProcessOk(Run(s, schedule).disk, Run(s, schedule).procs[pid]);
  }

  /** Whenever the fence is down, public material was published together. */
  lemma UnfencedIsCoherent(s: State, schedule: seq<(Pid, Action)>)
    requires Initial(s) && !Run(s, schedule).disk.fence
    ensures var end := Run(s, schedule);
            || (!s.disk.fence && end.disk.public == s.disk.public)
            || exists i :: i in end.procs && InstalledBy(end.procs[i], end.disk.public)
  {
    RunKeeps(s, schedule, s.disk.done);
  }

  /** At every prefix of a commit, killed or alive: without the fence all is old or all is new. */
  lemma CommitIsAllOrNothing(s: State, schedule: seq<(Pid, Action)>, pid: Pid)
    requires Initial(s) && pid in Run(s, schedule).procs
    requires var p := Run(s, schedule).procs[pid];
             p.Publishing? && HoldsOperation(p.publisher.at)
    ensures var d := Run(s, schedule).disk;
            var p := Run(s, schedule).procs[pid].publisher;
            && (!d.fence ==> AllOld(d, p) || AllNew(d, p))
            && (p.at == Returning(Plain) || p.at == Released(Plain) || p.at == Released(Reused) ==> AllOld(d, p))
            && (p.at == Returning(Success) ==> AllNew(d, p))
  {
    RunKeeps(s, schedule, s.disk.done);
    assert ProcessOk(Run(s, schedule).disk, Run(s, schedule).procs[pid]);
  }

  predicate ExactlyOne(a: bool, b: bool) { a != b }

  /** In a commit, and after its error, the old and new trees are each in exactly one place. */
  lemma TreesAreConserved(s: State, schedule: seq<(Pid, Action)>, pid: Pid)
    requires Initial(s) && pid in Run(s, schedule).procs
    requires var p := Run(s, schedule).procs[pid];
             p.Publishing? && (Committing(p.publisher.at) || p.publisher.at == Returning(Kept))
    ensures var d := Run(s, schedule).disk;
            var p := Run(s, schedule).procs[pid].publisher;
            && p.candidate.Some?
            && ExactlyOne(p.stage.vendor == p.candidate, d.public.tree == p.candidate)
            && (p.before.tree.Some? ==>
                  ExactlyOne(p.stage.oldVendor == p.before.tree, d.public.tree == p.before.tree))
            && p.stage.oldConfig == Bytes(p.before.resolver)
            && p.stage.oldManifest == Bytes(p.before.receipt)
  {
    RunKeeps(s, schedule, s.disk.done);
    assert ProcessOk(Run(s, schedule).disk, Run(s, schedule).procs[pid]);
  }

  predicate KeptBy(at: PublishPhase) { at == Returning(Kept) || at == Released(Kept) || at == Gone(Kept) }

  lemma KeptStays(s: State, pid: Pid, q: Pid, a: Action)
    requires pid in s.procs && s.procs[pid].Publishing? && KeptBy(s.procs[pid].publisher.at) && Step(s, q, a).Some?
    ensures var t := Step(s, q, a).value;
            && pid in t.procs && t.procs[pid].Publishing? && KeptBy(t.procs[pid].publisher.at)
            && t.procs[pid].publisher.stage == s.procs[pid].publisher.stage
            && t.procs[pid].publisher.before == s.procs[pid].publisher.before
  {
    hide ReaderStep, PrefaceNext, LookNext, PrepareNext, SwapNext;
  }

  lemma {:induction false} KeptStaysInRun(s: State, schedule: seq<(Pid, Action)>, pid: Pid)
    requires pid in s.procs && s.procs[pid].Publishing? && KeptBy(s.procs[pid].publisher.at)
    ensures var t := Run(s, schedule);
            && pid in t.procs && t.procs[pid].Publishing? && KeptBy(t.procs[pid].publisher.at)
            && t.procs[pid].publisher.stage == s.procs[pid].publisher.stage
            && t.procs[pid].publisher.before == s.procs[pid].publisher.before
    decreases |schedule|
  {
    hide Step, KeptBy;
    if |schedule| > 0 {
      var step := Step(s, schedule[0].0, schedule[0].1);
      if step.Some? { KeptStays(s, pid, schedule[0].0, schedule[0].1); }
      KeptStaysInRun(if step.Some? then step.value else s, schedule[1..], pid);
    }
  }

  /** The stage kept after a publication error holds the old material, and it is the same stage whatever runs later. */
  lemma KeptStageSurvives(s: State, early: seq<(Pid, Action)>, late: seq<(Pid, Action)>, pid: Pid)
    requires Initial(s) && pid in Run(s, early).procs
    requires var p := Run(s, early).procs[pid]; p.Publishing? && KeptBy(p.publisher.at)
    ensures KeptOk(Run(s, early).procs[pid].publisher)
    ensures var end := Run(Run(s, early), late);
            && pid in end.procs && end.procs[pid].Publishing?
            && end.procs[pid].publisher.stage == Run(s, early).procs[pid].publisher.stage
            && end.procs[pid].publisher.before == Run(s, early).procs[pid].publisher.before
  {
    RunKeeps(s, early, s.disk.done);
    assert ProcessOk(Run(s, early).disk, Run(s, early).procs[pid]);
    KeptStaysInRun(Run(s, early), late, pid);
  }
}
