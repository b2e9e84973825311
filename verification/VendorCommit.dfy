/**
 `Publication::commit` as one imperative run over the shared directory. Every
 filesystem action may fail, before or after it took effect. Each action is
 logged; the log proves that the method's own control flow, with its `moved`
 and `published` flags, takes exactly the steps of the protocol.
 */
module VendorCommit {
  import opened Options
  import opened VendorProtocol
  import opened VendorSafety

  /** How one filesystem action ends. `Landed` took effect and still reported an error. */
  datatype Fault = Clean | Missed | Landed

  /** How the actions of a commit end; `late`: the last checks pass; `back`: the fence comes down after a failure. */
  datatype Faults = Faults(config: Fault, manifest: Fault, fence: Fault, move: Fault, publish: Fault, resolver: Fault,
                           receipt: Fault, late: bool, clear: Fault, back: Fault, recover: Fault)

  /** The fence never went up. */
  predicate NeverFenced(f: Faults, fence: bool) { !f.config.Clean? || !f.manifest.Clean? || fence || !f.fence.Clean? }

  /** Behind the fence, an action failed before any tree was moved. */
  predicate NothingMoved(f: Faults, there: bool) {
    if there then f.move.Missed? else !f.move.Clean? || f.publish.Missed?
  }

  predicate NothingFails(f: Faults) {
    && f.config.Clean? && f.manifest.Clean? && f.fence.Clean? && f.move.Clean? && f.publish.Clean? && f.resolver.Clean?
    && f.receipt.Clean? && f.late && f.clear.Clean?
  }

  /** Each log entry is one protocol step after the one before. */
  ghost predicate Follows(a: Effect, b: Effect) {
    exists action: Action :: PublisherStep(State(a.disk, map[]), a.publisher, action) == Some(b)
  }

  ghost predicate Chain(log: seq<Effect>) {
    forall i {:trigger log[i]} :: 0 < i < |log| ==> Follows(log[i - 1], log[i])
  }

  /** Stopped after any logged action, the run leaves all old or all new, unless the fence is up. */
  lemma {:induction false} LogIsAllOrNothing(log: seq<Effect>, i: nat)
    requires i < |log| && Chain(log)
    requires DiskOk(log[0].disk) && PublisherOk(log[0].disk, log[0].publisher)
    ensures DiskOk(log[i].disk) && PublisherOk(log[i].disk, log[i].publisher)
    ensures HoldsOperation(log[i].publisher.at) && !log[i].disk.fence ==>
              AllOld(log[i].disk, log[i].publisher) || AllNew(log[i].disk, log[i].publisher)
  {
    if i > 0 {
      LogIsAllOrNothing(log, i - 1);
      var before := State(log[i - 1].disk, map[]);
      assert Follows(log[i - 1], log[i]);
      var action :| PublisherStep(before, log[i - 1].publisher, action) == Some(log[i]);
      hide PublisherStep;
      PublisherSelf(before, log[i - 1].publisher, action);
    }
  }

  lemma SuccessMeans(d: Disk, p: Publisher)
    requires DiskOk(d) && PublisherOk(d, p) && p.at == Returning(Success)
    ensures AllNew(d, p) && d.public in d.done
  {
  }

  lemma KeptMeans(d: Disk, p: Publisher)
    requires PublisherOk(d, p) && p.at == Returning(Kept)
    ensures p.stage.oldConfig == Bytes(p.before.resolver) && p.stage.oldManifest == Bytes(p.before.receipt)
    ensures p.before.tree.Some? ==>
              ExactlyOne(d.public.tree == p.before.tree, p.stage.oldVendor == p.before.tree)
  {
  }

  lemma UnmovedMeans(d: Disk, p: Publisher)
    requires PublisherOk(d, p) && (p.at.Staged? || p.at.Fenced?)
    ensures d.public == p.before && !p.moved && !p.published
  {
  }

  lemma MovedMeans(d: Disk, p: Publisher)
    requires PublisherOk(d, p) && p.at.Moved?
    ensures d.public.tree.None? && !p.published
  {
  }

  /** The three ways the rename of the old tree ends. */
  lemma MoveSteps(d: Disk, p: Publisher)
    requires p.alive && p.at.Fenced?
    ensures PublisherStep(State(d, map[]), p, Fail) == Some(Effect(d, p.(at := BackingOut)))
    ensures d.public.tree.Some? ==>
              var s, gone := State(d, map[]), d.(public := d.public.(tree := None));
              var q := p.(stage := p.stage.(oldVendor := d.public.tree), moved := true);
              && PublisherStep(s, p, FailAfter) == Some(Effect(gone, q.(at := Refencing)))
              && PublisherStep(s, p, Advance) == Some(Effect(gone, q.(at := Moved)))
  {
  }

  class Commit {
    var disk: Disk
    var stage: Stage
    const config: Text
    const digest: Text
    ghost var me: Publisher
    ghost var log: seq<Effect>

    ghost predicate Valid()
      reads this
    {
      && |log| > 0 && log[|log| - 1] == Effect(disk, me) && Chain(log)
      && me.alive && me.stage == stage && me.config == config && me.graph.digest == digest
      && DiskOk(disk) && PublisherOk(disk, me)
    }

    constructor (disk: Disk, publisher: Publisher)
      requires DiskOk(disk) && PublisherOk(disk, publisher) && publisher.alive
      ensures Valid() && this.disk == disk && me == publisher && log == [Effect(disk, publisher)]
    {
      this.disk, stage, config, digest := disk, publisher.stage, publisher.config, publisher.graph.digest;
      me, log := publisher, [Effect(disk, publisher)];
    }

    /** Record what the run just did as one protocol step. */
    ghost method Log(action: Action, next: Publisher)
      requires |log| > 0 && Chain(log) && log[|log| - 1].publisher == me
      requires var last := State(log[|log| - 1].disk, map[]);
               && DiskOk(last.disk) && PublisherOk(last.disk, me) && me.alive && !action.Kill?
               && PublisherStep(last, me, action) == Some(Effect(disk, next))
      requires next.stage == stage && next.config == config && next.graph.digest == digest && next.alive
      modifies this`me, this`log
      ensures Valid() && me == next && log == old(log) + [Effect(disk, next)]
    {
      hide DiskOk, PublisherOk, PublisherStep;
      var last := State(log[|log| - 1].disk, map[]);
      PublisherSelf(last, me, action);
      assert Follows(log[|log| - 1], Effect(disk, next));
      me := next;
      log := log + [Effect(disk, next)];
    }

    /** `clear`: the fence is removed, and the state directory synchronized. */
    method Clear(fault: Fault) returns (ok: bool)
      requires Valid() && (me.at.ReceiptWritten? || me.at.BackingOut?)
      modifies this
      ensures Valid() && old(log) <= log && disk.public == old(disk.public) && stage == old(stage)
      ensures me == old(me).(at := me.at)
      ensures ok ==> me.at == Returning(if old(me.at).ReceiptWritten? then Success else Plain)
      ensures !ok ==> me.at.Refencing?
      ensures (ok <==> fault.Clean?) && disk.fence == (fault.Missed? && old(disk.fence))
    {
      hide Chain, DiskOk, PublisherOk, PrefaceNext, LookNext, PrepareNext, SwapNext, PublishThenFail;
      if fault.Missed? {
        Log(Fail, me.(at := Refencing));
        return false;
      }
      disk := disk.(fence := false);
      Log(Advance, me.(at := if me.at.ReceiptWritten? then Unfenced else BackedOut));
      if fault.Landed? {
        Log(Fail, me.(at := Refencing));
        return false;
      }
      Log(Advance, me.(at := Returning(if me.at.Unfenced? then Success else Plain)));
      return true;
    }

    /** Keep the bytes of both control files in the stage. */
    method SaveControls(first: Fault, second: Fault) returns (ok: bool)
      requires Valid() && me.at.Staged?
      modifies this
      ensures Valid() && old(log) <= log && disk == old(disk)
      ensures me == old(me).(at := me.at, stage := me.stage)
      ensures me.at == (if ok then ManifestSaved else Returning(Plain))
      ensures ok <==> first.Clean? && second.Clean?
    {
      if !first.Clean? {
        Log(Fail, me.(at := Returning(Plain)));
        return false;
      }
      stage := stage.(oldConfig := Bytes(disk.public.resolver));
      Log(Advance, me.(at := ConfigSaved, stage := stage));
      if !second.Clean? {
        Log(Fail, me.(at := Returning(Plain)));
        return false;
      }
      stage := stage.(oldManifest := Bytes(disk.public.receipt));
      Log(Advance, me.(at := ManifestSaved, stage := stage));
      return true;
    }

    /** Raise the fence; a fence that is already up belongs to someone else. */
    method RaiseFence(fault: Fault) returns (ok: bool)
      requires Valid() && me.at.ManifestSaved?
      modifies this
      ensures Valid() && old(log) <= log && disk == old(disk).(fence := disk.fence)
      ensures me == old(me).(at := me.at)
      ensures ok ==> !old(disk.fence) && disk.fence
      ensures me.at == (if ok then Fenced else Returning(Plain))
      ensures ok <==> !old(disk.fence) && fault.Clean?
    {
      if disk.fence || fault.Missed? {
        Log(Fail, me.(at := Returning(Plain)));
        return false;
      }
      disk := disk.(fence := true);
      if fault.Landed? {
        Log(FailAfter, me.(at := Returning(Plain)));
        return false;
      }
      Log(Advance, me.(at := Fenced));
      return true;
    }

    /** Rename the old tree into the stage. */
    method MoveOldTree(fault: Fault) returns (ok: bool, moved: bool)
      requires Valid() && me.at.Fenced? && disk.public.tree.Some?
      modifies this
      ensures Valid() && old(log) <= log && moved == me.moved
      ensures disk.public == (if moved then old(disk.public).(tree := None) else old(disk.public))
      ensures me == old(me).(at := me.at, stage := stage, moved := moved)
      ensures me.at == (if ok then Moved else if moved then Refencing else BackingOut)
      ensures (ok <==> fault.Clean?) && (moved <==> !fault.Missed?)
    {
      hide Chain, DiskOk, PublisherOk, PublisherStep;
      UnmovedMeans(disk, me);
      MoveSteps(disk, me);
      if fault.Missed? {
        Log(Fail, me.(at := BackingOut));
        return false, false;
      }
      stage := stage.(oldVendor := disk.public.tree);
      disk := disk.(public := disk.public.(tree := None));
      if fault.Landed? {
        Log(FailAfter, me.(at := Refencing, stage := stage, moved := true));
        return false, true;
      }
      Log(Advance, me.(at := Moved, stage := stage, moved := true));
      return true, true;
    }

    /** There is no old tree to move. */
    method SkipOldTree(fault: Fault) returns (ok: bool)
      requires Valid() && me.at.Fenced? && disk.public.tree.None?
      modifies this
      ensures Valid() && old(log) <= log && disk == old(disk) && stage == old(stage)
      ensures me == old(me).(at := if ok then Moved else BackingOut) && !me.moved
      ensures ok <==> fault.Clean?
    {
      UnmovedMeans(disk, me);
      hide Chain, DiskOk, PublisherOk;
      ok := fault.Clean?;
      if ok {
        Log(Advance, me.(at := Moved));
      } else {
        Log(Fail, me.(at := BackingOut));
      }
    }

    /** Rename the staged tree to the public place; the rename lands, the sync after it may fail. */
    method RenameNewTree(synced: bool) returns (ok: bool)
      requires Valid() && me.at.Moved?
      modifies this
      ensures Valid() && old(log) <= log
      ensures disk.public == old(disk.public).(tree := old(stage.vendor))
      ensures me == old(me).(at := if ok then Published else Refencing, stage := stage, published := true)
      ensures ok == synced
    {
      MovedMeans(disk, me);
      hide Chain, DiskOk, PublisherOk;
      ok := synced;
      disk := disk.(public := disk.public.(tree := stage.vendor));
      stage := stage.(vendor := None);
      if ok {
        Log(Advance, me.(at := Published, stage := stage, published := true));
      } else {
        Log(FailAfter, me.(at := Refencing, stage := stage, published := true));
      }
    }

    /** Publish the new tree, or learn that nothing more was renamed. */
    method PublishNewTree(moved: bool, fault: Fault) returns (ok: bool, published: bool)
      requires Valid() && me.at.Moved? && moved == me.moved
      modifies this
      ensures Valid() && old(log) <= log && published == me.published
      ensures !published ==> disk == old(disk) && stage == old(stage)
      ensures published ==> disk.public == old(disk.public).(tree := old(stage.vendor))
      ensures me == old(me).(at := me.at, stage := stage, published := published)
      ensures ok ==> published
      ensures me.at == (if ok then Published else if published || moved then Refencing else BackingOut)
      ensures (ok <==> fault.Clean?) && (published <==> !fault.Missed?)
    {
      MovedMeans(disk, me);
      hide Chain, DiskOk, PublisherOk;
      published := !fault.Missed?;
      if published {
        ok := RenameNewTree(fault.Clean?);
      } else {
        Log(Fail, me.(at := if moved then Refencing else BackingOut));
        ok := false;
      }
    }

    /** Atomically replace the resolver. */
    method ReplaceResolver(fault: Fault) returns (ok: bool)
      requires Valid() && me.at.Published?
      modifies this
      ensures Valid() && old(log) <= log && stage == old(stage)
      ensures disk.public.tree == old(disk.public.tree)
      ensures me == old(me).(at := if ok then ResolverWritten else Refencing, resolver := me.resolver)
      ensures ok <==> fault.Clean?
    {
      hide Chain, DiskOk, PublisherOk;
      if fault.Missed? {
        Log(Fail, me.(at := Refencing));
        return false;
      }
      var control := Some(Control(disk.next, config));
      disk := disk.(public := disk.public.(resolver := control), next := disk.next + 1);
      if fault.Landed? {
        Log(FailAfter, me.(at := Refencing, resolver := control));
        return false;
      }
      Log(Advance, me.(at := ResolverWritten, resolver := control));
      return true;
    }

    /** Atomically replace the receipt: now all three are new. */
    method ReplaceReceipt(fault: Fault) returns (ok: bool)
      requires Valid() && me.at.ResolverWritten?
      modifies this
      ensures Valid() && old(log) <= log && stage == old(stage)
      ensures disk.public.tree == old(disk.public.tree)
      ensures me == old(me).(at := if ok then ReceiptWritten else Refencing, receipt := me.receipt)
      ensures ok <==> fault.Clean?
    {
      hide Chain, DiskOk, PublisherOk;
      if fault.Missed? {
        Log(Fail, me.(at := Refencing));
        return false;
      }
      var control := Some(Control(disk.next, digest));
      var public := disk.public.(receipt := control);
      disk := disk.(public := public, next := disk.next + 1, done := disk.done + {public});
      if fault.Landed? {
        Log(FailAfter, me.(at := Refencing, receipt := control));
        return false;
      }
      Log(Advance, me.(at := ReceiptWritten, receipt := control));
      return true;
    }

    /** The last cancellation and precondition checks, with everything new in place. */
    method ConfirmLate(late: bool) returns (ok: bool)
      requires Valid() && me.at.ReceiptWritten?
      modifies this
      ensures Valid() && old(log) <= log && disk == old(disk) && stage == old(stage)
      ensures me == old(me).(at := if ok then ReceiptWritten else Refencing) && ok == late
    {
      ok := late;
      if !ok {
        Log(Fail, me.(at := Refencing));
      }
    }

    /** Everything between the fence going up and coming down. */
    method Replace(faults: Faults) returns (ok: bool, moved: bool, published: bool)
      requires Valid() && me.at.Fenced?
      modifies this
      ensures Valid() && old(log) <= log
      ensures me.before == old(me).before && me.candidate == old(me).candidate
      ensures ok ==> published && me.at.ReceiptWritten?
      ensures !ok ==> me.at == (if moved || published then Refencing else BackingOut)
      ensures !moved && !published ==> disk.public == old(disk.public)
      ensures !moved && !published <==> NothingMoved(faults, old(disk.public.tree).Some?)
      ensures ok <==> faults.move.Clean? && faults.publish.Clean? && faults.resolver.Clean? && faults.receipt.Clean?
                      && faults.late
    {
      hide Chain, DiskOk, PublisherOk;
      moved, published := false, false;
      if disk.public.tree.Some? {
        ok, moved := MoveOldTree(faults.move);
      } else {
        ok := SkipOldTree(faults.move);
      }
      if ok {
        ok, published := PublishNewTree(moved, faults.publish);
      }
      if ok {
        ok := ReplaceResolver(faults.resolver);
      }
      if ok {
        ok := ReplaceReceipt(faults.receipt);
      }
      if ok {
        ok := ConfirmLate(faults.late);
      }
    }

    /** Put the fence back if it is gone and can be put back; keep the stage. */
    method Recover(fault: Fault)
      requires Valid() && me.at.Refencing?
      modifies this
      ensures Valid() && old(log) <= log && disk.public == old(disk.public) && stage == old(stage)
      ensures me == old(me).(at := Returning(Kept))
      ensures disk.fence == (old(disk.fence) || fault.Clean?)
    {
      hide Chain, DiskOk, PublisherOk;
      if !disk.fence && !fault.Clean? {
        Log(Fail, me.(at := Returning(Kept)));
      } else {
        disk := disk.(fence := true);
        Log(Advance, me.(at := Returning(Kept)));
      }
    }

    /**
     The whole commit. On success all three public things are new; on a plain
     error they are all old; on a publication error the stage keeps what left
     the public place. Every state in between is in the log.
     */
    method Run(faults: Faults) returns (outcome: Outcome)
      requires Valid() && me.at.Staged?
      modifies this
      ensures Valid() && old(log) <= log && me.at == Returning(outcome)
      ensures outcome.Success? ==>
                disk.public == Public(old(me).candidate, me.resolver, me.receipt) && disk.public in disk.done
      ensures outcome.Plain? ==> disk.public == old(disk.public)
      ensures outcome.Kept? ==>
                && (old(disk.public.tree).Some? ==>
                      ExactlyOne(disk.public.tree == old(disk.public.tree),
                                 stage.oldVendor == old(disk.public.tree)))
                && stage.oldConfig == Bytes(old(disk.public).resolver)
                && stage.oldManifest == Bytes(old(disk.public).receipt)
      ensures !outcome.Reused?
      ensures outcome.Success? <==> NothingFails(faults) && !old(disk.fence)
      ensures var early := NeverFenced(faults, old(disk.fence));
              outcome.Plain? <==> early || (NothingMoved(faults, old(disk.public.tree).Some?) && faults.back.Clean?)
      ensures outcome.Success? ==> !disk.fence
      ensures outcome.Kept? && faults.recover.Clean? ==> disk.fence
    {
      hide Chain, DiskOk, PublisherOk, HoldsOperation;
      UnmovedMeans(disk, me);
      var ok := SaveControls(faults.config, faults.manifest);
      if !ok {
        return Plain;
      }
      ok := RaiseFence(faults.fence);
      if !ok {
        return Plain;
      }
      var moved, published;
      ok, moved, published := Replace(faults);
      if ok {
        ok := Clear(faults.clear);
        if ok {
          SuccessMeans(disk, me);
          return Success;
        }
      }
      if !moved && !published {
        // Nothing public was touched, so only the fence has to go.
        ok := Clear(faults.back);
        if ok {
          return Plain;
        }
      }
      Recover(faults.recover);
      KeptMeans(disk, me);
      return Kept;
    }
  }
}
