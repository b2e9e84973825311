/**
 Runs on which the tracker is exact at every sample: every process waits for
 its children before it ends, nothing is lost, and every sample shows all
 living processes.
 */
module CpuExact {
  import opened Options
  import opened CpuForest
  import opened CpuTracker
  import opened CpuAccounting
  import opened Sequences

  // ---------- An orderly tree ----------

  /** Children of an ended process have ended. */
  ghost predicate DeadClosed(s: Kernel)
    requires Sized(s)
  {
    forall k :: 0 < k < |s.forest| && s.procs[k].alive ==> s.procs[s.forest[k]].alive
  }

  /** A living process has waited for everything its ended children used. */
  ghost predicate WaitedCovers(s: Kernel)
    requires Sized(s)
  {
    forall k :: 0 <= k < |s.forest| && s.procs[k].alive ==>
      DeadBelow(s.forest, Alive(s), Own(s), k, |s.forest|) <= s.procs[k].waited
  }

  /** Living processes are filed under their parents, and nothing slipped. */
  ghost predicate Unmoved(s: Kernel)
    requires Sized(s)
  {
    forall k :: 0 <= k < |s.forest| ==>
      && s.procs[k].slip == 0
      && (s.procs[k].alive ==> s.procs[k].parent == if k == 0 then None else Some(s.forest[k]))
  }

  ghost predicate Orderly(s: Kernel) { Sized(s) && Unmoved(s) && DeadClosed(s) && WaitedCovers(s) }

  /** A process ends only when its children have, and its parent is credited with all it used. */
  ghost predicate OrderlyEvent(s: Kernel, e: Event) {
    && Possible(s, e)
    && (e.Exit? ==>
          && e.credited == s.procs[e.k].own + s.procs[e.k].waited
          && forall j :: 0 <= j < |s.procs| ==> !Orphaned(s, e.k, j))
  }

  /** Below an ended process only ended ones weigh anything. */
  lemma {:induction false} DeadSub(s: Kernel, v: seq<nat>, w: seq<nat>, k: nat)
    requires Sized(s) && |v| == |w| == |s.procs| && DeadClosed(s)
    requires k < |s.forest| && !s.procs[k].alive
    requires forall j :: 0 <= j < |v| && !s.procs[j].alive ==> v[j] <= w[j]
    ensures Sub(s.forest, v, k) <= Sub(s.forest, w, k)
    decreases |s.forest| - k, |s.forest| + 1
  {
    DeadSubBelow(s, v, w, k, |s.forest|);
  }

  lemma {:induction false} DeadSubBelow(s: Kernel, v: seq<nat>, w: seq<nat>, k: nat, m: nat)
    requires Sized(s) && |v| == |w| == |s.procs| && DeadClosed(s)
    requires k < |s.forest| && !s.procs[k].alive && m <= |s.forest|
    requires forall j :: 0 <= j < |v| && !s.procs[j].alive ==> v[j] <= w[j]
    ensures Below(s.forest, v, k, m) <= Below(s.forest, w, k, m)
    decreases |s.forest| - k, m
  {
    if m > 0 {
      DeadSubBelow(s, v, w, k, m - 1);
      if IsChild(s.forest, m - 1, k) { DeadSub(s, v, w, m - 1); }
    }
  }

  lemma {:induction false} DeadBelowRuns(s: Kernel, v: seq<nat>, w: seq<nat>, k: nat, m: nat)
    requires Sized(s) && |v| == |w| == |s.procs| && DeadClosed(s)
    requires k < |s.forest| && m <= |s.forest|
    requires forall j :: 0 <= j < |v| && !s.procs[j].alive ==> v[j] <= w[j]
    ensures DeadBelow(s.forest, Alive(s), v, k, m) <= DeadBelow(s.forest, Alive(s), w, k, m)
  {
    hide Sub;
    if m > 0 {
      DeadBelowRuns(s, v, w, k, m - 1);
      if !s.procs[m - 1].alive { DeadSub(s, v, w, m - 1); }
    }
  }

  lemma OrderlyWork(s: Kernel, k: nat, cpu: nat, filed: set<nat>)
    requires Orderly(s) && OrderlyEvent(s, Work(k, cpu))
    ensures Orderly(Happen(s, Work(k, cpu), filed))
  {
    hide DeadBelow, Sub;
    var t := Happen(s, Work(k, cpu), filed);
    assert Alive(t) == Alive(s);
    forall j | 0 <= j < |t.forest| && t.procs[j].alive
      ensures DeadBelow(t.forest, Alive(t), Own(t), j, |t.forest|) <= t.procs[j].waited
    {
      DeadBelowRuns(s, Own(t), Own(s), j, |s.forest|);
      assert s.procs[j].alive;
    }
  }

  // ---------- A new leaf ----------

  /** A new child of a living process is not below any ended one. */
  lemma {:induction false} LeafIsNotBelowDead(s: Kernel, parent: nat, w: seq<nat>, k: nat)
    requires Sized(s) && |w| == |s.procs| && DeadClosed(s)
    requires parent < |s.forest| && s.procs[parent].alive && k < |s.forest| && !s.procs[k].alive
    ensures Rooted(s.forest + [parent]) && Sub(s.forest + [parent], w + [0], k) <= Sub(s.forest, w, k)
    decreases |s.forest| - k, |s.forest| + 1
  {
    LeafNotBelow(s, parent, w, k, |s.forest|);
  }

  lemma {:induction false} LeafNotBelow(s: Kernel, parent: nat, w: seq<nat>, k: nat, m: nat)
    requires Sized(s) && |w| == |s.procs| && DeadClosed(s)
    requires parent < |s.forest| && s.procs[parent].alive && k < |s.forest| && !s.procs[k].alive && m <= |s.forest|
    ensures Rooted(s.forest + [parent]) && Below(s.forest + [parent], w + [0], k, m) <= Below(s.forest, w, k, m)
    decreases |s.forest| - k, m
  {
    if m > 0 {
      LeafNotBelow(s, parent, w, k, m - 1);
      if IsChild(s.forest, m - 1, k) { LeafIsNotBelowDead(s, parent, w, m - 1); }
    }
  }

  lemma {:induction false} LeafKeepsDead(s: Kernel, parent: nat, w: seq<nat>, k: nat, m: nat)
    requires Sized(s) && |w| == |s.procs| && DeadClosed(s)
    requires parent < |s.forest| && s.procs[parent].alive && k < |s.forest| && m <= |s.forest|
    ensures Rooted(s.forest + [parent])
    ensures DeadBelow(s.forest + [parent], Alive(s) + [true], w + [0], k, m)
         <= DeadBelow(s.forest, Alive(s), w, k, m)
  {
    hide Sub;
    if m > 0 {
      LeafKeepsDead(s, parent, w, k, m - 1);
      if !s.procs[m - 1].alive { LeafIsNotBelowDead(s, parent, w, m - 1); }
    }
  }

  lemma {:induction false} NoDeadChildren(f: Forest, alive: seq<bool>, w: seq<nat>, k: nat, m: nat)
    requires Rooted(f) && |w| == |f| == |alive| && k < |f| && m <= |f| && m <= k + 1
    ensures DeadBelow(f, alive, w, k, m) == 0
  {
    if m > 0 { NoDeadChildren(f, alive, w, k, m - 1); }
  }

  lemma LastIsLiving(f: Forest, alive: seq<bool>, w: seq<nat>, k: nat)
    requires Rooted(f) && |w| == |f| == |alive| && k < |f| && alive[|f| - 1]
    ensures DeadBelow(f, alive, w, k, |f|) == DeadBelow(f, alive, w, k, |f| - 1)
  {
  }

  lemma SpawnKeepsPlaces(s: Kernel, parent: nat, pid: nat, filed: set<nat>)
    requires Orderly(s) && OrderlyEvent(s, Spawn(parent, pid))
    ensures var t := Happen(s, Spawn(parent, pid), filed);
            && Sized(t) && Unmoved(t) && DeadClosed(t) && Alive(t) == Alive(s) + [true] && Own(t) == Own(s) + [0]
  {
    hide WaitedCovers;
  }

  lemma SpawnCovers(s: Kernel, parent: nat, pid: nat, filed: set<nat>, j: nat)
    requires Orderly(s) && OrderlyEvent(s, Spawn(parent, pid))
    requires var t := Happen(s, Spawn(parent, pid), filed); Sized(t) && j < |t.forest| && t.procs[j].alive
    ensures var t := Happen(s, Spawn(parent, pid), filed);
            DeadBelow(t.forest, Alive(t), Own(t), j, |t.forest|) <= t.procs[j].waited
  {
    hide DeadBelow, Sub, Unmoved, Rooted, DeadClosed;
    var t, n := Happen(s, Spawn(parent, pid), filed), |s.forest|;
    SpawnKeepsPlaces(s, parent, pid, filed);
    if j < n {
      assert t.procs[j] == s.procs[j];
      LeafKeepsDead(s, parent, Own(s), j, n);
      LastIsLiving(t.forest, Alive(t), Own(t), j);
    } else {
      NoDeadChildren(t.forest, Alive(t), Own(t), n, n + 1);
    }
  }

  lemma OrderlySpawn(s: Kernel, parent: nat, pid: nat, filed: set<nat>)
    requires Orderly(s) && OrderlyEvent(s, Spawn(parent, pid))
    ensures Orderly(Happen(s, Spawn(parent, pid), filed))
  {
    hide DeadBelow, Sub, Happen, Unmoved, Rooted, DeadClosed;
    SpawnKeepsPlaces(s, parent, pid, filed);
    var t := Happen(s, Spawn(parent, pid), filed);
    forall j | 0 <= j < |t.forest| && t.procs[j].alive
      ensures DeadBelow(t.forest, Alive(t), Own(t), j, |t.forest|) <= t.procs[j].waited
    {
      SpawnCovers(s, parent, pid, filed, j);
    }
  }

  // ---------- An orderly end ----------

  /** Ending `c` moves its whole subtree to the ended children of its parent, and changes nothing else. */
  lemma {:induction false} DeadBelowEnds(f: Forest, alive: seq<bool>, w: seq<nat>, c: nat, k: nat, m: nat)
    requires Rooted(f) && |w| == |f| == |alive| && k < |f| && m <= |f| && c < |f| && alive[c]
    ensures DeadBelow(f, alive[c := false], w, k, m)
         == DeadBelow(f, alive, w, k, m) + (if c < m && IsChild(f, c, k) then Sub(f, w, c) else 0)
  {
    hide Sub;
    if m > 0 { DeadBelowEnds(f, alive, w, c, k, m - 1); }
  }

  lemma {:induction false} AllChildrenDead(f: Forest, alive: seq<bool>, w: seq<nat>, c: nat, m: nat)
    requires Rooted(f) && |w| == |f| == |alive| && c < |f| && m <= |f|
    requires forall j :: 0 < j < |f| && f[j] == c ==> !alive[j]
    ensures DeadBelow(f, alive, w, c, m) == Below(f, w, c, m)
  {
    hide Sub;
    if m > 0 { AllChildrenDead(f, alive, w, c, m - 1); }
  }

  lemma OrderlyEndOf(s: Kernel, c: nat, credited: nat, adopter: Option<nat>, filed: set<nat>)
    requires Orderly(s) && OrderlyEvent(s, Exit(c, credited, adopter))
    ensures var t := Happen(s, Exit(c, credited, adopter), filed);
            && t.forest == s.forest && Alive(t) == Alive(s)[c := false] && Own(t) == Own(s) && Unmoved(t)
            && forall j :: 0 <= j < |s.procs| ==>
                 t.procs[j].waited == s.procs[j].waited + if c > 0 && s.forest[c] == j then credited else 0
  {
    hide WaitedCovers, DeadClosed;
    assert c > 0 ==> Under(s.forest, Alive(s), c, s.forest[c]);
    hide Under, Rooted;
    var t := Happen(s, Exit(c, credited, adopter), filed);
    assert s.procs[c].parent == (if c == 0 then None else Some(s.forest[c])) && !Slipped(s, c);
    hide Slipped;
    forall j | 0 <= j < |s.procs| ensures t.forest[j] == s.forest[j] {
      assert !Orphaned(s, c, j);
    }
    assert t.forest == s.forest;
    assert Alive(t) == Alive(s)[c := false];
    assert Own(t) == Own(s);
  }

  lemma OrderlyExit(s: Kernel, c: nat, credited: nat, adopter: Option<nat>, filed: set<nat>)
    requires Orderly(s) && OrderlyEvent(s, Exit(c, credited, adopter))
    ensures Orderly(Happen(s, Exit(c, credited, adopter), filed))
  {
    var t, n := Happen(s, Exit(c, credited, adopter), filed), |s.forest|;
    OrderlyEndOf(s, c, credited, adopter, filed);
    assert forall j :: 0 < j < |s.forest| && s.forest[j] == c ==> !Orphaned(s, c, j);
    AllChildrenDead(s.forest, Alive(s), Own(s), c, n);
    hide DeadBelow, Below, Happen, Orphaned, Unmoved;
    forall j | 0 <= j < n && t.procs[j].alive
      ensures DeadBelow(t.forest, Alive(t), Own(t), j, n) <= t.procs[j].waited
    {
      assert Alive(t)[j] && Alive(s)[j] && s.procs[j].alive && s.procs[c].alive;
      DeadBelowEnds(s.forest, Alive(s), Own(s), c, j, n);
    }
    forall j | 0 < j < n && t.procs[j].alive ensures t.procs[t.forest[j]].alive {
      assert Alive(t)[j] && Alive(s)[j] && Alive(t)[t.forest[j]] == t.procs[t.forest[j]].alive;
    }
  }

  lemma OrderlyKeeps(s: Kernel, e: Event, filed: set<nat>)
    requires Orderly(s) && OrderlyEvent(s, e)
    ensures Orderly(Happen(s, e, filed))
  {
    match e
    case Spawn(parent, pid) => OrderlySpawn(s, parent, pid, filed);
    case Work(k, cpu) => OrderlyWork(s, k, cpu, filed);
    case Exit(k, credited, adopter) => OrderlyExit(s, k, credited, adopter, filed);
  }

  // ---------- Exact totals ----------

  /** The sample shows every living process. */
  ghost predicate Complete(s: Kernel, items: seq<Item>) {
    forall k :: 0 <= k < |s.procs| && s.procs[k].alive ==> k in Keys(items)
  }

  /** Entries of living processes are up to date, and exactly they are in the sample. */
  ghost predicate UpToDate(s: Kernel, l: Ledger, current: set<nat>)
    requires |s.procs| == |s.forest|
  {
    && LedgerOk(s, l)
    && (forall k :: 0 <= k < |s.procs| && s.procs[k].alive ==>
          k in current && k in l && l[k].own == s.procs[k].own && l[k].waited == s.procs[k].waited)
  }

  lemma {:induction false} TotalCovers(s: Kernel, l: Ledger, current: set<nat>, k: nat)
    requires Orderly(s) && UpToDate(s, l, current) && Ordered(l, |s.procs|)
    requires k < |s.procs| && s.procs[k].alive && k in l
    ensures Sub(s.forest, Own(s), k) <= Total(l, current, |s.procs|, k)
    decreases |s.procs| - k, |s.procs| + 1
  {
    ChildrenCover(s, l, current, k, |s.procs|);
    hide DeadBelow, Below, Children;
    assert DeadBelow(s.forest, Alive(s), Own(s), k, |s.forest|) <= s.procs[k].waited;
  }

  lemma {:induction false} ChildrenCover(s: Kernel, l: Ledger, current: set<nat>, k: nat, m: nat)
    requires Orderly(s) && UpToDate(s, l, current) && Ordered(l, |s.procs|)
    requires k < |s.procs| && k in l && m <= |s.procs|
    ensures Below(s.forest, Own(s), k, m)
         <= DeadBelow(s.forest, Alive(s), Own(s), k, m) + Children(l, current, |s.procs|, k, m, true)
    decreases |s.procs| - k, m
  {
    hide WaitedCovers, Sub, Total, DeadClosed, Unmoved;
    if m > 0 {
      ChildrenCover(s, l, current, k, m - 1);
      if IsChild(s.forest, m - 1, k) && s.procs[m - 1].alive {
        assert l[m - 1].parent == Some(k);
        TotalCovers(s, l, current, m - 1);
      }
    }
  }

  lemma {:induction false} NoSum(w: seq<nat>)
    requires forall k :: 0 <= k < |w| ==> w[k] == 0
    ensures Sum(w) == 0
  {
    if |w| > 0 { NoSum(w[..|w| - 1]); }
  }

  lemma OrderlyIsBounded(s: Kernel, l: Ledger)
    requires Orderly(s) && LedgerOk(s, l)
    ensures Sum(Counted(s, l)) <= TrueCpu(s)
  {
    hide WaitedCovers, DeadClosed, Sum, Counted, Sub, Rooted;
    NoSum(Slips(s));
    CountedIsUsed(s, l);
  }

  /** While the root lives, a complete sample of an orderly tree gives exactly the CPU it has used. */
  lemma CompleteSampleIsExact(s: System, items: seq<Item>, waitedTotal: Option<nat>)
    requires SystemInv(s) && Orderly(s.kernel) && s.kernel.procs[0].alive
    requires SampleOf(s.kernel, s.outer, items) && Complete(s.kernel, items) && WaitedOk(s.kernel, waitedTotal)
    ensures Rankable(s.tracker, items, |s.kernel.procs|)
    ensures Updated(s.tracker, items, waitedTotal, |s.kernel.procs|).total == TrueCpu(s.kernel)
  {
    hide Sum, Counted, WaitedIsDead, Named, Observed, Sub, Total, PidsOk, IdentitiesOk, OwnSum, WaitedCovers,
         DeadClosed, RootKey, WaitedOk, Unmoved;
    var m := Observed(s.tracker.entries, Named(s.tracker.identities, items), items);
    SampleStaysBounded(s, items, waitedTotal);
    SampledLedger(s, items);
    RootKeyIsRoot(s, items);
    OrderlyIsBounded(s.kernel, m);
    TotalCovers(s.kernel, m, Keys(items), 0);
  }

  lemma {:induction false} AllDead(s: Kernel, n: nat)
    requires Orderly(s) && !s.procs[0].alive && n <= |s.procs|
    ensures forall k :: 0 <= k < n ==> !s.procs[k].alive
  {
    hide WaitedCovers;
    if n > 0 {
      AllDead(s, n - 1);
      if n > 1 { assert !s.procs[s.forest[n - 1]].alive; }
    }
  }

  /** When all have ended the parent of the root can have waited for all of it. */
  lemma AllCanBeWaitedFor(s: Kernel)
    requires Orderly(s) && !s.procs[0].alive
    ensures WaitedOk(s, Some(TrueCpu(s)))
  {
    AllDead(s, |s.procs|);
    assert Ended(s) == Own(s);
    TreeIsEverything(s.forest, Own(s));
  }

  /** Once the root has ended, the CPU its parent waited for settles the account. */
  lemma WaitedRootIsExact(s: System)
    requires SystemInv(s) && Orderly(s.kernel) && !s.kernel.procs[0].alive
    ensures SampleOf(s.kernel, s.outer, []) && WaitedOk(s.kernel, Some(TrueCpu(s.kernel)))
    ensures Rankable(s.tracker, [], |s.kernel.procs|)
    ensures Updated(s.tracker, [], Some(TrueCpu(s.kernel)), |s.kernel.procs|).total == TrueCpu(s.kernel)
  {
    AllCanBeWaitedFor(s.kernel);
    hide Sum, Counted, WaitedIsDead, Named, Observed, Sub, Total, PidsOk, IdentitiesOk, OwnSum, WaitedCovers,
         DeadClosed, RootKey, Ended, Own, Unmoved, WaitedOk, TrueCpu;
    SampleStaysBounded(s, [], Some(TrueCpu(s.kernel)));
    SampledLedger(s, []);
    OrderlyIsBounded(s.kernel, Observed(s.tracker.entries, Named(s.tracker.identities, []), []));
  }

  // ---------- Orderly runs ----------

  /** Every event is orderly, every sample shows all living processes, and in the end all that was used is waited for. */
  ghost predicate OrderlyStep(s: System, step: Step) {
    match step
    case Goes(e) => OrderlyEvent(s.kernel, e)
    case Takes(items, waitedTotal) =>
      && Complete(s.kernel, items)
      && (Sized(s.kernel) && !s.kernel.procs[0].alive ==> items == [] && waitedTotal == Some(TrueCpu(s.kernel)))
  }

  ghost predicate OrderlyRun(states: seq<System>, steps: seq<Step>) {
    Run(states, steps) && forall i :: 0 <= i < |steps| ==> OrderlyStep(states[i], steps[i])
  }

  lemma InitialIsOrderly(s: System)
    requires Initial(s)
    ensures Orderly(s.kernel)
  {
  }

  lemma {:induction false} RunStaysOrderly(states: seq<System>, steps: seq<Step>, i: nat)
    requires OrderlyRun(states, steps) && i <= |steps|
    ensures SystemInv(states[i]) && Orderly(states[i].kernel)
  {
    hide SystemInv, Orderly, OrderlyEvent, Initial, Happen, SampleOf, Rankable;
    RunKeeps(states, steps, i);
    if i == 0 {
      InitialIsOrderly(states[0]);
    } else {
      var s, step := states[i - 1], steps[i - 1];
      RunStaysOrderly(states, steps, i - 1);
      assert StepTo(s, step, states[i]) && OrderlyStep(s, step);
      if step.Goes? { OrderlyKeeps(s.kernel, step.event, s.tracker.entries.Keys); }
    }
  }

  /** In an orderly run every sample reports exactly the CPU that the tree has used. */
  lemma OrderlyRunIsExact(states: seq<System>, steps: seq<Step>, i: nat)
    requires OrderlyRun(states, steps) && i < |steps| && steps[i].Takes?
    ensures Sized(states[i + 1].kernel) && states[i + 1].tracker.total == TrueCpu(states[i + 1].kernel)
  {
    var s := states[i];
    RunStaysOrderly(states, steps, i);
    assert StepTo(s, steps[i], states[i + 1]) && OrderlyStep(s, steps[i]);
    hide SystemInv, WaitedCovers, DeadClosed, Unmoved, Complete, SampleOf, Rankable, Run, WaitedOk;
    if s.kernel.procs[0].alive {
      CompleteSampleIsExact(s, steps[i].items, steps[i].waitedTotal);
    } else {
      WaitedRootIsExact(s);
    }
  }
}
