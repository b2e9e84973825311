/**
 Exactly how far the tracker's total is from the CPU the tree has used, on
 every run: by what it could not see, and by the surplus of waited CPU over
 the ended subtrees that are filed under the process that waited.
 */
module CpuSurplus {
  import opened Options
  import opened Sequences
  import opened CpuForest
  import opened CpuTracker
  import opened CpuAccounting

  /**
   What a process waited for beyond the ended subtrees under it: there the
   maximum in `total` takes what was waited for.
   */
  function Surplus(l: Ledger, current: set<nat>, n: nat, key: nat): nat
    requires Ordered(l, n) && key in l
  {
    var ended := Children(l, current, n, key, n, false);
    if l[key].waited > ended then l[key].waited - ended else 0
  }

  function SurplusAt(l: Ledger, current: set<nat>, n: nat, key: nat): nat
    requires Ordered(l, n)
  {
    if key in l then Surplus(l, current, n, key) else 0
  }

  function SurplusSum(l: Ledger, current: set<nat>, n: nat, m: nat): nat
    requires Ordered(l, n)
  {
    if m == 0 then 0 else SurplusSum(l, current, n, m - 1) + SurplusAt(l, current, n, m - 1)
  }

  // ---------- A total is own CPU and surplus ----------

  /** Parents of entries are entries, and `f` says which. */
  ghost predicate Files(l: Ledger, f: Forest) {
    Rooted(f) && forall k {:trigger FilesOne(l, f, k)} :: k in l ==> FilesOne(l, f, k)
  }

  ghost predicate FilesOne(l: Ledger, f: Forest, k: nat)
    requires k in l
  {
    k < |f| && l[k].parent == (if k == 0 then None else Some(f[k])) && (k > 0 ==> f[k] in l)
  }

  function Weights(l: Ledger, current: set<nat>, n: nat): seq<nat>
    requires Ordered(l, n)
  {
    seq(n, k requires 0 <= k < n => if k in l then l[k].own + Surplus(l, current, n, k) else 0)
  }

  lemma {:induction false} UnlistedWeighsNothing(f: Forest, l: Ledger, current: set<nat>, k: nat)
    requires Files(l, f) && Ordered(l, |f|) && k < |f| && k !in l
    ensures Sub(f, Weights(l, current, |f|), k) == 0
    decreases |f| - k, |f| + 1
  {
    UnlistedBelow(f, l, current, k, |f|);
    hide Surplus;
  }

  lemma {:induction false} UnlistedBelow(f: Forest, l: Ledger, current: set<nat>, k: nat, m: nat)
    requires Files(l, f) && Ordered(l, |f|) && k < |f| && k !in l && m <= |f|
    ensures Below(f, Weights(l, current, |f|), k, m) == 0
    decreases |f| - k, m
  {
    hide Surplus, Weights, Sub;
    WeightsLength(l, current, |f|);
    if m > 0 {
      UnlistedBelow(f, l, current, k, m - 1);
      if m - 1 in l { assert FilesOne(l, f, m - 1); }
      if IsChild(f, m - 1, k) { UnlistedWeighsNothing(f, l, current, m - 1); }
    }
  }

  lemma WeightsLength(l: Ledger, current: set<nat>, n: nat)
    requires Ordered(l, n)
    ensures |Weights(l, current, n)| == n
  {
  }

  lemma {:induction false} TotalIsSub(f: Forest, l: Ledger, current: set<nat>, k: nat)
    requires Files(l, f) && Ordered(l, |f|) && k in l
    ensures Total(l, current, |f|, k) == Sub(f, Weights(l, current, |f|), k)
    decreases |f| - k, |f| + 1
  {
    ChildrenAreBelow(f, l, current, k, |f|);
    hide Children, Below;
  }

  lemma {:induction false} ChildrenAreBelow(f: Forest, l: Ledger, current: set<nat>, k: nat, m: nat)
    requires Files(l, f) && Ordered(l, |f|) && k in l && m <= |f|
    ensures Children(l, current, |f|, k, m, false) + Children(l, current, |f|, k, m, true)
         == Below(f, Weights(l, current, |f|), k, m)
    decreases |f| - k, m
  {
    hide Surplus, Weights, Sub, Total;
    WeightsLength(l, current, |f|);
    if m > 0 {
      ChildrenAreBelow(f, l, current, k, m - 1);
      if m - 1 in l { assert FilesOne(l, f, m - 1); }
      if IsChild(f, m - 1, k) {
        if m - 1 in l { TotalIsSub(f, l, current, m - 1); } else { UnlistedWeighsNothing(f, l, current, m - 1); }
      }
    }
  }

  lemma {:induction false} WeightsSum(l: Ledger, current: set<nat>, n: nat, m: nat)
    requires Ordered(l, n) && m <= n
    ensures |Weights(l, current, n)| == n
    ensures Sum(Weights(l, current, n)[..m]) == OwnSum(l, m) + SurplusSum(l, current, n, m)
  {
    hide Surplus;
    var w := Weights(l, current, n);
    if m > 0 {
      WeightsSum(l, current, n, m - 1);
      SumTo(w, m);
    }
  }

  /** The nested recursion over the tree adds up to all own CPU and every surplus, each once. */
  lemma TotalIsOwnAndSurplus(f: Forest, l: Ledger, current: set<nat>)
    requires Files(l, f) && Ordered(l, |f|) && 0 in l
    ensures Total(l, current, |f|, 0) == OwnSum(l, |f|) + SurplusSum(l, current, |f|, |f|)
  {
    hide Total, Surplus, Sub, Sum, Weights, OwnSum, SurplusSum;
    var w := Weights(l, current, |f|);
    WeightsSum(l, current, |f|, |f|);
    assert w[..|f|] == w;
    TotalIsSub(f, l, current, 0);
    TreeIsEverything(f, w);
  }

  // ---------- What was not seen ----------

  /** The CPU of each process that no sample has shown. */
  function Unseen(s: Kernel, l: Ledger): seq<nat> {
    seq(|s.procs|, k requires 0 <= k < |s.procs| =>
      if k !in l then s.procs[k].own else if l[k].own < s.procs[k].own then s.procs[k].own - l[k].own else 0)
  }

  lemma {:induction false} SeenAndUnseen(s: Kernel, l: Ledger, m: nat)
    requires Sized(s) && LedgerOk(s, l) && m <= |s.procs|
    ensures |Own(s)| == |Unseen(s, l)| == |s.procs|
    ensures Sum(Own(s)[..m]) == OwnSum(l, m) + Sum(Unseen(s, l)[..m])
  {
    if m > 0 {
      SeenAndUnseen(s, l, m - 1);
      SumTo(Own(s), m);
      SumTo(Unseen(s, l), m);
      hide Sum;
    } else {
      NoSum(Own(s));
      NoSum(Unseen(s, l));
    }
  }

  lemma TrueIsSeenAndUnseen(s: Kernel, l: Ledger)
    requires Sized(s) && LedgerOk(s, l)
    ensures TrueCpu(s) == OwnSum(l, |s.procs|) + Sum(Unseen(s, l))
  {
    SeenAndUnseen(s, l, |s.procs|);
    TreeIsEverything(s.forest, Own(s));
    assert Own(s)[..|s.procs|] == Own(s) && Unseen(s, l)[..|s.procs|] == Unseen(s, l);
  }

  // ---------- Every run ----------

  /** The tracker has found its root as soon as it has any entry, and its entries are closed under parents. */
  ghost predicate Found(s: System) {
    && Sized(s.kernel) && Files(s.tracker.entries, s.kernel.forest)
    && (s.tracker.rootKey == if 0 in s.tracker.entries then Some(0) else None)
    && (s.tracker.entries != map[] ==> 0 in s.tracker.entries)
  }

  /** How far one sample goes beyond the own CPU seen so far. */
  ghost function Beyond(s: System, step: Step): nat {
    match step
    case Goes(_) => 0
    case Takes(items, waitedTotal) =>
      var n := |s.kernel.procs|;
      if !Rankable(s.tracker, items, n) then 0
      else
        var l := Observed(s.tracker.entries, Named(s.tracker.identities, items), items);
        Max(SurplusSum(l, Keys(items), n, n), if waitedTotal.Some? then waitedTotal.value - OwnSum(l, n) else 0)
  }

  /** The furthest that the samples of a run went. */
  ghost function Peak(states: seq<System>, steps: seq<Step>, i: nat): nat
    requires i <= |steps| <= |states|
  {
    if i == 0 then 0 else Max(Peak(states, steps, i - 1), Beyond(states[i - 1], steps[i - 1]))
  }

  /** A sample falls: what it has seen, and how far it goes beyond, are less than the total before it. */
  ghost predicate Falls(s: System, step: Step, t: System) {
    step.Takes? && t.tracker.ownTotal + Beyond(s, step) < s.tracker.total
  }

  ghost function FallsOf(states: seq<System>, steps: seq<Step>, i: nat): nat
    requires i <= |steps| < |states|
  {
    if i == 0 then 0
    else FallsOf(states, steps, i - 1) + if Falls(states[i - 1], steps[i - 1], states[i]) then 1 else 0
  }

  lemma ParentIsListed(s: System, items: seq<Item>, k: nat)
    requires SystemInv(s) && SampleOf(s.kernel, s.outer, items) && k in Keys(items) && k > 0
    requires k !in s.tracker.entries
    ensures k < |s.kernel.forest| && s.kernel.forest[k] in Keys(items)
  {
    hide Sum, Counted, WaitedIsDead, PidsOk, IdentitiesOk, Accounts, LedgerOk;
    var i := KeyIsShown(items, k);
    assert ParentShown(s.kernel, items, i) && HasParent(s.kernel, s.tracker.entries.Keys, k);
  }

  lemma SampleFinds(s: System, items: seq<Item>)
    requires SystemInv(s) && Found(s) && SampleOf(s.kernel, s.outer, items)
    ensures var l := Observed(s.tracker.entries, Named(s.tracker.identities, items), items);
            && Files(l, s.kernel.forest) && (l != map[] ==> 0 in l)
            && RootKey(s.tracker.root, s.tracker.rootKey, items) == if 0 in l then Some(0) else None
  {
    var l := Observed(s.tracker.entries, Named(s.tracker.identities, items), items);
    SampledLedger(s, items);
    RootKeyIsRoot(s, items);
    RootStays(s, items);
    NothingShown(items);
    assert |items| > 0 ==> 0 in Keys(items);
    hide SystemInv, SampleOf, Named, Observed, RootKey, Keys;
    forall k | k in l ensures FilesOne(l, s.kernel.forest, k) {
      if k > 0 && k !in s.tracker.entries { ParentIsListed(s, items, k); }
      if k in s.tracker.entries { assert FilesOne(s.tracker.entries, s.kernel.forest, k); }
    }
    if |items| == 0 { assert l.Keys == s.tracker.entries.Keys; }
  }

  lemma NothingShown(items: seq<Item>)
    ensures |items| == 0 ==> Keys(items) == {}
  {
  }

  lemma RootStays(s: System, items: seq<Item>)
    ensures |items| == 0 ==> RootKey(s.tracker.root, s.tracker.rootKey, items) == s.tracker.rootKey
  {
  }

  lemma SampleReaches(s: System, items: seq<Item>, waitedTotal: Option<nat>)
    requires SystemInv(s) && Found(s) && SampleOf(s.kernel, s.outer, items) && WaitedOk(s.kernel, waitedTotal)
    ensures Rankable(s.tracker, items, |s.kernel.procs|)
    ensures var t := Updated(s.tracker, items, waitedTotal, |s.kernel.procs|);
            && t.total - t.ownTotal == Max(s.tracker.total - s.tracker.ownTotal, Beyond(s, Takes(items, waitedTotal)))
            && t.regressions == s.tracker.regressions
                                + if t.ownTotal + Beyond(s, Takes(items, waitedTotal)) < s.tracker.total then 1 else 0
  {
    SampleStaysBounded(s, items, waitedTotal);
    SampleFinds(s, items);
    hide Sum, Counted, WaitedIsDead, Named, Observed, PidsOk, IdentitiesOk, RootKey, Total, SurplusSum, WaitedOk;
    var l, n := Observed(s.tracker.entries, Named(s.tracker.identities, items), items), |s.kernel.procs|;
    assert s.tracker.total >= s.tracker.ownTotal;
    if 0 in l {
      TotalIsOwnAndSurplus(s.kernel.forest, l, Keys(items));
    } else {
      assert l == map[];
      NothingListed(l, Keys(items), n, n);
    }
  }

  lemma {:induction false} NothingListed(l: Ledger, current: set<nat>, n: nat, m: nat)
    requires l == map[] && Ordered(l, n)
    ensures OwnSum(l, m) == 0 && SurplusSum(l, current, n, m) == 0
  {
    if m > 0 { NothingListed(l, current, n, m - 1); }
  }

  lemma StepFinds(s: System, step: Step, t: System)
    requires SystemInv(s) && Found(s) && StepTo(s, step, t)
    ensures Found(t)
    ensures t.tracker.total - t.tracker.ownTotal == Max(s.tracker.total - s.tracker.ownTotal, Beyond(s, step))
    ensures t.tracker.regressions == s.tracker.regressions + if Falls(s, step, t) then 1 else 0
  {
    match step
    case Goes(e) =>
      hide Sum, Counted, WaitedIsDead, PidsOk, IdentitiesOk, Happen;
      EventContinues(s.kernel, e, s.tracker.entries.Keys);
      KernelKeeps(s.kernel, e, s.tracker.entries.Keys);
      forall k | k in s.tracker.entries ensures FilesOne(s.tracker.entries, t.kernel.forest, k) {
        assert FilesOne(s.tracker.entries, s.kernel.forest, k);
      }
    case Takes(items, waitedTotal) =>
      hide Sum, Counted, WaitedIsDead, PidsOk, IdentitiesOk, Named, Observed, RootKey, Value, Beyond, Happen;
      SampleReaches(s, items, waitedTotal);
      SampleFinds(s, items);
  }

  lemma {:induction false} PeakIsReached(states: seq<System>, steps: seq<Step>, i: nat)
    requires Run(states, steps) && i <= |steps|
    ensures Found(states[i]) && states[i].tracker.total - states[i].tracker.ownTotal == Peak(states, steps, i)
    ensures states[i].tracker.regressions == FallsOf(states, steps, i)
  {
    hide SystemInv, Beyond, StepTo, Falls;
    if i > 0 {
      PeakIsReached(states, steps, i - 1);
      CpuAccounting.RunKeeps(states, steps, i - 1);
      StepFinds(states[i - 1], steps[i - 1], states[i]);
    }
  }

  /**
   On every run the total is the CPU that was used, less what no sample has
   shown, plus the furthest a sample went. So it is at most the CPU used
   exactly when no sample went further than what is still unseen, and equal
   to it exactly when some sample went just as far.
   */
  lemma TotalExactlyWhen(states: seq<System>, steps: seq<Step>, i: nat)
    requires Run(states, steps) && i <= |steps|
    ensures Sized(states[i].kernel)
    ensures var used, unseen := TrueCpu(states[i].kernel), Sum(Unseen(states[i].kernel, states[i].tracker.entries));
            && states[i].tracker.total == used - unseen + Peak(states, steps, i)
            && (states[i].tracker.total <= used <==>
                  forall j :: 0 <= j < i ==> Beyond(states[j], steps[j]) <= unseen)
            && (states[i].tracker.total == used <==> Peak(states, steps, i) == unseen)
  {
    CpuAccounting.RunKeeps(states, steps, i);
    PeakIsReached(states, steps, i);
    TrueIsSeenAndUnseen(states[i].kernel, states[i].tracker.entries);
    PeakIsLargest(states, steps, i, Sum(Unseen(states[i].kernel, states[i].tracker.entries)));
    hide Sum, Unseen, Counted, WaitedIsDead, Sub, Peak, Beyond, Run, PidsOk;
  }

  /**
   On every run the regressions counted are the samples at which the own CPU
   seen, and what the sample went beyond it, had fallen below the total.
   */
  lemma RegressionsAreFalls(states: seq<System>, steps: seq<Step>, i: nat)
    requires Run(states, steps) && i <= |steps|
    ensures states[i].tracker.regressions == FallsOf(states, steps, i)
  {
    PeakIsReached(states, steps, i);
  }

  lemma {:induction false} PeakIsLargest(states: seq<System>, steps: seq<Step>, i: nat, x: nat)
    requires i <= |steps| <= |states|
    ensures Peak(states, steps, i) <= x <==> forall j :: 0 <= j < i ==> Beyond(states[j], steps[j]) <= x
  {
    hide Beyond;
    if i > 0 { PeakIsLargest(states, steps, i - 1, x); }
  }
}
