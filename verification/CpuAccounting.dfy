/**
 The tracker beside the kernel: processes start, run, end and are waited for,
 adopted or lost, and from time to time a sample of the tree is taken. What
 the tracker reports, against the CPU the tree has really used.
 */
module CpuAccounting {
  import opened Options
  import opened CpuForest
  import opened CpuTracker

  /** `outer` is the process number of the profiler, the parent of the root. */
  datatype System = System(kernel: Kernel, tracker: Tracker, outer: nat)

  /** The CPU of the whole tree, ended processes included. */
  ghost function TrueCpu(s: Kernel): nat
    requires Sized(s)
  {
    Sub(s.forest, Own(s), 0)
  }

  // ---------- What the tracker knows ----------

  /** Entries lag behind the kernel's counters and hold the right parents. */
  ghost predicate LedgerOk(s: Kernel, l: Ledger)
    requires |s.procs| == |s.forest|
  {
    forall k :: k in l ==>
      && k < |s.procs| && l[k].own <= s.procs[k].own && l[k].waited <= s.procs[k].waited
      && l[k].parent == (if k == 0 then None else Some(s.forest[k]))
  }

  /** What can have been counted: all of a dead lifetime, of a living one what was seen, and what slipped to either. */
  function Counted(s: Kernel, l: Ledger): seq<nat> {
    seq(|s.procs|, k requires 0 <= k < |s.procs| =>
      s.procs[k].slip + if !s.procs[k].alive then s.procs[k].own else if k in l then l[k].own else 0)
  }

  ghost predicate IdentitiesOk(s: Kernel, identities: map<nat, nat>) {
    forall p :: p in identities ==> identities[p] < |s.procs| && s.procs[identities[p]].pid == p
  }

  ghost predicate PidsOk(s: Kernel, root: nat, outer: nat) {
    && |s.procs| > 0 && s.procs[0].pid == root
    && (forall k :: 0 <= k < |s.procs| ==> s.procs[k].pid != outer)
    && (forall j, k :: 0 <= j < k < |s.procs| && s.procs[j].alive && s.procs[k].alive ==>
          s.procs[j].pid != s.procs[k].pid)
  }

  ghost predicate SystemInv(s: System) {
    && KernelInv(s.kernel, s.tracker.entries.Keys) && PidsOk(s.kernel, s.tracker.root, s.outer)
    && LedgerOk(s.kernel, s.tracker.entries) && IdentitiesOk(s.kernel, s.tracker.identities)
    && (s.tracker.rootKey.Some? ==> s.tracker.rootKey.value == 0)
    && Accounts(s.tracker, |s.kernel.procs|)
    && s.tracker.total <= Sum(Counted(s.kernel, s.tracker.entries))
  }

  // ---------- Samples ----------

  function ItemOf(s: Kernel, outer: nat, k: nat): Item
    requires k < |s.procs|
  {
    var parent := s.procs[k].parent;
    Item(k, s.procs[k].pid, if parent.Some? && parent.value < |s.procs| then s.procs[parent.value].pid else outer,
         s.procs[k].own, s.procs[k].waited)
  }

  /** The parent of a process that is shown is shown too. */
  ghost predicate ParentShown(s: Kernel, items: seq<Item>, i: nat)
    requires i < |items| && items[i].key < |s.procs|
  {
    items[i].key > 0 ==> s.procs[items[i].key].parent.Some? && s.procs[items[i].key].parent.value in Keys(items)
  }

  /** A sample shows living processes, each with its parent in the sample, from the root down. */
  ghost predicate SampleOf(s: Kernel, outer: nat, items: seq<Item>) {
    && (forall i :: 0 <= i < |items| ==>
          items[i].key < |s.procs| && s.procs[items[i].key].alive && items[i] == ItemOf(s, outer, items[i].key))
    && (forall i, j :: 0 <= i < j < |items| ==> items[i].key != items[j].key)
    && (forall i :: 0 <= i < |items| ==> ParentShown(s, items, i))
    && (|items| > 0 ==> 0 in Keys(items))
  }

  lemma SampleDistinct(s: System, items: seq<Item>)
    requires SystemInv(s) && SampleOf(s.kernel, s.outer, items)
    ensures Distinct(items)
  {
    hide Sum, Counted, WaitedIsDead, Accounts;
    forall i, j | 0 <= i < j < |items| ensures items[i].pid != items[j].pid {
      var a, b := items[i].key, items[j].key;
      assert items[i].pid == s.kernel.procs[a].pid && items[j].pid == s.kernel.procs[b].pid;
      if a < b { assert s.kernel.procs[a].pid != s.kernel.procs[b].pid; }
      else { assert s.kernel.procs[b].pid != s.kernel.procs[a].pid; }
    }
  }

  lemma SampledParent(s: System, items: seq<Item>, i: nat)
    requires SystemInv(s) && SampleOf(s.kernel, s.outer, items) && i < |items|
    ensures Lookup(Named(s.tracker.identities, items), items[i].ppid)
         == s.kernel.procs[items[i].key].parent
  {
    hide Sum, Counted, WaitedIsDead, Accounts, Named;
    SampleDistinct(s, items);
    NamedAt(s.tracker.identities, items);
    var k := items[i].key;
    assert ParentShown(s.kernel, items, i);
    if k > 0 {
      var j :| 0 <= j < |items| && items[j].key == s.kernel.procs[k].parent.value;
      assert items[j] == ItemOf(s.kernel, s.outer, items[j].key) && items[i] == ItemOf(s.kernel, s.outer, k);
      assert items[j].pid == items[i].ppid;
    }
  }

  lemma ItemIsShown(s: Kernel, outer: nat, items: seq<Item>, i: nat)
    requires SampleOf(s, outer, items) && i < |items|
    ensures items[i].key < |s.procs| && s.procs[items[i].key].alive && items[i] == ItemOf(s, outer, items[i].key)
    ensures items[i].key > 0 ==> s.procs[items[i].key].parent.Some?
  {
    assert ParentShown(s, items, i);
  }

  /** What the ledger and the kernel know of one living process. */
  lemma EntryIsBehind(s: System, k: nat)
    requires SystemInv(s) && k < |s.kernel.procs| && s.kernel.procs[k].alive
    ensures |s.kernel.procs| == |s.kernel.forest| && s.kernel.procs[0].parent.None?
    ensures var l, p := s.tracker.entries, s.kernel.procs[k];
            if k in l then
              l[k].own <= p.own && l[k].waited <= p.waited
              && l[k].parent == (if k == 0 then None else Some(s.kernel.forest[k]))
            else p.parent.Some? ==> s.kernel.forest[k] == p.parent.value
  {
    hide Sum, Counted, WaitedIsDead, Accounts, IdentitiesOk, PidsOk, Rooted;
    assert HasParent(s.kernel, s.tracker.entries.Keys, k);
  }

  /** The entry of a process that a sample shows is up to date, and filed as the process is. */
  lemma SampledEntry(s: System, items: seq<Item>, i: nat)
    requires SystemInv(s) && SampleOf(s.kernel, s.outer, items) && i < |items|
    ensures var k := items[i].key;
            var e := Observe(s.tracker.entries, Named(s.tracker.identities, items), items[i]);
            && k < |s.kernel.procs| && s.kernel.procs[k].alive
            && e.own == s.kernel.procs[k].own && e.waited == s.kernel.procs[k].waited
            && e.parent == (if k == 0 then None else Some(s.kernel.forest[k]))
  {
    hide SystemInv, SampleOf, Named, Lookup;
    SampledParent(s, items, i);
    ItemIsShown(s.kernel, s.outer, items, i);
    EntryIsBehind(s, items[i].key);
  }

  ghost predicate RefreshedAt(s: Kernel, m: Ledger, k: nat)
    requires |s.procs| == |s.forest| && k in m
  {
    && k < |s.procs| && s.procs[k].alive && m[k].own == s.procs[k].own && m[k].waited == s.procs[k].waited
    && m[k].parent == (if k == 0 then None else Some(s.forest[k]))
  }

  /** `m` is `l` with the entries of `keys` brought up to date. */
  ghost predicate Refreshed(s: Kernel, l: Ledger, keys: set<nat>, m: Ledger)
    requires |s.procs| == |s.forest|
  {
    && m.Keys == l.Keys + keys
    && (forall k :: k in keys ==> RefreshedAt(s, m, k))
    && (forall k :: k in l && k !in keys ==> m[k] == l[k])
  }

  lemma KeyIsShown(items: seq<Item>, k: nat) returns (i: nat)
    requires k in Keys(items)
    ensures i < |items| && items[i].key == k
  {
    i :| 0 <= i < |items| && items[i].key == k;
  }

  lemma SampleRefreshes(s: System, items: seq<Item>)
    requires SystemInv(s) && SampleOf(s.kernel, s.outer, items)
    ensures Refreshed(s.kernel, s.tracker.entries, Keys(items),
                      Observed(s.tracker.entries, Named(s.tracker.identities, items), items))
  {
    var before, identities := s.tracker.entries, Named(s.tracker.identities, items);
    var l := Observed(before, identities, items);
    SampleDistinct(s, items);
    ObservedAt(before, identities, items);
    hide SystemInv, SampleOf, Observe, Observed, Named, Distinct, Keys, Rooted, LedgerOk;
    forall k | k in Keys(items) ensures RefreshedAt(s.kernel, l, k) {
      var i := KeyIsShown(items, k);
      SampledEntry(s, items, i);
      assert l[k] == Observe(before, identities, items[i]);
    }
  }

  lemma RefreshedIsOk(s: Kernel, l: Ledger, keys: set<nat>, m: Ledger)
    requires |s.procs| == |s.forest| && LedgerOk(s, l) && Refreshed(s, l, keys, m)
    ensures LedgerOk(s, m)
  {
  }

  /** A sample brings the entries of its processes up to date and leaves the others. */
  lemma SampledLedger(s: System, items: seq<Item>)
    requires SystemInv(s) && SampleOf(s.kernel, s.outer, items)
    ensures var l := Observed(s.tracker.entries, Named(s.tracker.identities, items), items);
            && LedgerOk(s.kernel, l) && l.Keys == s.tracker.entries.Keys + Keys(items)
            && (forall k :: k in Keys(items) ==>
                  k < |s.kernel.procs| && s.kernel.procs[k].alive
                  && l[k].own == s.kernel.procs[k].own && l[k].waited == s.kernel.procs[k].waited)
            && (forall k :: k in s.tracker.entries && k !in Keys(items) ==> l[k] == s.tracker.entries[k])
  {
    SampleRefreshes(s, items);
    RefreshedIsOk(s.kernel, s.tracker.entries, Keys(items),
                  Observed(s.tracker.entries, Named(s.tracker.identities, items), items));
    hide SystemInv, SampleOf, Observed, Named, Keys, LedgerOk;
  }

  lemma LedgerIsOrdered(s: Kernel, l: Ledger)
    requires Sized(s) && LedgerOk(s, l)
    ensures Ordered(l, |s.procs|)
  {
  }

  // ---------- Never too much ----------

  /** Living children in the sample and ended ones fit side by side under their parent. */
  lemma {:induction false} TotalIsBounded(s: Kernel, l: Ledger, current: set<nat>, k: nat)
    requires Sized(s) && WaitedIsDead(s) && LedgerOk(s, l) && k in l && Ordered(l, |s.procs|)
    requires forall j :: j in current ==> j < |s.procs| && s.procs[j].alive
    ensures Total(l, current, |s.procs|, k) <= Sub(s.forest, Counted(s, l), k)
    decreases |s.procs| - k, |s.procs| + 1
  {
    var n, w := |s.procs|, Counted(s, l);
    ChildrenAreBounded(s, l, current, k, n);
    assert s.procs[k].waited <= s.procs[k].slip + DeadCpu(s, k);
    hide DeadBelow, DeadTree, Below, Children;
    DeadTreeIsBelow(s.forest, Alive(s), DeadOwn(s), k, n);
    DeadBelowLighter(s.forest, Alive(s), DeadOwn(s), w, k, n);
  }

  /** The two bounds on the children of `k` among the first `m` lifetimes. */
  ghost predicate ChildrenFit(s: Kernel, l: Ledger, current: set<nat>, k: nat, m: nat)
    requires Sized(s) && Ordered(l, |s.procs|) && k in l
    requires k < |s.procs| && m <= |s.procs|
  {
    var n, w := |s.procs|, Counted(s, l);
    && Children(l, current, n, k, m, false) + Children(l, current, n, k, m, true) <= Below(s.forest, w, k, m)
    && DeadBelow(s.forest, Alive(s), w, k, m) + Children(l, current, n, k, m, true) <= Below(s.forest, w, k, m)
  }

  lemma {:induction false} ChildrenAreBounded(s: Kernel, l: Ledger, current: set<nat>, k: nat, m: nat)
    requires Sized(s) && WaitedIsDead(s) && LedgerOk(s, l) && k in l && Ordered(l, |s.procs|) && m <= |s.procs|
    requires forall j :: j in current ==> j < |s.procs| && s.procs[j].alive
    ensures ChildrenFit(s, l, current, k, m)
    decreases |s.procs| - k, m
  {
    hide WaitedIsDead, Sub, Total, ChildrenFit;
    if m > 0 {
      ChildrenAreBounded(s, l, current, k, m - 1);
      if m - 1 in l && l[m - 1].parent == Some(k) {
        TotalIsBounded(s, l, current, m - 1);
      }
      OneMoreChild(s, l, current, k, m);
    } else {
      NoChildren(s, l, current, k);
    }
  }

  lemma NoChildren(s: Kernel, l: Ledger, current: set<nat>, k: nat)
    requires Sized(s) && Ordered(l, |s.procs|) && k in l && k < |s.procs|
    ensures ChildrenFit(s, l, current, k, 0)
  {
  }

  /** The bound on one filed lifetime. */
  ghost predicate TotalFits(s: Kernel, l: Ledger, current: set<nat>, c: nat)
    requires Sized(s) && Ordered(l, |s.procs|) && c in l && c < |s.procs|
  {
    Total(l, current, |s.procs|, c) <= Sub(s.forest, Counted(s, l), c)
  }

  lemma OneMoreChild(s: Kernel, l: Ledger, current: set<nat>, k: nat, m: nat)
    requires Sized(s) && Ordered(l, |s.procs|)
    requires k in l && 0 < m <= |s.procs| && (m - 1 in current ==> s.procs[m - 1].alive)
    requires ChildrenFit(s, l, current, k, m - 1)
    requires m - 1 in l && l[m - 1].parent == Some(k) ==>
               IsChild(s.forest, m - 1, k) && TotalFits(s, l, current, m - 1)
    ensures ChildrenFit(s, l, current, k, m)
  {
    hide Sub, Total, Counted;
    assert Alive(s)[m - 1] == s.procs[m - 1].alive;
  }

  lemma SumTo(w: seq<nat>, i: nat)
    requires 0 < i <= |w|
    ensures Sum(w[..i]) == Sum(w[..i - 1]) + w[i - 1]
  {
    assert w[..i][..i - 1] == w[..i - 1];
  }

  /** What a sample adds to the entries it adds to what can have been counted. */
  lemma {:induction false} CountedMoves(s: Kernel, l: Ledger, m: Ledger, i: nat)
    requires |s.procs| == |s.forest| && i <= |s.procs|
    requires l.Keys <= m.Keys && forall k :: k in m && (k !in l || m[k] != l[k]) ==> k < |s.procs| && s.procs[k].alive
    ensures Sum(Counted(s, m)[..i]) - Sum(Counted(s, l)[..i]) == OwnSum(m, i) - OwnSum(l, i)
  {
    hide Sum, Counted;
    CountedLength(s, l, m);
    if i > 0 {
      CountedMoves(s, l, m, i - 1);
      SumTo(Counted(s, m), i);
      SumTo(Counted(s, l), i);
      CountedMovesAt(s, l, m, i - 1);
    } else {
      NoSum(Counted(s, m));
      NoSum(Counted(s, l));
    }
  }

  lemma NoSum(w: seq<nat>)
    ensures Sum(w[..0]) == 0
  {
  }

  lemma CountedMovesAt(s: Kernel, l: Ledger, m: Ledger, k: nat)
    requires k < |s.procs| && l.Keys <= m.Keys
    requires k in m && (k !in l || m[k] != l[k]) ==> s.procs[k].alive
    ensures Counted(s, m)[k] + (if k in l then l[k].own else 0)
         == Counted(s, l)[k] + (if k in m then m[k].own else 0)
  {
  }

  /** While the root lives, no other process of a sample has its number. */
  lemma RootIsItself(s: System, items: seq<Item>, i: nat)
    requires SystemInv(s) && SampleOf(s.kernel, s.outer, items) && i < |items| && items[i].pid == s.tracker.root
    ensures items[i].key == 0
  {
    hide Sum, Counted, WaitedIsDead, Accounts, LedgerOk, IdentitiesOk;
    var j :| 0 <= j < |items| && items[j].key == 0;
    assert s.kernel.procs[0].alive;
    var k := items[i].key;
    assert s.kernel.procs[0].pid == s.kernel.procs[k].pid && s.kernel.procs[k].alive;
  }

  lemma {:induction false} RootKeyAmong(root: nat, known: Option<nat>, items: seq<Item>)
    requires forall i :: 0 <= i < |items| && items[i].pid == root ==> items[i].key == 0
    ensures var r := RootKey(root, known, items);
            if exists i :: 0 <= i < |items| && items[i].pid == root then r == Some(0) else r == known
  {
    if |items| > 0 && items[|items| - 1].pid != root { RootKeyAmong(root, known, items[..|items| - 1]); }
  }

  lemma RootIsShown(s: System, items: seq<Item>) returns (j: nat)
    requires SystemInv(s) && SampleOf(s.kernel, s.outer, items) && |items| > 0
    ensures j < |items| && items[j].pid == s.tracker.root
  {
    hide Sum, Counted, WaitedIsDead, Accounts, LedgerOk, IdentitiesOk;
    j :| 0 <= j < |items| && items[j].key == 0;
    assert items[j] == ItemOf(s.kernel, s.outer, 0);
  }

  lemma RootKeyIsRoot(s: System, items: seq<Item>)
    requires SystemInv(s) && SampleOf(s.kernel, s.outer, items)
    ensures var r := RootKey(s.tracker.root, s.tracker.rootKey, items);
            (r.Some? ==> r.value == 0) && (|items| > 0 ==> r == Some(0))
  {
    assert s.tracker.rootKey.Some? ==> s.tracker.rootKey.value == 0;
    hide SystemInv, SampleOf, RootKey;
    forall i | 0 <= i < |items| && items[i].pid == s.tracker.root ensures items[i].key == 0 {
      RootIsItself(s, items, i);
    }
    RootKeyAmong(s.tracker.root, s.tracker.rootKey, items);
    if |items| > 0 { var j := RootIsShown(s, items); }
  }

  /** The parent of the root can have waited for nothing but ended processes. */
  predicate WaitedOk(s: Kernel, waitedTotal: Option<nat>) { waitedTotal.Some? ==> waitedTotal.value <= Sum(Ended(s)) }

  lemma CountedCoversDead(s: Kernel, l: Ledger)
    ensures Sum(Ended(s)) <= Sum(Counted(s, l))
  {
    LighterSum(Ended(s), Counted(s, l));
  }

  lemma ValueIsBounded(s: Kernel, m: Ledger, rootKey: Option<nat>, current: set<nat>, waitedTotal: Option<nat>)
    requires Sized(s) && WaitedIsDead(s) && LedgerOk(s, m) && Ordered(m, |s.procs|) && WaitedOk(s, waitedTotal)
    requires forall j :: j in current ==> j < |s.procs| && s.procs[j].alive
    requires rootKey.Some? ==> rootKey.value == 0
    ensures Value(m, rootKey, current, |s.procs|, waitedTotal) <= Sum(Counted(s, m))
  {
    hide Sum, Counted, WaitedIsDead, Sub, Total;
    CountedLength(s, m, m);
    if 0 in m {
      TotalIsBounded(s, m, current, 0);
      TreeIsEverything(s.forest, Counted(s, m));
    }
    CountedCoversDead(s, m);
  }

  lemma CountedGrowsAsSeen(s: System, items: seq<Item>)
    requires SystemInv(s) && SampleOf(s.kernel, s.outer, items)
    ensures var l := s.tracker.entries;
            var m := Observed(l, Named(s.tracker.identities, items), items);
            var n := |s.kernel.procs|;
            Sum(Counted(s.kernel, m)) - Sum(Counted(s.kernel, l)) == OwnSum(m, n) - OwnSum(l, n)
  {
    hide Sum, Counted, WaitedIsDead, Named, Observed, Sub, Total, PidsOk, IdentitiesOk, OwnSum;
    var k, n := s.kernel, |s.kernel.procs|;
    var l, m := s.tracker.entries, Observed(s.tracker.entries, Named(s.tracker.identities, items), items);
    SampledLedger(s, items);
    CountedMoves(k, l, m, n);
    CountedLength(k, l, m);
    assert Counted(k, m)[..n] == Counted(k, m) && Counted(k, l)[..n] == Counted(k, l);
  }

  lemma SampleStaysBounded(s: System, items: seq<Item>, waitedTotal: Option<nat>)
    requires SystemInv(s) && SampleOf(s.kernel, s.outer, items) && WaitedOk(s.kernel, waitedTotal)
    ensures Rankable(s.tracker, items, |s.kernel.procs|)
    ensures var t := Updated(s.tracker, items, waitedTotal, |s.kernel.procs|);
            t.total <= Sum(Counted(s.kernel, t.entries))
  {
    hide Sum, Counted, WaitedIsDead, Named, Observed, Sub, Value, PidsOk, IdentitiesOk, OwnSum, Keys, RootKey, WaitedOk;
    var m := Observed(s.tracker.entries, Named(s.tracker.identities, items), items);
    SampledLedger(s, items);
    LedgerIsOrdered(s.kernel, m);
    RootKeyIsRoot(s, items);
    ValueIsBounded(s.kernel, m, RootKey(s.tracker.root, s.tracker.rootKey, items), Keys(items), waitedTotal);
    CountedGrowsAsSeen(s, items);
  }

  lemma CountedLength(s: Kernel, l: Ledger, m: Ledger)
    ensures |Counted(s, l)| == |s.procs| == |Counted(s, m)|
  {
  }

  /** A sample keeps everything the tracker relies on. */
  lemma SampleKeeps(s: System, items: seq<Item>, waitedTotal: Option<nat>)
    requires SystemInv(s) && SampleOf(s.kernel, s.outer, items) && WaitedOk(s.kernel, waitedTotal)
    ensures Rankable(s.tracker, items, |s.kernel.procs|)
    ensures SystemInv(s.(tracker := Updated(s.tracker, items, waitedTotal, |s.kernel.procs|)))
  {
    FiledMore(s.kernel, s.tracker.entries.Keys, Keys(items));
    hide Sum, Counted, WaitedIsDead, Observed, Sub, Total, PidsOk, Value, OwnSum, RootKey, Named;
    SampleStaysBounded(s, items, waitedTotal);
    SampleDistinct(s, items);
    UpdateNeverFalls(s.tracker, items, waitedTotal, |s.kernel.procs|, |s.kernel.procs|);
    SampledLedger(s, items);
    RootKeyIsRoot(s, items);
    SampledIdentities(s, items);
  }

  lemma FiledMore(s: Kernel, filed: set<nat>, more: set<nat>)
    requires KernelInv(s, filed)
    ensures KernelInv(s, filed + more)
  {
    hide WaitedIsDead;
    forall k | 0 <= k < |s.procs| ensures HasParent(s, filed + more, k) { assert HasParent(s, filed, k); }
  }

  lemma SampledIdentities(s: System, items: seq<Item>)
    requires SystemInv(s) && SampleOf(s.kernel, s.outer, items)
    ensures IdentitiesOk(s.kernel, Named(s.tracker.identities, items))
  {
    hide Sum, Counted, WaitedIsDead, Named, PidsOk, Accounts, LedgerOk;
    SampleDistinct(s, items);
    NamedAt(s.tracker.identities, items);
    var m := Named(s.tracker.identities, items);
    forall p | p in m ensures m[p] < |s.kernel.procs| && s.kernel.procs[m[p]].pid == p {
      if exists i :: 0 <= i < |items| && items[i].pid == p {
        var i :| 0 <= i < |items| && items[i].pid == p;
        assert items[i] == ItemOf(s.kernel, s.outer, items[i].key);
      }
    }
  }

  // ---------- The kernel goes on ----------

  predicate Happens(s: System, e: Event) { Possible(s.kernel, e) && (e.Spawn? ==> e.pid != s.outer) }

  /** What an event leaves of a process that was there: its number, and counters that only grow. */
  ghost predicate Continues(s: Kernel, t: Kernel, filed: set<nat>) {
    && |s.procs| == |s.forest| <= |t.procs| == |t.forest|
    && forall k :: 0 <= k < |s.procs| ==>
         && t.procs[k].pid == s.procs[k].pid && s.procs[k].own <= t.procs[k].own && s.procs[k].waited <= t.procs[k].waited
         && s.procs[k].slip <= t.procs[k].slip
         && (t.procs[k].alive ==> s.procs[k].alive) && (k in filed ==> t.forest[k] == s.forest[k])
  }

  lemma EventContinues(s: Kernel, e: Event, filed: set<nat>)
    requires Sized(s) && Possible(s, e)
    ensures Continues(s, Happen(s, e, filed), filed)
    ensures |Happen(s, e, filed).procs| == |s.procs| + if e.Spawn? then 1 else 0
    ensures e.Spawn? ==> Happen(s, e, filed).procs[|s.procs|].pid == e.pid
  {
    hide Under, Rooted, Slipped;
  }

  /** A running process is counted as it was seen; an ended one with all its CPU. */
  lemma CountedLighter(s: Kernel, t: Kernel, l: Ledger)
    requires |s.procs| == |s.forest| == |t.procs| && LedgerOk(s, l) && Continues(s, t, l.Keys)
    ensures Lighter(Counted(s, l), Counted(t, l))
  {
    hide Rooted;
    forall k | 0 <= k < |s.procs| ensures Counted(s, l)[k] <= Counted(t, l)[k] {
      assert k in l ==> l[k].own <= s.procs[k].own;
    }
  }

  lemma NewcomerCountsNothing(s: Kernel, parent: nat, pid: nat, l: Ledger)
    requires |s.procs| == |s.forest| && forall k :: k in l ==> k < |s.procs|
    ensures var t := Kernel(s.forest + [parent], s.procs + [Proc(pid, Some(parent), 0, 0, 0, true)]);
            Counted(t, l) == Counted(s, l) + [0]
  {
    var procs := s.procs + [Proc(pid, Some(parent), 0, 0, 0, true)];
    var t := Kernel(s.forest + [parent], procs);
    var v, w := Counted(t, l), Counted(s, l) + [0];
    assert |v| == |w| == |procs| && |procs| - 1 !in l;
    forall k | 0 <= k < |procs| ensures v[k] == w[k] {
      if k < |s.procs| { assert procs[k] == s.procs[k]; }
    }
  }

  lemma CountedNeverFalls(s: Kernel, l: Ledger, e: Event)
    requires Sized(s) && LedgerOk(s, l) && Possible(s, e)
    ensures Sum(Counted(s, l)) <= Sum(Counted(Happen(s, e, l.Keys), l))
  {
    hide Sum, Counted, Rooted, Under, Slipped;
    if e.Spawn? {
      NewcomerCountsNothing(s, e.parent, e.pid, l);
      SumMore(Counted(s, l), 0);
    } else {
      EventContinues(s, e, l.Keys);
      hide Happen;
      CountedLighter(s, Happen(s, e, l.Keys), l);
      LighterSum(Counted(s, l), Counted(Happen(s, e, l.Keys), l));
    }
  }

  lemma SumMore(w: seq<nat>, x: nat)
    ensures Sum(w + [x]) == Sum(w) + x
  {
    assert (w + [x])[..|w|] == w;
  }

  lemma EventKeeps(s: System, e: Event)
    requires SystemInv(s) && Happens(s, e)
    ensures SystemInv(s.(kernel := Happen(s.kernel, e, s.tracker.entries.Keys)))
  {
    hide WaitedIsDead, Sum, Counted, Possible, Happen, OwnSum;
    CountedNeverFalls(s.kernel, s.tracker.entries, e);
    KernelKeeps(s.kernel, e, s.tracker.entries.Keys);
    EventKeepsTables(s, e);
    OwnSumBeyond(s.tracker.entries, |s.kernel.procs|, |Happen(s.kernel, e, s.tracker.entries.Keys).procs|);
  }

  lemma EventKeepsTables(s: System, e: Event)
    requires SystemInv(s) && Happens(s, e)
    ensures var t := Happen(s.kernel, e, s.tracker.entries.Keys);
            |t.procs| == |t.forest| && |s.kernel.procs| <= |t.procs|
            && PidsOk(t, s.tracker.root, s.outer) && LedgerOk(t, s.tracker.entries)
            && IdentitiesOk(t, s.tracker.identities)
  {
    hide WaitedIsDead, Sum, Counted, Happen, Sized, Lineage, Accounts, Rooted;
    EventContinues(s.kernel, e, s.tracker.entries.Keys);
  }

  // ---------- Runs ----------

  datatype Step = Goes(event: Event) | Takes(items: seq<Item>, waitedTotal: Option<nat>)

  ghost predicate Initial(s: System) {
    && s.kernel == Kernel([0], [Proc(s.tracker.root, None, 0, 0, 0, true)]) && s.outer != s.tracker.root
    && s.tracker == Tracker(s.tracker.root, None, map[], map[], 0, 0, 0)
  }

  ghost predicate StepTo(s: System, step: Step, t: System) {
    match step
    case Goes(e) => Sized(s.kernel) && Happens(s, e) && t == s.(kernel := Happen(s.kernel, e, s.tracker.entries.Keys))
    case Takes(items, waitedTotal) =>
      && SampleOf(s.kernel, s.outer, items) && WaitedOk(s.kernel, waitedTotal)
      && Rankable(s.tracker, items, |s.kernel.procs|)
      && t == s.(tracker := Updated(s.tracker, items, waitedTotal, |s.kernel.procs|))
  }

  ghost predicate Run(states: seq<System>, steps: seq<Step>) {
    && |states| == |steps| + 1 && Initial(states[0])
    && forall i :: 0 <= i < |steps| ==> StepTo(states[i], steps[i], states[i + 1])
  }

  lemma InitialHolds(s: System)
    requires Initial(s)
    ensures SystemInv(s)
  {
    assert s.kernel.procs[0].waited == 0;
    assert OwnSum(map[], 0) == 0 && OwnSum(map[], 1) == 0;
  }

  lemma StepKeeps(s: System, step: Step, t: System)
    requires SystemInv(s) && StepTo(s, step, t)
    ensures SystemInv(t)
  {
    hide SystemInv, Happens, SampleOf, Rankable;
    match step
    case Goes(e) => EventKeeps(s, e);
    case Takes(items, waitedTotal) => SampleKeeps(s, items, waitedTotal);
  }

  lemma {:induction false} RunKeeps(states: seq<System>, steps: seq<Step>, i: nat)
    requires Run(states, steps) && i <= |steps|
    ensures SystemInv(states[i])
  {
    hide SystemInv, StepTo, Initial;
    if i == 0 {
      InitialHolds(states[0]);
    } else {
      RunKeeps(states, steps, i - 1);
      StepKeeps(states[i - 1], steps[i - 1], states[i]);
    }
  }

  lemma {:induction false} SumAdds(w: seq<nat>, v: seq<nat>, u: seq<nat>)
    requires |w| == |v| == |u| && forall k :: 0 <= k < |w| ==> u[k] <= w[k] + v[k]
    ensures Sum(u) <= Sum(w) + Sum(v)
  {
    if |w| > 0 { SumAdds(w[..|w| - 1], v[..|v| - 1], u[..|u| - 1]); }
  }

  lemma CountedIsUsed(s: Kernel, l: Ledger)
    requires Sized(s) && LedgerOk(s, l)
    ensures Sum(Counted(s, l)) <= TrueCpu(s) + Sum(Slips(s))
  {
    hide Sub, Sum;
    SumAdds(Own(s), Slips(s), Counted(s, l));
    TreeIsEverything(s.forest, Own(s));
  }

  // ---------- What slips ----------

  /** The ticks that one step credits past a living process. */
  ghost function SlippedBy(s: System, step: Step): nat {
    if step.Goes? && step.event.Exit? && Sized(s.kernel) && Slipped(s.kernel, step.event.k) then step.event.credited
    else 0
  }

  ghost function SlippedIn(states: seq<System>, steps: seq<Step>, i: nat): nat
    requires i <= |steps| <= |states|
  {
    if i == 0 then 0 else SlippedIn(states, steps, i - 1) + SlippedBy(states[i - 1], steps[i - 1])
  }

  lemma {:induction false} SumChanges(w: seq<nat>, v: seq<nat>, k: nat, x: nat)
    requires |w| == |v| && k < |w| && v == w[k := w[k] + x]
    ensures Sum(v) == Sum(w) + x
  {
    if k < |w| - 1 {
      assert v[..|v| - 1] == w[..|w| - 1][k := w[k] + x];
      SumChanges(w[..|w| - 1], v[..|v| - 1], k, x);
    } else {
      assert v[..|v| - 1] == w[..|w| - 1];
    }
  }

  lemma EventSlips(s: System, e: Event)
    requires SystemInv(s) && Happens(s, e)
    ensures Sum(Slips(Happen(s.kernel, e, s.tracker.entries.Keys))) == Sum(Slips(s.kernel)) + SlippedBy(s, Goes(e))
  {
    hide Sum, Counted, WaitedIsDead, Under, PidsOk, LedgerOk, IdentitiesOk, Accounts;
    var w, v := Slips(s.kernel), Slips(Happen(s.kernel, e, s.tracker.entries.Keys));
    match e
    case Spawn(parent, pid) =>
      assert v == w + [0];
      SumMore(w, 0);
    case Work(k, cpu) => assert v == w;
    case Exit(c, credited, adopter) =>
      if s.kernel.procs[c].parent.Some? && Slipped(s.kernel, c) {
        var r := s.kernel.procs[c].parent.value;
        assert HasParent(s.kernel, s.tracker.entries.Keys, c) && HasParent(s.kernel, s.tracker.entries.Keys, r);
        assert v == w[r := w[r] + credited];
        SumChanges(w, v, r, credited);
      } else {
        assert v == w;
      }
  }

  /** What slipped to the processes is what the steps of the run let slip. */
  lemma {:induction false} SlipsAreCredits(states: seq<System>, steps: seq<Step>, i: nat)
    requires Run(states, steps) && i <= |steps|
    ensures Sum(Slips(states[i].kernel)) == SlippedIn(states, steps, i)
  {
    hide SystemInv, Happens, Sum;
    if i == 0 {
      NoSlip(states[0]);
    } else {
      SlipsAreCredits(states, steps, i - 1);
      RunKeeps(states, steps, i - 1);
      assert StepTo(states[i - 1], steps[i - 1], states[i]);
      if steps[i - 1].Goes? { EventSlips(states[i - 1], steps[i - 1].event); }
    }
  }

  lemma NoSlip(s: System)
    requires Initial(s)
    ensures Sum(Slips(s.kernel)) == 0
  {
    var w := Slips(s.kernel);
    assert w == [0] && w[..0] == [];
  }

  /**
   At every point of every run, whatever was lost, adopted or missed: the total
   is at least the own CPU ever seen, and it exceeds the CPU the tree has used
   by at most what was credited past living processes.
   */
  lemma TotalIsBetween(states: seq<System>, steps: seq<Step>, i: nat)
    requires Run(states, steps) && i <= |steps|
    ensures SystemInv(states[i])
    ensures OwnSum(states[i].tracker.entries, |states[i].kernel.procs|) <= states[i].tracker.total
            <= TrueCpu(states[i].kernel) + SlippedIn(states, steps, i)
  {
    RunKeeps(states, steps, i);
    SlipsAreCredits(states, steps, i);
    hide Sum, Counted, WaitedIsDead, OwnSum, Sub, PidsOk, Run;
    CountedIsUsed(states[i].kernel, states[i].tracker.entries);
  }

  lemma {:induction false} NothingSlipped(states: seq<System>, steps: seq<Step>, i: nat)
    requires i <= |steps| <= |states|
    ensures SlippedIn(states, steps, i) == 0 <==> forall j :: 0 <= j < i ==> SlippedBy(states[j], steps[j]) == 0
  {
    hide SlippedBy;
    if i > 0 { NothingSlipped(states, steps, i - 1); }
  }

  /** Unless CPU is credited past a living process, the total never exceeds what was used. */
  lemma TotalIsAtMostTrue(states: seq<System>, steps: seq<Step>, i: nat)
    requires Run(states, steps) && i <= |steps|
    requires forall j :: 0 <= j < i ==> SlippedBy(states[j], steps[j]) == 0
    ensures SystemInv(states[i]) && states[i].tracker.total <= TrueCpu(states[i].kernel)
  {
    TotalIsBetween(states, steps, i);
    NothingSlipped(states, steps, i);
  }

  lemma StepNeverFalls(s: System, step: Step, t: System)
    requires SystemInv(s) && StepTo(s, step, t)
    ensures s.tracker.total <= t.tracker.total
  {
    hide Sum, Counted, WaitedIsDead, OwnSum, Sub, PidsOk, Updated, Happens;
    match step
    case Goes(e) =>
    case Takes(items, waitedTotal) =>
      SampleDistinct(s, items);
      UpdateNeverFalls(s.tracker, items, waitedTotal, |s.kernel.procs|, |s.kernel.procs|);
  }

  /** The total never falls. */
  lemma {:induction false} TotalNeverFalls(states: seq<System>, steps: seq<Step>, i: nat, j: nat)
    requires Run(states, steps) && i <= j <= |steps|
    ensures states[i].tracker.total <= states[j].tracker.total
    decreases j
  {
    hide SystemInv, StepTo, Initial;
    if i < j {
      TotalNeverFalls(states, steps, i, j - 1);
      RunKeeps(states, steps, j - 1);
      StepNeverFalls(states[j - 1], steps[j - 1], states[j]);
    }
  }
}
