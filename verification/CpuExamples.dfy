/**
 Two runs of real processes: one on which the tracker counts CPU twice, by any
 amount, and one on which it misses CPU although nothing is lost.
 */
module CpuExamples {
  import opened Options
  import opened Sequences
  import opened CpuForest
  import opened CpuTracker
  import opened CpuAccounting
  import opened CpuSurplus
  import CpuExact

  // ---------- Building runs ----------

  /** A run that has come to `s`, with what slipped on the way and how far its samples went. */
  ghost predicate Going(states: seq<System>, steps: seq<Step>, s: System, slipped: nat, peak: nat) {
    && Run(states, steps) && states[|steps|] == s
    && SlippedIn(states, steps, |steps|) == slipped && Peak(states, steps, |steps|) == peak
  }

  const NEW_TRACKER := Tracker(10, None, map[], map[], 0, 0, 0)

  const ROOT := Proc(10, None, 0, 0, 0, true)

  lemma Begin() returns (states: seq<System>, steps: seq<Step>)
    ensures Going(states, steps, System(Kernel([0], [ROOT]), NEW_TRACKER, 1), 0, 0) && |steps| == 0
  {
    states, steps := [System(Kernel([0], [ROOT]), NEW_TRACKER, 1)], [];
  }

  lemma More(states: seq<System>, steps: seq<Step>, s: System, slipped: nat, peak: nat, step: Step, t: System)
    requires Going(states, steps, s, slipped, peak) && StepTo(s, step, t)
    ensures Going(states + [t], steps + [step], t, slipped + SlippedBy(s, step), Max(peak, Beyond(s, step)))
  {
    hide StepTo, Initial, SlippedBy, Beyond;
    SameBefore(states, steps, step, t, |steps|);
    var ss, ps := states + [t], steps + [step];
    forall i | 0 <= i < |ps| ensures StepTo(ss[i], ps[i], ss[i + 1]) {
      if i < |steps| { assert StepTo(states[i], steps[i], states[i + 1]); }
    }
  }

  lemma {:induction false} SameBefore(states: seq<System>, steps: seq<Step>, step: Step, t: System, i: nat)
    requires |states| == |steps| + 1 && i <= |steps|
    ensures SlippedIn(states + [t], steps + [step], i) == SlippedIn(states, steps, i)
    ensures Peak(states + [t], steps + [step], i) == Peak(states, steps, i)
  {
    if i > 0 { SameBefore(states, steps, step, t, i - 1); }
  }

  /** The run goes on with an event. */
  lemma Go(states: seq<System>, steps: seq<Step>, s: System, slipped: nat, peak: nat, e: Event, kernel: Kernel)
    returns (states': seq<System>, steps': seq<Step>)
    requires Going(states, steps, s, slipped, peak)
    requires Sized(s.kernel) && Happens(s, e) && Happen(s.kernel, e, s.tracker.entries.Keys) == kernel
    ensures Going(states', steps', s.(kernel := kernel), slipped + SlippedBy(s, Goes(e)), peak)
    ensures steps' == steps + [Goes(e)]
  {
    hide Happen, Possible, SlippedBy, Going;
    var t := s.(kernel := kernel);
    More(states, steps, s, slipped, peak, Goes(e), t);
    states', steps' := states + [t], steps + [Goes(e)];
  }

  /** What a sample leaves: entries that are up to date where it looked and as they were elsewhere. */
  ghost predicate Shown(s: Kernel, l: Ledger, keys: set<nat>, m: Ledger) {
    && Sized(s) && LedgerOk(s, m) && m.Keys == l.Keys + keys && Ordered(m, |s.procs|)
    && (forall k :: k in keys ==> k < |s.procs| && m[k].own == s.procs[k].own && m[k].waited == s.procs[k].waited)
    && (forall k :: k in l && k !in keys ==> m[k] == l[k])
  }

  lemma SampleShows(s: System, items: seq<Item>)
    requires SystemInv(s) && SampleOf(s.kernel, s.outer, items)
    ensures Shown(s.kernel, s.tracker.entries, Keys(items),
                  Observed(s.tracker.entries, Named(s.tracker.identities, items), items))
  {
    SampledLedger(s, items);
    hide Sum, Counted, WaitedIsDead, Named, Observed, PidsOk, IdentitiesOk, Accounts, SampleOf, Rooted, Lineage, Keys,
         LedgerOk, Ordered;
    LedgerIsOrdered(s.kernel, Observed(s.tracker.entries, Named(s.tracker.identities, items), items));
  }

  lemma SampleStep(s: System, items: seq<Item>) returns (t: System)
    requires SystemInv(s) && SampleOf(s.kernel, s.outer, items)
    ensures StepTo(s, Takes(items, None), t) && t == s.(tracker := t.tracker)
    ensures Shown(s.kernel, s.tracker.entries, Keys(items), t.tracker.entries)
    ensures var n := |s.kernel.procs|;
            Beyond(s, Takes(items, None)) == SurplusSum(t.tracker.entries, Keys(items), n, n)
  {
    SampleShows(s, items);
    SampleStaysBounded(s, items, None);
    hide SystemInv, SampleOf, Shown, Value, SurplusSum, OwnSum, Named, Observed, RootKey, Sum, Counted, Keys;
    t := s.(tracker := Updated(s.tracker, items, None, |s.kernel.procs|));
  }

  /** The run goes on with a sample. */
  lemma Take(states: seq<System>, steps: seq<Step>, s: System, slipped: nat, peak: nat, items: seq<Item>)
    returns (states': seq<System>, steps': seq<Step>, t: System)
    requires Going(states, steps, s, slipped, peak) && SampleOf(s.kernel, s.outer, items)
    ensures Shown(s.kernel, s.tracker.entries, Keys(items), t.tracker.entries)
    ensures t == s.(tracker := t.tracker)
    ensures var n := |s.kernel.procs|;
            Going(states', steps', t, slipped, Max(peak, SurplusSum(t.tracker.entries, Keys(items), n, n)))
    ensures steps' == steps + [Takes(items, None)]
  {
    CpuAccounting.RunKeeps(states, steps, |steps|);
    hide SystemInv, SampleOf, Shown, StepTo, Going, SurplusSum, Beyond, Keys;
    t := SampleStep(s, items);
    More(states, steps, s, slipped, peak, Takes(items, None), t);
    assert SlippedBy(s, Takes(items, None)) == 0;
    states', steps' := states + [t], steps + [Takes(items, None)];
  }

  /** An ended child that is an entry counts with its total. */
  lemma {:induction false} ChildCounts(l: Ledger, current: set<nat>, n: nat, key: nat, c: nat, m: nat, live: bool)
    requires Ordered(l, n) && key in l && c < m <= n
    requires c in l && l[c].parent == Some(key) && (c in current) == live
    ensures Children(l, current, n, key, m, live) >= Total(l, current, n, c)
  {
    hide Total;
    if c < m - 1 { ChildCounts(l, current, n, key, c, m - 1, live); }
  }

  lemma {:induction false} NoChildOf(l: Ledger, current: set<nat>, n: nat, key: nat, m: nat, live: bool)
    requires Ordered(l, n) && key in l && m <= n
    requires forall c :: c in l && l[c].parent == Some(key) ==> (c in current) != live
    ensures Children(l, current, n, key, m, live) == 0
  {
    hide Total;
    if m > 0 { NoChildOf(l, current, n, key, m - 1, live); }
  }

  lemma {:induction false} NobodyWaited(l: Ledger, current: set<nat>, n: nat, m: nat)
    requires Ordered(l, n) && forall k :: k in l && k < m ==> l[k].waited == 0
    ensures SurplusSum(l, current, n, m) == 0
  {
    if m > 0 { NobodyWaited(l, current, n, m - 1); }
  }

  /** Only the root has waited. */
  lemma {:induction false} OnlyRootWaited(l: Ledger, current: set<nat>, n: nat, m: nat)
    requires Ordered(l, n) && 0 in l && 0 < m && forall k :: k in l && 0 < k < m ==> l[k].waited == 0
    ensures SurplusSum(l, current, n, m) == Surplus(l, current, n, 0)
  {
    if m > 1 {
      OnlyRootWaited(l, current, n, m - 1);
      assert SurplusAt(l, current, n, m - 1) == 0;
    } else {
      assert SurplusSum(l, current, n, 0) == 0;
    }
  }

  /** A sample of the processes in `keys`. */
  function Show(s: Kernel, keys: seq<nat>): seq<Item>
    requires forall i :: 0 <= i < |keys| ==> keys[i] < |s.procs|
  {
    seq(|keys|, i requires 0 <= i < |keys| => ItemOf(s, 1, keys[i]))
  }

  lemma ShowIsSample(s: Kernel, keys: seq<nat>, k: set<nat>)
    requires (forall x :: x in k <==> x in keys) && 0 in k
    requires forall i :: 0 <= i < |keys| ==> keys[i] < |s.procs| && s.procs[keys[i]].alive
    requires forall i, j :: 0 <= i < j < |keys| ==> keys[i] != keys[j]
    requires forall i :: 0 <= i < |keys| && keys[i] > 0 ==>
               s.procs[keys[i]].parent.Some? && s.procs[keys[i]].parent.value in k
    ensures SampleOf(s, 1, Show(s, keys)) && Keys(Show(s, keys)) == k
  {
    var items := Show(s, keys);
    assert forall i :: 0 <= i < |keys| ==> items[i].key == keys[i];
    assert Keys(items) == k;
  }

  // ---------- An adopted orphan ----------

  const CHILD := Proc(11, Some(0), 0, 0, 0, true)

  const GRANDCHILD := Proc(12, Some(1), 0, 0, 0, true)

  /** The root, its child, the child of that, and a process that has used `x` ticks. */
  function Four(x: nat): Kernel { Kernel([0, 0, 1, 2], [ROOT, CHILD, GRANDCHILD, Proc(13, Some(2), x, 0, 0, true)]) }

  function ShownFour(x: nat): seq<Item> { Show(Four(x), [0, 1, 2, 3]) }

  lemma ThreeStart() returns (states: seq<System>, steps: seq<Step>)
    ensures Going(states, steps, System(Kernel([0, 0, 1], [ROOT, CHILD, GRANDCHILD]), NEW_TRACKER, 1), 0, 0)
    ensures steps == [Goes(Spawn(0, 11)), Goes(Spawn(1, 12))]
  {
    hide Going;
    var one, two := Kernel([0], [ROOT]), Kernel([0, 0], [ROOT, CHILD]);
    var three := Kernel([0, 0, 1], [ROOT, CHILD, GRANDCHILD]);
    states, steps := Begin();
    assert Happen(one, Spawn(0, 11), {}) == two;
    states, steps := Go(states, steps, System(one, NEW_TRACKER, 1), 0, 0, Spawn(0, 11), two);
    assert Happen(two, Spawn(1, 12), {}) == three;
    states, steps := Go(states, steps, System(two, NEW_TRACKER, 1), 0, 0, Spawn(1, 12), three);
  }

  lemma FourStart(x: nat) returns (states: seq<System>, steps: seq<Step>)
    ensures Going(states, steps, System(Four(x), NEW_TRACKER, 1), 0, 0) && |steps| == 4
  {
    hide Going;
    var three, four := Kernel([0, 0, 1], [ROOT, CHILD, GRANDCHILD]), Four(0);
    states, steps := ThreeStart();
    assert Happen(three, Spawn(2, 13), {}) == four;
    states, steps := Go(states, steps, System(three, NEW_TRACKER, 1), 0, 0, Spawn(2, 13), four);
    assert Happen(four, Work(3, x), {}) == Four(x);
    states, steps := Go(states, steps, System(four, NEW_TRACKER, 1), 0, 0, Work(3, x), Four(x));
  }

  /** The third has ended and the root has adopted the fourth. */
  function Adopted(x: nat): Kernel {
    Kernel([0, 0, 1, 2], [ROOT, CHILD, Proc(12, Some(1), 0, 0, 0, false), Proc(13, Some(0), x, 0, 0, true)])
  }

  /** The root has waited for the fourth. */
  function Reaped(x: nat): Kernel {
    Kernel([0, 0, 1, 2], [Proc(10, None, 0, x, x, true), CHILD, Proc(12, Some(1), 0, 0, 0, false),
                          Proc(13, Some(0), x, 0, 0, false)])
  }

  lemma AdoptionHappens(x: nat, filed: set<nat>)
    requires filed == {0, 1, 2, 3}
    ensures Sized(Four(x)) && Possible(Four(x), Exit(2, 0, Some(0)))
    ensures Happen(Four(x), Exit(2, 0, Some(0)), filed) == Adopted(x)
  {
    var t := Happen(Four(x), Exit(2, 0, Some(0)), filed);
    hide Under;
    assert Left(Four(x), 2, 0, Some(0), 1) == CHILD;
    assert t.forest == Adopted(x).forest && t.procs == Adopted(x).procs;
  }

  lemma ReapingHappens(x: nat, filed: set<nat>)
    ensures Sized(Adopted(x)) && Possible(Adopted(x), Exit(3, x, None)) && Slipped(Adopted(x), 3)
    ensures Happen(Adopted(x), Exit(3, x, None), filed) == Reaped(x)
  {
    var s := Adopted(x);
    assert Alive(s) == [true, true, false, true];
    assert !Under(s.forest, Alive(s), 2, 0);
    assert !Under(s.forest, Alive(s), 3, 0);
    hide Under;
    assert Slipped(s, 3);
    var t := Happen(s, Exit(3, x, None), filed);
    assert t.forest == Reaped(x).forest && t.procs == Reaped(x).procs;
  }

  lemma UsedByFour(x: nat, l: Ledger)
    requires LedgerOk(Reaped(x), l) && l.Keys == {0, 1, 2, 3} && l[3].own == x
    ensures Sized(Reaped(x)) && TrueCpu(Reaped(x)) == x && Sum(Unseen(Reaped(x), l)) == 0
  {
    var w := Own(Reaped(x));
    assert w == [0, 0, 0, x];
    assert w[..3] == [0, 0, 0];
    CpuExact.NoSum(w[..3]);
    SumTo(w, 4);
    assert w[..4] == w;
    TreeIsEverything(Reaped(x).forest, w);
    CpuExact.NoSum(Unseen(Reaped(x), l));
  }

  /** Above the orphan everybody in the sample lives, so nothing ended stands against what the root waited for. */
  lemma OrphanIsSurplus(x: nat, l: Ledger)
    requires LedgerOk(Reaped(x), l) && l.Keys == {0, 1, 2, 3} && l[0].waited == x && Ordered(l, 4)
    requires forall k :: 0 < k < 4 ==> l[k].waited == 0
    ensures SurplusSum(l, {0, 1}, 4, 4) == x
  {
    OnlyRootWaited(l, {0, 1}, 4, 4);
    NoChildOf(l, {0, 1}, 4, 0, 4, false);
  }

  lemma ShownFourIsSample(x: nat)
    ensures SampleOf(Four(x), 1, ShownFour(x)) && Keys(ShownFour(x)) == {0, 1, 2, 3}
  {
    hide Show, SampleOf, Keys;
    ShowIsSample(Four(x), [0, 1, 2, 3], {0, 1, 2, 3});
  }

  function ShownAfter(x: nat): seq<Item> { Show(Reaped(x), [0, 1]) }

  lemma AfterIsSample(x: nat)
    ensures SampleOf(Reaped(x), 1, ShownAfter(x)) && Keys(ShownAfter(x)) == {0, 1}
  {
    hide Show, SampleOf, Keys;
    ShowIsSample(Reaped(x), [0, 1], {0, 1});
  }

  ghost predicate FourEntries(l: Ledger, x: nat) {
    l.Keys == {0, 1, 2, 3} && l[3].own == x && forall k :: 0 <= k < 4 ==> l[k].waited == 0
  }

  lemma FirstShown(x: nat) returns (states: seq<System>, steps: seq<Step>, t: System)
    ensures Going(states, steps, t, 0, 0) && |steps| == 5
    ensures t.kernel == Four(x) && t.outer == 1 && FourEntries(t.tracker.entries, x)
  {
    hide Going, SampleOf, Keys, SurplusSum;
    states, steps := FourStart(x);
    ShownFourIsSample(x);
    states, steps, t := Take(states, steps, System(Four(x), NEW_TRACKER, 1), 0, 0, ShownFour(x));
    NobodyWaited(t.tracker.entries, {0, 1, 2, 3}, 4, 4);
  }

  lemma OrphanReaped(x: nat) returns (states: seq<System>, steps: seq<Step>, t: System)
    ensures Going(states, steps, t, x, 0) && |steps| == 7
    ensures t.kernel == Reaped(x) && t.outer == 1 && FourEntries(t.tracker.entries, x)
  {
    var s: System;
    states, steps, s := FirstShown(x);
    AdoptionHappens(x, s.tracker.entries.Keys);
    ReapingHappens(x, s.tracker.entries.Keys);
    hide Going, Happen, Possible, Slipped, Four, Adopted, Reaped;
    states, steps := Go(states, steps, s, 0, 0, Exit(2, 0, Some(0)), Adopted(x));
    s := s.(kernel := Adopted(x));
    states, steps := Go(states, steps, s, 0, 0, Exit(3, x, None), Reaped(x));
    t := s.(kernel := Reaped(x));
  }

  lemma AfterEntries(x: nat, l: Ledger, m: Ledger)
    requires FourEntries(l, x) && Shown(Reaped(x), l, {0, 1}, m)
    ensures LedgerOk(Reaped(x), m) && Ordered(m, 4) && m.Keys == {0, 1, 2, 3} && m[3].own == x && m[0].waited == x
    ensures forall k :: 0 < k < 4 ==> m[k].waited == 0
  {
    assert m[2] == l[2] && m[3] == l[3];
  }

  /**
   The third process ends, the root adopts its child and waits for it while the
   second process lives in between: all that the orphan used, whatever it is,
   is counted twice.
   */
  lemma AdoptedOrphanCountsTwice(x: nat) returns (states: seq<System>, steps: seq<Step>)
    ensures Run(states, steps) && |steps| == 8 && Sized(states[8].kernel)
    ensures SlippedIn(states, steps, 8) == x
    ensures TrueCpu(states[8].kernel) == x && states[8].tracker.total == TrueCpu(states[8].kernel) + x
  {
    var s: System;
    states, steps, s := OrphanReaped(x);
    var first := s.tracker.entries;
    AfterIsSample(x);
    hide Going, SampleOf, Keys, SurplusSum, Sum, Unseen, Shown, LedgerOk, FourEntries, Reaped, TrueCpu;
    ReapedSize(x);
    states, steps, s := Take(states, steps, s, x, 0, ShownAfter(x));
    AfterEntries(x, first, s.tracker.entries);
    OrphanIsSurplus(x, s.tracker.entries);
    UsedByFour(x, s.tracker.entries);
    Ends(states, steps, s, x, x);
  }

  lemma ReapedSize(x: nat)
    ensures |Reaped(x).procs| == 4 && Sized(Reaped(x))
  {
  }

  lemma Ends(states: seq<System>, steps: seq<Step>, s: System, slipped: nat, peak: nat)
    requires Going(states, steps, s, slipped, peak)
    ensures Run(states, steps) && states[|steps|] == s && SlippedIn(states, steps, |steps|) == slipped && Sized(s.kernel)
    ensures s.tracker.total == TrueCpu(s.kernel) - Sum(Unseen(s.kernel, s.tracker.entries)) + peak
  {
    TotalExactlyWhen(states, steps, |steps|);
  }

  // ---------- A hidden orphan ----------

  /** The root, a child that has used `a` ticks, and the child of that with `b` ticks. */
  function Three(a: nat, b: nat): Kernel {
    Kernel([0, 0, 1], [ROOT, Proc(11, Some(0), a, 0, 0, true), Proc(12, Some(1), b, 0, 0, true)])
  }

  /** The root has waited for its child and adopted the orphan. */
  function Waited(a: nat, b: nat): Kernel {
    Kernel([0, 0, 1],
           [Proc(10, None, 0, a, 0, true), Proc(11, Some(0), a, 0, 0, false), Proc(12, Some(0), b, 0, 0, true)])
  }

  function ShownThree(): seq<Item> { Show(Three(0, 0), [0, 1, 2]) }

  function ShownOrphan(a: nat, b: nat): seq<Item> { Show(Waited(a, b), [0, 2]) }

  lemma ThreeIsSample()
    ensures SampleOf(Three(0, 0), 1, ShownThree()) && Keys(ShownThree()) == {0, 1, 2}
  {
    hide Show, SampleOf, Keys;
    ShowIsSample(Three(0, 0), [0, 1, 2], {0, 1, 2});
  }

  lemma OrphanIsSample(a: nat, b: nat)
    ensures SampleOf(Waited(a, b), 1, ShownOrphan(a, b)) && Keys(ShownOrphan(a, b)) == {0, 2}
  {
    hide Show, SampleOf, Keys;
    ShowIsSample(Waited(a, b), [0, 2], {0, 2});
  }

  lemma ChildIsWaitedFor(a: nat, filed: set<nat>)
    requires filed == {0, 1, 2}
    ensures Sized(Three(a, 0)) && Possible(Three(a, 0), Exit(1, a, Some(0))) && !Slipped(Three(a, 0), 1)
    ensures Happen(Three(a, 0), Exit(1, a, Some(0)), filed) == Waited(a, 0)
  {
    var s := Three(a, 0);
    assert Under(s.forest, Alive(s), 1, 0);
    hide Under;
    assert !Slipped(s, 1);
    var t := Happen(s, Exit(1, a, Some(0)), filed);
    assert t.forest == Waited(a, 0).forest && t.procs == Waited(a, 0).procs;
  }

  lemma WorksOn(a: nat, b: nat, filed: set<nat>)
    ensures Sized(Three(0, 0)) && Possible(Three(0, 0), Work(1, a))
    ensures Happen(Three(0, 0), Work(1, a), filed) == Three(a, 0)
    ensures Sized(Waited(a, 0)) && Possible(Waited(a, 0), Work(2, b))
    ensures Happen(Waited(a, 0), Work(2, b), filed) == Waited(a, b)
  {
  }

  ghost predicate ThreeEntries(l: Ledger) {
    l.Keys == {0, 1, 2} && forall k :: 0 <= k < 3 ==> l[k].waited == 0 && l[k].own == 0
  }

  lemma ThreeShown() returns (states: seq<System>, steps: seq<Step>, t: System)
    ensures Going(states, steps, t, 0, 0)
    ensures steps == [Goes(Spawn(0, 11)), Goes(Spawn(1, 12)), Takes(ShownThree(), None)]
    ensures t.kernel == Three(0, 0) && t.outer == 1 && ThreeEntries(t.tracker.entries)
  {
    hide Going, SampleOf, Keys, SurplusSum;
    states, steps := ThreeStart();
    ThreeIsSample();
    states, steps, t := Take(states, steps, System(Three(0, 0), NEW_TRACKER, 1), 0, 0, ShownThree());
    NobodyWaited(t.tracker.entries, {0, 1, 2}, 3, 3);
  }

  lemma ChildWaitedFor(a: nat, b: nat) returns (states: seq<System>, steps: seq<Step>, t: System)
    ensures Going(states, steps, t, 0, 0)
    ensures steps == [Goes(Spawn(0, 11)), Goes(Spawn(1, 12)), Takes(ShownThree(), None), Goes(Work(1, a)),
                      Goes(Exit(1, a, Some(0))), Goes(Work(2, b))]
    ensures t.kernel == Waited(a, b) && t.outer == 1 && ThreeEntries(t.tracker.entries)
  {
    var s: System;
    states, steps, s := ThreeShown();
    WorksOn(a, b, s.tracker.entries.Keys);
    ChildIsWaitedFor(a, s.tracker.entries.Keys);
    hide Going, Happen, Possible, Slipped, Three, Waited;
    states, steps := Go(states, steps, s, 0, 0, Work(1, a), Three(a, 0));
    s := s.(kernel := Three(a, 0));
    states, steps := Go(states, steps, s, 0, 0, Exit(1, a, Some(0)), Waited(a, 0));
    s := s.(kernel := Waited(a, 0));
    states, steps := Go(states, steps, s, 0, 0, Work(2, b), Waited(a, b));
    t := s.(kernel := Waited(a, b));
  }

  /** The ended child still holds its living orphan, which stands against what the root waited for. */
  lemma OrphanHides(a: nat, b: nat, l: Ledger)
    requires LedgerOk(Waited(a, b), l) && Ordered(l, 3) && l.Keys == {0, 1, 2} && l[0].waited == a && l[2].own == b
    requires l[1].waited == 0 && l[2].waited == 0
    ensures SurplusSum(l, {0, 2}, 3, 3) <= if a > b then a - b else 0
  {
    OnlyRootWaited(l, {0, 2}, 3, 3);
    ChildCounts(l, {0, 2}, 3, 1, 2, 3, true);
    ChildCounts(l, {0, 2}, 3, 0, 1, 3, false);
    hide Children;
  }

  lemma UsedByThree(a: nat, b: nat, l: Ledger)
    requires LedgerOk(Waited(a, b), l) && l.Keys == {0, 1, 2} && l[1].own == 0 && l[2].own == b
    ensures Sized(Waited(a, b)) && TrueCpu(Waited(a, b)) == a + b && Sum(Unseen(Waited(a, b), l)) == a
  {
    var s := Waited(a, b);
    assert Own(s) == [0, a, b] && Unseen(s, l) == [0, a, 0];
    SumOfThree(0, a, b);
    SumOfThree(0, a, 0);
    TreeIsEverything(s.forest, Own(s));
  }

  lemma SumOfThree(x: nat, y: nat, z: nat)
    ensures Sum([x, y, z]) == x + y + z
  {
    SumMore([], x);
    SumMore([x], y);
    SumMore([x, y], z);
    assert [] + [x] == [x] && [x] + [y] == [x, y] && [x, y] + [z] == [x, y, z];
  }

  ghost predicate OrphanLedger(a: nat, b: nat, l: Ledger) {
    && LedgerOk(Waited(a, b), l) && Ordered(l, 3) && l.Keys == {0, 1, 2} && l[0].waited == a
    && l[1].waited == 0 && l[2].waited == 0 && l[1].own == 0 && l[2].own == b
  }

  lemma OrphanEntries(a: nat, b: nat, l: Ledger, m: Ledger)
    requires ThreeEntries(l) && Shown(Waited(a, b), l, {0, 2}, m)
    ensures OrphanLedger(a, b, m)
  {
    assert m[1] == l[1];
  }

  lemma OrphanTaken(a: nat, b: nat, states: seq<System>, steps: seq<Step>, s: System)
    returns (states': seq<System>, steps': seq<Step>, t: System)
    requires Going(states, steps, s, 0, 0) && s.kernel == Waited(a, b) && s.outer == 1
    requires ThreeEntries(s.tracker.entries)
    ensures t.kernel == Waited(a, b) && OrphanLedger(a, b, t.tracker.entries)
    ensures Going(states', steps', t, 0, SurplusSum(t.tracker.entries, {0, 2}, 3, 3))
    ensures steps' == steps + [Takes(ShownOrphan(a, b), None)]
  {
    OrphanIsSample(a, b);
    assert |Waited(a, b).procs| == 3;
    hide Going, SampleOf, Keys, SurplusSum, Shown, LedgerOk, ThreeEntries, Waited, ShownOrphan, Ordered;
    states', steps', t := Take(states, steps, s, 0, 0, ShownOrphan(a, b));
    OrphanEntries(a, b, s.tracker.entries, t.tracker.entries);
  }

  lemma OrphanShown(a: nat, b: nat) returns (states: seq<System>, steps: seq<Step>, t: System, peak: nat)
    ensures Going(states, steps, t, 0, peak) && peak <= if a > b then a - b else 0
    ensures steps == [Goes(Spawn(0, 11)), Goes(Spawn(1, 12)), Takes(ShownThree(), None), Goes(Work(1, a)),
                      Goes(Exit(1, a, Some(0))), Goes(Work(2, b)), Takes(ShownOrphan(a, b), None)]
    ensures t.kernel == Waited(a, b)
    ensures TrueCpu(Waited(a, b)) == a + b && Sum(Unseen(Waited(a, b), t.tracker.entries)) == a
  {
    hide Going, SurplusSum, Sum, Unseen, LedgerOk, ThreeEntries, Waited, ShownOrphan, ShownThree, TrueCpu,
         Ordered, Rooted;
    var s: System;
    states, steps, s := ChildWaitedFor(a, b);
    states, steps, t := OrphanTaken(a, b, states, steps, s);
    peak := SurplusSum(t.tracker.entries, {0, 2}, 3, 3);
    OrphanHides(a, b, t.tracker.entries);
    UsedByThree(a, b, t.tracker.entries);
  }

  /**
   The root is credited with all that its child used, and every sample shows
   all living processes; still the tracker reports no more than the larger of
   what the child and its orphan used, and not their sum.
   */
  lemma LivingOrphanHidesWaitedCpu(a: nat, b: nat) returns (states: seq<System>, steps: seq<Step>)
    ensures Run(states, steps) && |steps| == 7 && Sized(states[7].kernel)
    ensures steps == [Goes(Spawn(0, 11)), Goes(Spawn(1, 12)), Takes(ShownThree(), None), Goes(Work(1, a)),
                      Goes(Exit(1, a, Some(0))), Goes(Work(2, b)), Takes(ShownOrphan(a, b), None)]
    ensures TrueCpu(states[7].kernel) == a + b && states[7].tracker.total <= if a > b then a else b
  {
    hide Going, Sum, Unseen, Waited, ShownOrphan, ShownThree, TrueCpu, Run;
    var s, peak;
    states, steps, s, peak := OrphanShown(a, b);
    Ends(states, steps, s, 0, peak);
  }
}
