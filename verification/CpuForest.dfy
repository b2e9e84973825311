/**
 A process tree with its CPU, as the kernel keeps it: lifetimes numbered in
 birth order, so that every parent comes before its children. What a process
 that ends has used may be credited to its parent in part or be lost; its
 children are adopted by another process of the tree or leave the tree.
 */
module CpuForest {
  import opened Options

  /** The parent of every lifetime but the first, which is the root. */
  type Forest = seq<nat>

  predicate Rooted(f: Forest) {
    |f| > 0 && forall k :: 0 < k < |f| ==> f[k] < k
  }

  predicate IsChild(f: Forest, j: nat, k: nat)
    requires j < |f|
  {
    j > 0 && f[j] == k
  }

  // ---------- Sums ----------

  function Sum(w: seq<nat>): nat { if |w| == 0 then 0 else Sum(w[..|w| - 1]) + w[|w| - 1] }

  /** Everything below and at lifetime `k`, each lifetime weighing `w`. */
  function Sub(f: Forest, w: seq<nat>, k: nat): nat
    requires Rooted(f) && |w| == |f| && k < |f|
    decreases |f| - k, |f| + 1
  {
    w[k] + Below(f, w, k, |f|)
  }

  /** The subtrees of the children of `k` among the first `m` lifetimes. */
  function Below(f: Forest, w: seq<nat>, k: nat, m: nat): nat
    requires Rooted(f) && |w| == |f| && k < |f| && m <= |f|
    decreases |f| - k, m
  {
    if m == 0 then 0
    else Below(f, w, k, m - 1) + (if IsChild(f, m - 1, k) then Sub(f, w, m - 1) else 0)
  }

  lemma {:induction false} NoEarlyChildren(f: Forest, w: seq<nat>, k: nat, m: nat)
    requires Rooted(f) && |w| == |f| && k < |f| && m <= k + 1
    ensures Below(f, w, k, m) == 0
  {
    if m > 0 { NoEarlyChildren(f, w, k, m - 1); }
  }

  /** What the first `m` lifetimes hold once every later one has been added to its parent. */
  function Gathered(f: Forest, w: seq<nat>, m: nat, i: nat): int
    requires Rooted(f) && |w| == |f| && i <= m <= |f|
  {
    if i == 0 then 0 else Gathered(f, w, m, i - 1) + Sub(f, w, i - 1) - Below(f, w, i - 1, m)
  }

  lemma {:induction false} OneGathered(f: Forest, w: seq<nat>, m: nat, i: nat)
    requires Rooted(f) && |w| == |f| && 0 < m < |f| && i <= m
    ensures Gathered(f, w, m, i) - Gathered(f, w, m + 1, i) == if f[m] < i then Sub(f, w, m) else 0
  {
    hide Sub;
    if i > 0 { OneGathered(f, w, m, i - 1); }
  }

  lemma {:induction false} GatheredIsConstant(f: Forest, w: seq<nat>, m: nat)
    requires Rooted(f) && |w| == |f| && 0 < m <= |f|
    ensures Gathered(f, w, m, m) == Gathered(f, w, |f|, |f|)
    decreases |f| - m
  {
    if m < |f| {
      GatheredIsConstant(f, w, m + 1);
      OneGathered(f, w, m, m);
      NoEarlyChildren(f, w, m, m + 1);
    }
  }

  lemma {:induction false} GatheredAll(f: Forest, w: seq<nat>, i: nat)
    requires Rooted(f) && |w| == |f| && i <= |f|
    ensures Gathered(f, w, |f|, i) == Sum(w[..i])
  {
    if i > 0 {
      GatheredAll(f, w, i - 1);
      assert w[..i][..i - 1] == w[..i - 1];
    }
  }

  /** The tree of the root holds every lifetime exactly once. */
  lemma TreeIsEverything(f: Forest, w: seq<nat>)
    requires Rooted(f) && |w| == |f|
    ensures Sub(f, w, 0) == Sum(w)
  {
    GatheredIsConstant(f, w, 1);
    GatheredAll(f, w, |f|);
    NoEarlyChildren(f, w, 0, 1);
    hide Sub, Below;
    assert w[..|f|] == w;
    assert Gathered(f, w, 1, 1) == Gathered(f, w, 1, 0) + Sub(f, w, 0) - Below(f, w, 0, 1);
  }

  // ---------- Heavier and larger trees ----------

  ghost predicate Lighter(w: seq<nat>, v: seq<nat>) { |w| == |v| && forall k :: 0 <= k < |w| ==> w[k] <= v[k] }

  lemma {:induction false} LighterSub(f: Forest, w: seq<nat>, v: seq<nat>, k: nat)
    requires Rooted(f) && |w| == |f| && Lighter(w, v) && k < |f|
    ensures Sub(f, w, k) <= Sub(f, v, k)
    decreases |f| - k, |f| + 1
  {
    LighterBelow(f, w, v, k, |f|);
  }

  lemma {:induction false} LighterBelow(f: Forest, w: seq<nat>, v: seq<nat>, k: nat, m: nat)
    requires Rooted(f) && |w| == |f| && Lighter(w, v) && k < |f| && m <= |f|
    ensures Below(f, w, k, m) <= Below(f, v, k, m)
    decreases |f| - k, m
  {
    if m > 0 {
      LighterBelow(f, w, v, k, m - 1);
      if IsChild(f, m - 1, k) { LighterSub(f, w, v, m - 1); }
    }
  }

  lemma {:induction false} LighterSum(w: seq<nat>, v: seq<nat>)
    requires Lighter(w, v)
    ensures Sum(w) <= Sum(v)
  {
    if |w| > 0 { LighterSum(w[..|w| - 1], v[..|v| - 1]); }
  }

  // ---------- Dead children ----------

  /** The subtrees of the dead children of `k` among the first `m` lifetimes. */
  function DeadBelow(f: Forest, alive: seq<bool>, w: seq<nat>, k: nat, m: nat): nat
    requires Rooted(f) && |w| == |f| == |alive| && k < |f| && m <= |f|
  {
    if m == 0 then 0
    else DeadBelow(f, alive, w, k, m - 1) + (if IsChild(f, m - 1, k) && !alive[m - 1] then Sub(f, w, m - 1) else 0)
  }

  lemma {:induction false} DeadBelowLighter(f: Forest, alive: seq<bool>, w: seq<nat>, v: seq<nat>, k: nat, m: nat)
    requires Rooted(f) && |w| == |f| == |alive| && Lighter(w, v) && k < |f| && m <= |f|
    ensures DeadBelow(f, alive, w, k, m) <= DeadBelow(f, alive, v, k, m)
  {
    hide Sub;
    if m > 0 {
      DeadBelowLighter(f, alive, w, v, k, m - 1);
      LighterSub(f, w, v, m - 1);
    }
  }

  lemma {:induction false} DeadBelowIsBelow(f: Forest, alive: seq<bool>, w: seq<nat>, k: nat, m: nat)
    requires Rooted(f) && |w| == |f| == |alive| && k < |f| && m <= |f|
    ensures DeadBelow(f, alive, w, k, m) <= Below(f, w, k, m)
  {
    hide Sub;
    if m > 0 { DeadBelowIsBelow(f, alive, w, k, m - 1); }
  }

  // ---------- Dead descendants with no living process in between ----------

  /** What the dead lifetimes weigh that are reached from `k` through dead ones only. */
  function DeadTree(f: Forest, alive: seq<bool>, w: seq<nat>, k: nat, m: nat): nat
    requires Rooted(f) && |w| == |f| == |alive| && k < |f| && m <= |f|
    decreases |f| - k, m
  {
    if m == 0 then 0
    else
      DeadTree(f, alive, w, k, m - 1)
      + (if IsChild(f, m - 1, k) && !alive[m - 1] then w[m - 1] + DeadTree(f, alive, w, m - 1, |f|) else 0)
  }

  lemma {:induction false} DeadTreeIsBelow(f: Forest, alive: seq<bool>, w: seq<nat>, k: nat, m: nat)
    requires Rooted(f) && |w| == |f| == |alive| && k < |f| && m <= |f|
    ensures DeadTree(f, alive, w, k, m) <= DeadBelow(f, alive, w, k, m)
    decreases |f| - k, m
  {
    if m > 0 {
      DeadTreeIsBelow(f, alive, w, k, m - 1);
      if IsChild(f, m - 1, k) {
        DeadTreeIsBelow(f, alive, w, m - 1, |f|);
        DeadBelowIsBelow(f, alive, w, m - 1, |f|);
      }
    }
  }

  /** More dead, more weight. */
  lemma {:induction false} DeadTreeGrows(f: Forest, alive: seq<bool>, w: seq<nat>, v: seq<nat>, c: nat, k: nat, m: nat)
    requires Rooted(f) && |w| == |f| == |alive| && Lighter(w, v) && k < |f| && m <= |f| && c < |f|
    ensures DeadTree(f, alive, w, k, m) <= DeadTree(f, alive[c := false], v, k, m)
    decreases |f| - k, m
  {
    if m > 0 {
      DeadTreeGrows(f, alive, w, v, c, k, m - 1);
      if IsChild(f, m - 1, k) { DeadTreeGrows(f, alive, w, v, c, m - 1, |f|); }
    }
  }

  /** Only the places of dead lifetimes matter. */
  lemma {:induction false} DeadTreeMoved(f: Forest, g: Forest, alive: seq<bool>, w: seq<nat>, k: nat, m: nat)
    requires Rooted(f) && Rooted(g) && |w| == |f| == |g| == |alive| && k < |f| && m <= |f|
    requires forall j :: 0 <= j < |f| && !alive[j] ==> f[j] == g[j]
    ensures DeadTree(f, alive, w, k, m) == DeadTree(g, alive, w, k, m)
    decreases |f| - k, m
  {
    if m > 0 {
      DeadTreeMoved(f, g, alive, w, k, m - 1);
      if IsChild(f, m - 1, k) { DeadTreeMoved(f, g, alive, w, m - 1, |f|); }
    }
  }

  lemma {:induction false} DeadTreeLeaf(f: Forest, alive: seq<bool>, w: seq<nat>, parent: nat, x: nat, k: nat, m: nat)
    requires Rooted(f) && |w| == |f| == |alive| && parent < |f| && k < |f| && m <= |f|
    ensures Rooted(f + [parent])
    ensures DeadTree(f, alive, w, k, m) == DeadTree(f + [parent], alive + [true], w + [x], k, m)
    decreases |f| - k, m
  {
    if m > 0 {
      DeadTreeLeaf(f, alive, w, parent, x, k, m - 1);
      if IsChild(f, m - 1, k) {
        DeadTreeLeaf(f, alive, w, parent, x, m - 1, |f|);
        LastIsAlive(f + [parent], alive + [true], w + [x], m - 1);
      }
    }
  }

  lemma LastIsAlive(f: Forest, alive: seq<bool>, w: seq<nat>, k: nat)
    requires Rooted(f) && |w| == |f| == |alive| && k < |f| && alive[|f| - 1]
    ensures DeadTree(f, alive, w, k, |f|) == DeadTree(f, alive, w, k, |f| - 1)
  {
  }

  /** `a` is above `c`, and whatever stands between them is dead. */
  predicate Under(f: Forest, alive: seq<bool>, c: nat, a: nat)
    requires Rooted(f) && |f| == |alive|
  {
    0 < c < |f| && (f[c] == a || (!alive[f[c]] && Under(f, alive, f[c], a)))
  }

  /** What `d` gains its parent `g` gains, if `d` is dead. */
  lemma {:induction false} GainGoesUp(f: Forest, alive: seq<bool>, w: seq<nat>, v: seq<nat>, c: nat, d: nat, g: nat,
                                      x: nat, m: nat)
    requires Rooted(f) && |w| == |f| == |alive| && Lighter(w, v) && m <= |f| && c < |f| && 0 < d < |f| && f[d] == g
    requires !alive[d] || d == c
    requires (if alive[d] then 0 else w[d] + DeadTree(f, alive, w, d, |f|)) + x
          <= v[d] + DeadTree(f, alive[c := false], v, d, |f|)
    ensures DeadTree(f, alive, w, g, m) + (if d < m then x else 0) <= DeadTree(f, alive[c := false], v, g, m)
  {
    if m > 0 {
      GainGoesUp(f, alive, w, v, c, d, g, x, m - 1);
      if IsChild(f, m - 1, g) { DeadTreeGrows(f, alive, w, v, c, m - 1, |f|); }
    }
  }

  /** When `c` ends, everything it and its dead descendants weigh is gained by each lifetime it is under. */
  lemma {:induction false} GainedAbove(f: Forest, alive: seq<bool>, w: seq<nat>, v: seq<nat>, c: nat, d: nat, a: nat,
                                       x: nat)
    requires Rooted(f) && |w| == |f| == |alive| && Lighter(w, v) && c < |f|
    requires Under(f, alive, d, a) && (!alive[d] || d == c)
    requires (if alive[d] then 0 else w[d] + DeadTree(f, alive, w, d, |f|)) + x
          <= v[d] + DeadTree(f, alive[c := false], v, d, |f|)
    ensures a < |f| && DeadTree(f, alive, w, a, |f|) + x <= DeadTree(f, alive[c := false], v, a, |f|)
    decreases d
  {
    hide DeadTree;
    GainGoesUp(f, alive, w, v, c, d, f[d], x, |f|);
    if f[d] != a { GainedAbove(f, alive, w, v, c, f[d], a, x); }
  }

  // ---------- The kernel ----------

  /**
   `parent` is the process that would wait for this one now, if it is in the
   tree. `slip` is history: the CPU that was credited to this process although
   a living process stood between it and the one that ended.
   */
  datatype Proc = Proc(pid: nat, parent: Option<nat>, own: nat, waited: nat, slip: nat, alive: bool)

  /**
   `forest` says under which lifetime each one is filed: its parent when a
   sample first showed it or, until then, its parent now.
   */
  datatype Kernel = Kernel(forest: Forest, procs: seq<Proc>)

  ghost predicate Sized(s: Kernel) { Rooted(s.forest) && |s.procs| == |s.forest| }

  function Own(s: Kernel): seq<nat> { seq(|s.procs|, k requires 0 <= k < |s.procs| => s.procs[k].own) }

  function Slips(s: Kernel): seq<nat> { seq(|s.procs|, k requires 0 <= k < |s.procs| => s.procs[k].slip) }

  function Alive(s: Kernel): seq<bool> { seq(|s.procs|, k requires 0 <= k < |s.procs| => s.procs[k].alive) }

  /** The CPU of ended lifetimes. */
  function Ended(s: Kernel): seq<nat> {
    seq(|s.procs|, k requires 0 <= k < |s.procs| => if s.procs[k].alive then 0 else s.procs[k].own)
  }

  /** Dead lifetimes weigh their CPU and what slipped to them, living ones nothing. */
  function DeadOwn(s: Kernel): seq<nat> {
    seq(|s.procs|, k requires 0 <= k < |s.procs| => if s.procs[k].alive then 0 else s.procs[k].own + s.procs[k].slip)
  }

  /**
   `Exit(k, credited, adopter)`: the parent is credited with `credited` ticks,
   all, some or none of what `k` used and waited for, and the children of `k`
   become those of `adopter` or leave the tree.
   */
  datatype Event =
    | Spawn(parent: nat, pid: nat)
    | Work(k: nat, cpu: nat)
    | Exit(k: nat, credited: nat, adopter: Option<nat>)

  predicate Possible(s: Kernel, e: Event) {
    match e
    case Spawn(parent, pid) =>
      parent < |s.procs| && s.procs[parent].alive
      && forall k :: 0 <= k < |s.procs| && s.procs[k].alive ==> s.procs[k].pid != pid
    case Work(k, cpu) => k < |s.procs| && s.procs[k].alive
    case Exit(k, credited, adopter) =>
      k < |s.procs| && s.procs[k].alive && credited <= s.procs[k].own + s.procs[k].waited
      && (adopter.Some? ==> adopter.value < k && s.procs[adopter.value].alive)
  }

  /** The parent of `c` waits for it although a living process stands between them. */
  ghost predicate Slipped(s: Kernel, c: nat)
    requires Sized(s)
  {
    c < |s.procs| && s.procs[c].parent.Some? && !Under(s.forest, Alive(s), c, s.procs[c].parent.value)
  }

  predicate Orphaned(s: Kernel, c: nat, j: nat)
    requires j < |s.procs|
  {
    s.procs[j].alive && s.procs[j].parent == Some(c)
  }

  /** What the end of `c` does to one process. */
  ghost function Left(s: Kernel, c: nat, credited: nat, adopter: Option<nat>, j: nat): Proc
    requires Sized(s) && c < |s.procs| && j < |s.procs|
  {
    var p := s.procs[j];
    if j == c then p.(alive := false)
    else if Orphaned(s, c, j) then p.(parent := adopter)
    else if s.procs[c].parent == Some(j) then
      p.(waited := p.waited + credited, slip := p.slip + if Slipped(s, c) then credited else 0)
    else p
  }

  /** An orphan that no sample has shown yet is filed under its new parent. */
  ghost function Refiled(s: Kernel, c: nat, adopter: Option<nat>, filed: set<nat>, j: nat): nat
    requires Sized(s) && j < |s.procs|
  {
    if Orphaned(s, c, j) && adopter.Some? && j !in filed then adopter.value else s.forest[j]
  }

  /** `filed` are the lifetimes that a sample has shown. */
  ghost function Happen(s: Kernel, e: Event, filed: set<nat>): Kernel
    requires Sized(s) && Possible(s, e)
  {
    match e
    case Spawn(parent, pid) => Kernel(s.forest + [parent], s.procs + [Proc(pid, Some(parent), 0, 0, 0, true)])
    case Work(k, cpu) => s.(procs := s.procs[k := s.procs[k].(own := s.procs[k].own + cpu)])
    case Exit(k, credited, adopter) =>
      Kernel(seq(|s.procs|, j requires 0 <= j < |s.procs| => Refiled(s, k, adopter, filed, j)),
             seq(|s.procs|, j requires 0 <= j < |s.procs| => Left(s, k, credited, adopter, j)))
  }

  /** A living process has a living parent, and until a sample shows it it is filed under that. */
  ghost predicate HasParent(s: Kernel, filed: set<nat>, k: nat)
    requires Sized(s) && k < |s.procs|
  {
    s.procs[k].alive && s.procs[k].parent.Some? ==>
      && s.procs[k].parent.value < k && s.procs[s.procs[k].parent.value].alive
      && (k !in filed ==> s.forest[k] == s.procs[k].parent.value)
  }

  ghost predicate Lineage(s: Kernel, filed: set<nat>)
    requires Sized(s)
  {
    s.procs[0].parent.None? && forall k :: 0 <= k < |s.procs| ==> HasParent(s, filed, k)
  }

  ghost function DeadCpu(s: Kernel, k: nat): nat
    requires Sized(s) && k < |s.forest|
  {
    DeadTree(s.forest, Alive(s), DeadOwn(s), k, |s.forest|)
  }

  /** Waited CPU is CPU of ended descendants with no living process in between, or it slipped past one. */
  ghost predicate WaitedIsDead(s: Kernel)
    requires Sized(s)
  {
    forall k :: 0 <= k < |s.forest| ==> s.procs[k].waited <= s.procs[k].slip + DeadCpu(s, k)
  }

  ghost predicate KernelInv(s: Kernel, filed: set<nat>) {
    Sized(s) && Lineage(s, filed) && WaitedIsDead(s)
  }

  lemma SpawnKeeps(s: Kernel, parent: nat, pid: nat, filed: set<nat>)
    requires KernelInv(s, filed) && Possible(s, Spawn(parent, pid)) && |s.procs| !in filed
    ensures KernelInv(Happen(s, Spawn(parent, pid), filed), filed)
  {
    hide DeadTree;
    var t := Happen(s, Spawn(parent, pid), filed);
    var n := |s.forest|;
    assert Alive(t) == Alive(s) + [true] && DeadOwn(t) == DeadOwn(s) + [0];
    forall k | 0 <= k < n + 1 ensures HasParent(t, filed, k) {
      if k < n { assert HasParent(s, filed, k); }
    }
    forall k | 0 <= k < n + 1 ensures t.procs[k].waited <= t.procs[k].slip + DeadCpu(t, k) {
      if k < n {
        DeadTreeLeaf(s.forest, Alive(s), DeadOwn(s), parent, 0, k, n);
        LastIsAlive(t.forest, Alive(t), DeadOwn(t), k);
        assert s.procs[k].waited <= s.procs[k].slip + DeadCpu(s, k);
      }
    }
  }

  lemma WorkKeeps(s: Kernel, k: nat, cpu: nat, filed: set<nat>)
    requires KernelInv(s, filed) && Possible(s, Work(k, cpu))
    ensures KernelInv(Happen(s, Work(k, cpu), filed), filed)
  {
    hide DeadTree;
    var t := Happen(s, Work(k, cpu), filed);
    assert Alive(t) == Alive(s) && DeadOwn(t) == DeadOwn(s);
    forall j | 0 <= j < |t.procs| ensures HasParent(t, filed, j) { assert HasParent(s, filed, j); }
    forall j | 0 <= j < |t.forest| ensures t.procs[j].waited <= t.procs[j].slip + DeadCpu(t, j) {
      assert DeadCpu(t, j) == DeadCpu(s, j);
      assert s.procs[j].waited <= s.procs[j].slip + DeadCpu(s, j);
    }
  }

  lemma ExitKeepsForest(s: Kernel, c: nat, credited: nat, adopter: Option<nat>, filed: set<nat>)
    requires Sized(s) && Lineage(s, filed) && Possible(s, Exit(c, credited, adopter))
    ensures var t := Happen(s, Exit(c, credited, adopter), filed);
            Sized(t) && forall j :: 0 <= j < |t.forest| && !t.procs[j].alive ==> t.forest[j] == s.forest[j]
  {
    hide DeadTree, Under, Slipped;
    forall j | 0 < j < |s.forest| ensures Refiled(s, c, adopter, filed, j) < j {
      assert HasParent(s, filed, j);
    }
    assert HasParent(s, filed, c);
  }

  lemma ExitKeepsLineage(s: Kernel, c: nat, credited: nat, adopter: Option<nat>, filed: set<nat>)
    requires Sized(s) && Lineage(s, filed) && Possible(s, Exit(c, credited, adopter))
    ensures var t := Happen(s, Exit(c, credited, adopter), filed); Sized(t) && Lineage(t, filed)
  {
    hide DeadTree, Under, Slipped, Rooted;
    ExitKeepsForest(s, c, credited, adopter, filed);
    var t := Happen(s, Exit(c, credited, adopter), filed);
    assert HasParent(s, filed, c);
    forall k | 0 <= k < |t.procs| ensures HasParent(t, filed, k) {
      assert HasParent(s, filed, k) && t.procs[k] == Left(s, c, credited, adopter, k);
      assert t.forest[k] == Refiled(s, c, adopter, filed, k);
    }
  }

  lemma ExitKeepsWeight(s: Kernel, c: nat, credited: nat, adopter: Option<nat>, filed: set<nat>)
    requires Sized(s) && Lineage(s, filed) && Possible(s, Exit(c, credited, adopter))
    ensures var t := Happen(s, Exit(c, credited, adopter), filed);
            Alive(t) == Alive(s)[c := false] && Lighter(DeadOwn(s), DeadOwn(t))
  {
    hide DeadTree, Under, Slipped, Rooted, Refiled;
  }

  lemma ExitKeeps(s: Kernel, c: nat, credited: nat, adopter: Option<nat>, filed: set<nat>)
    requires KernelInv(s, filed) && Possible(s, Exit(c, credited, adopter))
    ensures KernelInv(Happen(s, Exit(c, credited, adopter), filed), filed)
  {
    hide DeadTree, Under, Lineage;
    var t := Happen(s, Exit(c, credited, adopter), filed);
    var n, alive, w, v := |s.forest|, Alive(s), DeadOwn(s), DeadOwn(t);
    ExitKeepsForest(s, c, credited, adopter, filed);
    ExitKeepsLineage(s, c, credited, adopter, filed);
    ExitKeepsWeight(s, c, credited, adopter, filed);
    forall k | 0 <= k < n ensures t.procs[k].waited <= t.procs[k].slip + DeadCpu(t, k) {
      DeadTreeMoved(s.forest, t.forest, Alive(t), v, k, n);
      DeadTreeGrows(s.forest, alive, w, v, c, k, n);
      assert s.procs[k].waited <= s.procs[k].slip + DeadCpu(s, k);
      if s.procs[c].parent == Some(k) && !Slipped(s, c) {
        DeadTreeGrows(s.forest, alive, w, v, c, c, n);
        assert s.procs[c].waited <= s.procs[c].slip + DeadCpu(s, c);
        GainedAbove(s.forest, alive, w, v, c, c, k, credited);
      }
    }
  }

  /**
   Whatever the processes do, waited CPU never exceeds the CPU of those that
   ended below with nobody living in between and what slipped past somebody.
   */
  lemma KernelKeeps(s: Kernel, e: Event, filed: set<nat>)
    requires KernelInv(s, filed) && Possible(s, e) && |s.procs| !in filed
    ensures KernelInv(Happen(s, e, filed), filed)
  {
    match e
    case Spawn(parent, pid) => SpawnKeeps(s, parent, pid, filed);
    case Work(k, cpu) => WorkKeeps(s, k, cpu, filed);
    case Exit(k, credited, adopter) => ExitKeeps(s, k, credited, adopter, filed);
  }
}
