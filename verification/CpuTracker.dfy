/**
 `CpuTracker`: samples of a process tree reconciled with the CPU that parents
 waited for. A lifetime, the pair of process number and start time, is
 numbered in birth order here; CPU is counted in clock ticks.
 */
module CpuTracker {
  import opened Options
  import opened Sequences

  /** One process of a sample. */
  datatype Item = Item(key: nat, pid: nat, ppid: nat, own: nat, waited: nat)

  /** What is remembered of a lifetime: the parent it was first seen with, and its highest counters. */
  datatype Entry = Entry(parent: Option<nat>, own: nat, waited: nat)

  type Ledger = map<nat, Entry>

  datatype Tracker = Tracker(root: nat, rootKey: Option<nat>, entries: Ledger, identities: map<nat, nat>,
                             total: nat, ownTotal: nat, regressions: nat)

  // ---------- The recursion over the tree ----------

  /** Parents were born before their children, and `n` lifetimes have been numbered. */
  ghost predicate Ordered(l: Ledger, n: nat) {
    forall k :: k in l ==> k < n && (l[k].parent.Some? ==> l[k].parent.value < k)
  }

  /** The nested `total`: own CPU, the living children, and the ended ones or what was waited for. */
  function Total(l: Ledger, current: set<nat>, n: nat, key: nat): nat
    requires Ordered(l, n) && key in l
    decreases n - key, n + 1
  {
    l[key].own + Max(l[key].waited, Children(l, current, n, key, n, false)) + Children(l, current, n, key, n, true)
  }

  /** The totals of the children among the first `m` lifetimes: those in the sample, or those not. */
  function Children(l: Ledger, current: set<nat>, n: nat, key: nat, m: nat, live: bool): nat
    requires Ordered(l, n) && key in l && m <= n
    decreases n - key, m
  {
    if m == 0 then 0
    else
      Children(l, current, n, key, m - 1, live)
      + (if m - 1 in l && l[m - 1].parent == Some(key) && (m - 1 in current) == live then Total(l, current, n, m - 1)
         else 0)
  }

  function OwnSum(l: Ledger, n: nat): nat {
    if n == 0 then 0 else OwnSum(l, n - 1) + (if n - 1 in l then l[n - 1].own else 0)
  }

  // ---------- One sample ----------

  function Keys(items: seq<Item>): set<nat> { set k | 0 <= k < |items| :: items[k].key }

  function Named(identities: map<nat, nat>, items: seq<Item>): map<nat, nat> {
    if |items| == 0 then identities
    else Named(identities, items[..|items| - 1])[items[|items| - 1].pid := items[|items| - 1].key]
  }

  function Lookup(m: map<nat, nat>, k: nat): Option<nat> { if k in m then Some(m[k]) else None }

  function Observe(l: Ledger, identities: map<nat, nat>, item: Item): Entry {
    if item.key in l then
      Entry(l[item.key].parent, Max(l[item.key].own, item.own), Max(l[item.key].waited, item.waited))
    else Entry(Lookup(identities, item.ppid), item.own, item.waited)
  }

  function Observed(l: Ledger, identities: map<nat, nat>, items: seq<Item>): Ledger {
    if |items| == 0 then l
    else
      var front := Observed(l, identities, items[..|items| - 1]);
      front[items[|items| - 1].key := Observe(front, identities, items[|items| - 1])]
  }

  function RootKey(root: nat, known: Option<nat>, items: seq<Item>): Option<nat> {
    if |items| == 0 then known
    else if items[|items| - 1].pid == root then Some(items[|items| - 1].key)
    else RootKey(root, known, items[..|items| - 1])
  }

  /** A sample lists every lifetime and every process number once. */
  ghost predicate Distinct(items: seq<Item>) {
    forall i, j :: 0 <= i < j < |items| ==> items[i].key != items[j].key && items[i].pid != items[j].pid
  }

  lemma {:induction false} NamedAt(identities: map<nat, nat>, items: seq<Item>)
    requires Distinct(items)
    ensures forall i :: 0 <= i < |items| ==> items[i].pid in Named(identities, items)
                                              && Named(identities, items)[items[i].pid] == items[i].key
    ensures forall p :: p in Named(identities, items) && (forall i :: 0 <= i < |items| ==> items[i].pid != p) ==>
              p in identities && Named(identities, items)[p] == identities[p]
    ensures forall p :: p in identities ==> p in Named(identities, items)
  {
    if |items| > 0 {
      var front := items[..|items| - 1];
      NamedAt(identities, front);
    }
  }

  lemma KeysMore(items: seq<Item>)
    requires Distinct(items) && |items| > 0
    ensures var front, last := items[..|items| - 1], items[|items| - 1];
            Distinct(front) && Keys(items) == Keys(front) + {last.key} && last.key !in Keys(front)
  {
    var front, last := items[..|items| - 1], items[|items| - 1];
    forall k | k in Keys(items) ensures k in Keys(front) + {last.key} {
      var i :| 0 <= i < |items| && items[i].key == k;
      if i < |front| { assert front[i].key == k; }
    }
    assert items[|items| - 1] == last;
    forall i | 0 <= i < |front| ensures front[i].key in Keys(items) { assert items[i] == front[i]; }
  }

  /** After a sample: sampled lifetimes hold their highest counters, the others what they held. */
  ghost predicate ObservedOk(l: Ledger, identities: map<nat, nat>, items: seq<Item>, m: Ledger) {
    && m.Keys == l.Keys + Keys(items)
    && (forall i :: 0 <= i < |items| ==> items[i].key in m && m[items[i].key] == Observe(l, identities, items[i]))
    && (forall k :: k in l && k !in Keys(items) ==> k in m && m[k] == l[k])
  }

  lemma {:induction false} ObservedAt(l: Ledger, identities: map<nat, nat>, items: seq<Item>)
    requires Distinct(items)
    ensures ObservedOk(l, identities, items, Observed(l, identities, items))
  {
    if |items| > 0 {
      var front, last := items[..|items| - 1], items[|items| - 1];
      KeysMore(items);
      ObservedAt(l, identities, front);
      ObserveNext(l, identities, items, Observed(l, identities, front));
    }
  }

  lemma ObserveNext(l: Ledger, identities: map<nat, nat>, items: seq<Item>, m: Ledger)
    requires Distinct(items) && |items| > 0
    requires ObservedOk(l, identities, items[..|items| - 1], m)
    ensures ObservedOk(l, identities, items, m[items[|items| - 1].key := Observe(m, identities, items[|items| - 1])])
  {
    var front, last := items[..|items| - 1], items[|items| - 1];
    KeysMore(items);
    assert Observe(m, identities, last) == Observe(l, identities, last) by {
      assert last.key in m <==> last.key in l;
    }
    hide Keys, Observe, Distinct;
    var next := m[last.key := Observe(m, identities, last)];
    forall i | 0 <= i < |items|
      ensures items[i].key in next && next[items[i].key] == Observe(l, identities, items[i])
    {
      if i < |front| {
        assert front[i] == items[i];
        KeyIn(front, i);
      }
    }
  }

  lemma KeyIn(items: seq<Item>, i: nat)
    requires i < |items|
    ensures items[i].key in Keys(items)
  {
  }

  /** The tree is one: the recursion of `total` ends. */
  ghost predicate Rankable(t: Tracker, items: seq<Item>, n: nat) {
    Ordered(Observed(t.entries, Named(t.identities, items), items), n)
  }

  function Value(l: Ledger, rootKey: Option<nat>, current: set<nat>, n: nat, waitedTotal: Option<nat>): nat
    requires Ordered(l, n)
  {
    Max(if rootKey.Some? && rootKey.value in l then Total(l, current, n, rootKey.value) else 0,
        if waitedTotal.Some? then waitedTotal.value else 0)
  }

  /** `update` as a whole. */
  function Updated(t: Tracker, items: seq<Item>, waitedTotal: Option<nat>, n: nat): Tracker
    requires Rankable(t, items, n)
  {
    var identities := Named(t.identities, items);
    var entries := Observed(t.entries, identities, items);
    var rootKey := RootKey(t.root, t.rootKey, items);
    var value := Value(entries, rootKey, Keys(items), n, waitedTotal);
    var ownTotal := OwnSum(entries, n);
    Tracker(t.root, rootKey, entries, identities,
            Max(t.total + ownTotal - t.ownTotal, value), ownTotal,
            t.regressions + if value < t.total then 1 else 0)
  }

  // ---------- What holds of every update ----------

  lemma {:induction false} OwnGrows(l: Ledger, m: Ledger, n: nat)
    requires forall k :: k in l ==> k in m && l[k].own <= m[k].own
    ensures OwnSum(l, n) <= OwnSum(m, n)
  {
    if n > 0 { OwnGrows(l, m, n - 1); }
  }

  lemma {:induction false} OwnSumBeyond(l: Ledger, n: nat, m: nat)
    requires n <= m && forall k :: k in l ==> k < n
    ensures OwnSum(l, m) == OwnSum(l, n)
    decreases m
  {
    if n < m { OwnSumBeyond(l, n, m - 1); }
  }

  /** The tracker's own sum is the sum of its entries, and its total is no less. */
  ghost predicate Accounts(t: Tracker, n: nat) {
    && (forall k :: k in t.entries ==> k < n)
    && t.ownTotal == OwnSum(t.entries, n) && t.ownTotal <= t.total
  }

  /** Whatever is lost, the total never falls and never falls short of the own CPU that was seen. */
  lemma UpdateNeverFalls(t: Tracker, items: seq<Item>, waitedTotal: Option<nat>, before: nat, n: nat)
    requires Accounts(t, before) && before <= n && Rankable(t, items, n) && Distinct(items)
    ensures Accounts(Updated(t, items, waitedTotal, n), n)
    ensures Updated(t, items, waitedTotal, n).total >= t.total
  {
    hide Total, Value;
    var identities := Named(t.identities, items);
    ObservedAt(t.entries, identities, items);
    OwnSumBeyond(t.entries, before, n);
    forall k | k in t.entries
      ensures t.entries[k].own <= Observed(t.entries, identities, items)[k].own
    {
      if k in Keys(items) {
        var i :| 0 <= i < |items| && items[i].key == k;
      }
    }
    OwnGrows(t.entries, Observed(t.entries, identities, items), n);
  }

  // ---------- The tracker as it works ----------

  class CpuTracker {
    const root: nat
    var rootKey: Option<nat>
    var entries: Ledger
    var identities: map<nat, nat>
    var total: nat
    var ownTotal: nat
    var regressions: nat

    ghost function Now(): Tracker
      reads this
    {
      Tracker(root, rootKey, entries, identities, total, ownTotal, regressions)
    }

    constructor (root: nat)
      ensures Now() == Tracker(root, None, map[], map[], 0, 0, 0) && Accounts(Now(), 0)
    {
      this.root := root;
      rootKey, entries, identities, total, ownTotal, regressions := None, map[], map[], 0, 0, 0;
    }

    method Name(items: seq<Item>)
      modifies this`identities
      ensures identities == Named(old(identities), items)
    {
      for i := 0 to |items|
        invariant identities == Named(old(identities), items[..i])
      {
        assert items[..i + 1][..i] == items[..i];
        identities := identities[items[i].pid := items[i].key];
      }
      assert items[..|items|] == items;
    }

    method Merge(items: seq<Item>)
      modifies this`rootKey, this`entries
      ensures rootKey == RootKey(root, old(rootKey), items)
      ensures entries == Observed(old(entries), identities, items)
    {
      for i := 0 to |items|
        invariant rootKey == RootKey(root, old(rootKey), items[..i])
        invariant entries == Observed(old(entries), identities, items[..i])
      {
        assert items[..i + 1][..i] == items[..i];
        var item := items[i];
        if item.pid == root {
          rootKey := Some(item.key);
        }
        if item.key !in entries {
          entries := entries[item.key := Entry(Lookup(identities, item.ppid), 0, 0)];
        }
        var entry := entries[item.key];
        entries := entries[item.key := Entry(entry.parent, Max(entry.own, item.own), Max(entry.waited, item.waited))];
      }
      assert items[..|items|] == items;
    }

    method SumOwn(n: nat) returns (sum: nat)
      ensures sum == OwnSum(entries, n)
    {
      sum := 0;
      for k := 0 to n
        invariant sum == OwnSum(entries, k)
      {
        sum := sum + if k in entries then entries[k].own else 0;
      }
    }

    method Update(items: seq<Item>, waitedTotal: Option<nat>, ghost before: nat, n: nat) returns (result: nat)
      requires Accounts(Now(), before) && before <= n && Rankable(Now(), items, n) && Distinct(items)
      modifies this
      ensures Now() == Updated(old(Now()), items, waitedTotal, n)
      ensures Accounts(Now(), n) && result == total >= old(total)
    {
      hide Total, Observed, Named;
      UpdateNeverFalls(Now(), items, waitedTotal, before, n);
      Name(items);
      Merge(items);
      var current := set k | 0 <= k < |items| :: items[k].key;
      assert current == Keys(items);
      var value := Value(entries, rootKey, current, n, waitedTotal);
      if value < total {
        regressions := regressions + 1;
      }
      var sum := SumOwn(n);
      total := Max(total + sum - ownTotal, value);
      ownTotal := sum;
      result := total;
    }
  }
}
