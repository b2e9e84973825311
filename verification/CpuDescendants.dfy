/**
 `descendants`: the processes of a sample that hang together with the root,
 found with a work list; parent numbers may even run in circles.
 */
module CpuDescendants {
  /** Process numbers with the numbers of their parents. */
  type Processes = map<nat, nat>

  function Children(processes: Processes, pid: nat): set<nat> { set p | p in processes && processes[p] == pid }

  /** `n` steps up from `p` lead to the root, through processes of the sample. */
  predicate Climbs(processes: Processes, p: nat, root: nat, n: nat)
    decreases n
  {
    p in processes && if n == 0 then p == root else Climbs(processes, processes[p], root, n - 1)
  }

  ghost predicate Belongs(processes: Processes, p: nat, root: nat) { exists n: nat :: Climbs(processes, p, root, n) }

  /** Whatever contains the root and all children of what it contains, contains all that belong. */
  lemma {:induction false} ClosedContains(processes: Processes, root: nat, s: set<nat>, p: nat, n: nat)
    requires Climbs(processes, p, root, n)
    requires root in processes ==> root in s
    requires forall q :: q in processes && processes[q] in s ==> q in s
    ensures p in s
    decreases n
  {
    if n > 0 { ClosedContains(processes, root, s, processes[p], n - 1); }
  }

  lemma ChildBelongs(processes: Processes, root: nat, parent: nat, child: nat)
    requires Belongs(processes, parent, root) && child in processes && processes[child] == parent
    ensures Belongs(processes, child, root)
  {
    var n: nat :| Climbs(processes, parent, root, n);
    assert Climbs(processes, child, root, n + 1);
  }

  /** What was found so far belongs, and what is still missing hangs on the work list. */
  ghost predicate Searching(processes: Processes, root: nat, selected: set<nat>, pending: seq<nat>) {
    && selected <= processes.Keys
    && (forall p :: p in pending || p in selected ==> p in processes && Belongs(processes, p, root))
    && (root in processes ==> root in selected || root in pending)
    && (forall q :: q in processes && processes[q] in selected ==> q in selected || q in pending)
  }

  lemma SkipKnown(processes: Processes, root: nat, selected: set<nat>, pending: seq<nat>)
    requires Searching(processes, root, selected, pending) && |pending| > 0 && pending[|pending| - 1] in selected
    ensures Searching(processes, root, selected, pending[..|pending| - 1])
  {
    var front := pending[..|pending| - 1];
    assert pending == front + [pending[|pending| - 1]];
  }

  lemma TakeNew(processes: Processes, root: nat, selected: set<nat>, pending: seq<nat>, children: seq<nat>)
    requires Searching(processes, root, selected, pending) && |pending| > 0
    requires forall p :: p in children <==> p in Children(processes, pending[|pending| - 1])
    ensures Searching(processes, root, selected + {pending[|pending| - 1]}, pending[..|pending| - 1] + children)
  {
    var front, pid := pending[..|pending| - 1], pending[|pending| - 1];
    assert pending == front + [pid];
    forall p | p in children ensures p in processes && Belongs(processes, p, root) {
      ChildBelongs(processes, root, pid, p);
    }
  }

  /** `descendants` selects exactly the processes from which one can climb to the root. */
  method Descendants(processes: Processes, root: nat) returns (selected: set<nat>)
    ensures forall p :: p in selected <==> Belongs(processes, p, root)
  {
    hide Belongs, Climbs, Searching, Children;
    selected := {};
    var pending: seq<nat> := if root in processes then [root] else [];
    BeginSearch(processes, root);
    while |pending| > 0
      invariant Searching(processes, root, selected, pending)
      decreases |processes.Keys - selected|, |pending|
    {
      var pid := pending[|pending| - 1];
      if pid in selected {
        SkipKnown(processes, root, selected, pending);
        pending := pending[..|pending| - 1];
      } else {
        var children := Listing(Children(processes, pid));
        TakeNew(processes, root, selected, pending, children);
        Shrinks(processes, root, selected, pending);
        selected, pending := selected + {pid}, pending[..|pending| - 1] + children;
      }
    }
    EndSearch(processes, root, selected);
  }

  lemma BeginSearch(processes: Processes, root: nat)
    ensures Searching(processes, root, {}, if root in processes then [root] else [])
  {
    if root in processes { assert Climbs(processes, root, root, 0); }
  }

  lemma Shrinks(processes: Processes, root: nat, selected: set<nat>, pending: seq<nat>)
    requires Searching(processes, root, selected, pending) && |pending| > 0 && pending[|pending| - 1] !in selected
    ensures |processes.Keys - (selected + {pending[|pending| - 1]})| < |processes.Keys - selected|
  {
    var pid := pending[|pending| - 1];
    assert pid in pending;
    assert processes.Keys - (selected + {pid}) == processes.Keys - selected - {pid};
  }

  lemma EndSearch(processes: Processes, root: nat, selected: set<nat>)
    requires Searching(processes, root, selected, [])
    ensures forall p :: p in selected <==> Belongs(processes, p, root)
  {
    forall p | Belongs(processes, p, root) ensures p in selected {
      var n: nat :| Climbs(processes, p, root, n);
      ClosedContains(processes, root, selected, p, n);
    }
  }

  /** The members of a set in some order. */
  method Listing(s: set<nat>) returns (list: seq<nat>)
    ensures forall p :: p in list <==> p in s
  {
    list := [];
    var rest := s;
    while rest != {}
      invariant rest <= s && forall p :: p in list <==> p in s - rest
    {
      var p :| p in rest;
      rest := rest - {p};
      list := list + [p];
    }
  }
}
