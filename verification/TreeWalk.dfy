/**
 `validate_tree`: a candidate tree walked with an explicit stack, under budgets
 and with early cut-offs for each directory, against the plain recursive
 listing of the tree.
 */
module TreeWalk {
  import opened Texts

  datatype Node = Directory(entries: seq<Entry>) | Regular(size: nat, links: nat) | Special

  /** A directory entry. A listing is in name order. */
  datatype Entry = Entry(name: string, node: Node)

  datatype Limits = Limits(maxEntries: nat, maxPathBytes: nat, maxDepth: nat, maxFileBytes: nat, maxTotalBytes: nat)

  predicate Positive(l: Limits) {
    l.maxEntries > 0 && l.maxPathBytes > 0 && l.maxDepth > 0 && l.maxFileBytes > 0 && l.maxTotalBytes > 0
  }

  // ---------- The recursive listing ----------

  /** One thing in the tree: its path below the root, what it is, and how deep it lies. */
  datatype Item = Item(name: string, path: string, node: Node, depth: nat)

  function Join(prefix: string, name: string): string { if prefix == "" then name else prefix + "/" + name }

  /** Everything below a directory: each entry, then what is below it, then the entries after it. */
  function All(entries: seq<Entry>, prefix: string, depth: nat): seq<Item>
    decreases entries
  {
    if |entries| == 0 then []
    else
      var e := entries[0];
      var path := Join(prefix, e.name);
      [Item(e.name, path, e.node, depth)]
      + (if e.node.Directory? then All(e.node.entries, path, depth + 1) else [])
      + All(entries[1..], prefix, depth)
  }

  function PathBytes(items: seq<Item>): nat {
    if |items| == 0 then 0 else PathBytes(items[..|items| - 1]) + Size(items[|items| - 1].path)
  }

  function FileBytes(items: seq<Item>): nat {
    if |items| == 0 then 0
    else FileBytes(items[..|items| - 1]) + (if items[|items| - 1].node.Regular? then items[|items| - 1].node.size else 0)
  }

  /** A plain name on a directory that is not too deep or a bounded regular file with one link. */
  predicate ItemOk(l: Limits, item: Item) {
    && Segment(item.name)
    && match item.node
       case Directory(_) => item.depth <= l.maxDepth
       case Regular(size, links) => size <= l.maxFileBytes && links == 1
       case Special => false
  }

  /** What the budgets promise, said of the whole tree at once. */
  predicate Acceptable(l: Limits, root: seq<Entry>) {
    var all := All(root, "", 1);
    && Positive(l)
    && |all| <= l.maxEntries && PathBytes(all) <= l.maxPathBytes && FileBytes(all) <= l.maxTotalBytes
    && forall i :: 0 <= i < |all| ==> ItemOk(l, all[i])
  }

  // ---------- The stack ----------

  datatype Frame = Frame(prefix: string, rest: seq<Entry>)

  /** What is still to come, innermost directory first. */
  function Pending(stack: seq<Frame>): seq<Item> {
    if |stack| == 0 then []
    else All(stack[|stack| - 1].rest, stack[|stack| - 1].prefix, |stack|) + Pending(stack[..|stack| - 1])
  }

  lemma PendingPop(stack: seq<Frame>)
    requires |stack| > 0 && stack[|stack| - 1].rest == []
    ensures Pending(stack) == Pending(stack[..|stack| - 1])
  {
    assert [] + Pending(stack[..|stack| - 1]) == Pending(stack[..|stack| - 1]);
  }

  /** The next entry leaves the pending ones; a directory's own entries come in its place. */
  lemma PendingNext(stack: seq<Frame>)
    requires |stack| > 0 && |stack[|stack| - 1].rest| > 0
    ensures var n := |stack|;
            var top := stack[n - 1];
            var e := top.rest[0];
            var path := Join(top.prefix, e.name);
            var below := stack[n - 1 := Frame(top.prefix, top.rest[1..])];
            Pending(stack)
              == [Item(e.name, path, e.node, n)]
                 + Pending(if e.node.Directory? then below + [Frame(path, e.node.entries)] else below)
  {
    var n := |stack|;
    var top := stack[n - 1];
    var e, path := top.rest[0], Join(top.prefix, top.rest[0].name);
    var below := stack[n - 1 := Frame(top.prefix, top.rest[1..])];
    assert below[..n - 1] == stack[..n - 1];
    var item, rest, lower := Item(e.name, path, e.node, n), All(top.rest[1..], top.prefix, n), Pending(stack[..n - 1]);
    assert Pending(below) == rest + lower;
    if e.node.Directory? {
      var inner := below + [Frame(path, e.node.entries)];
      assert inner[..n] == below;
      assert Pending(inner) == All(e.node.entries, path, n + 1) + (rest + lower);
      assert [item] + All(e.node.entries, path, n + 1) + rest + lower
          == [item] + (All(e.node.entries, path, n + 1) + (rest + lower));
    } else {
      assert [item] + [] + rest + lower == [item] + (rest + lower);
    }
  }

  lemma {:induction false} ListingIsPending(entries: seq<Entry>, prefix: string, depth: nat)
    ensures |entries| <= |All(entries, prefix, depth)|
    ensures forall k :: 0 <= k < |entries| ==>
              exists i :: 0 <= i < |All(entries, prefix, depth)| && All(entries, prefix, depth)[i].name == entries[k].name
    decreases |entries|
  {
    if |entries| > 0 {
      var rest := All(entries[1..], prefix, depth);
      ListingIsPending(entries[1..], prefix, depth);
      var all := All(entries, prefix, depth);
      var skip := |all| - |rest|;
      forall k | 0 <= k < |entries| ensures exists i :: 0 <= i < |all| && all[i].name == entries[k].name {
        if k == 0 {
          assert all[0].name == entries[0].name;
        } else {
          var j :| 0 <= j < |rest| && rest[j].name == entries[1..][k - 1].name;
          assert all[skip + j] == rest[j];
        }
      }
    }
  }

  lemma {:induction false} BytesSplit(a: seq<Item>, b: seq<Item>)
    ensures PathBytes(a + b) == PathBytes(a) + PathBytes(b) && FileBytes(a + b) == FileBytes(a) + FileBytes(b)
    decreases |b|
  {
    if |b| == 0 {
      assert a + b == a;
    } else {
      assert (a + b)[..|a + b| - 1] == a + b[..|b| - 1];
      BytesSplit(a, b[..|b| - 1]);
    }
  }

  // ---------- The walk ----------

  /** `entries`: a listing, refused at the first unsafe name or one too many. */
  method ListEntries(entries: seq<Entry>, limit: int) returns (ok: bool)
    ensures ok <==> (|entries| == 0 || |entries| <= limit) && forall k :: 0 <= k < |entries| ==> Segment(entries[k].name)
  {
    for k := 0 to |entries|
      invariant k == 0 || k <= limit
      invariant forall j :: 0 <= j < k ==> Segment(entries[j].name)
    {
      if !Segment(entries[k].name) || k >= limit {
        return false;
      }
    }
    ok := true;
  }

  datatype Budget = Budget(entries: nat, bytes: nat, paths: nat)

  /** The budget spent on what was visited, all of it acceptable. */
  ghost predicate Spent(l: Limits, b: Budget, visited: seq<Item>) {
    && b.entries == |visited| <= l.maxEntries
    && b.paths == PathBytes(visited) <= l.maxPathBytes && b.bytes == FileBytes(visited) <= l.maxTotalBytes
    && forall i :: 0 <= i < |visited| ==> ItemOk(l, visited[i])
  }

  lemma SpentMore(visited: seq<Item>, item: Item)
    ensures PathBytes(visited + [item]) == PathBytes(visited) + Size(item.path)
    ensures FileBytes(visited + [item]) == FileBytes(visited) + (if item.node.Regular? then item.node.size else 0)
  {
    assert (visited + [item])[..|visited|] == visited;
  }

  /** What was visited and the next item already break a limit. */
  lemma Refused(l: Limits, root: seq<Entry>, visited: seq<Item>, item: Item, rest: seq<Item>)
    requires All(root, "", 1) == visited + ([item] + rest)
    requires !ItemOk(l, item) || |visited| + 1 > l.maxEntries || PathBytes(visited + [item]) > l.maxPathBytes
             || FileBytes(visited + [item]) > l.maxTotalBytes
    ensures !Acceptable(l, root)
  {
    var all := All(root, "", 1);
    assert all == visited + [item] + rest;
    BytesSplit(visited + [item], rest);
    assert all[|visited|] == item;
  }

  /** A listing that is refused holds an unsafe name, or more entries than are left. */
  lemma ListingRefused(l: Limits, root: seq<Entry>, visited: seq<Item>, listing: seq<Entry>, prefix: string, depth: nat,
                       rest: seq<Item>)
    requires All(root, "", 1) == visited + (All(listing, prefix, depth) + rest)
    requires |visited| + |listing| > l.maxEntries || exists k :: 0 <= k < |listing| && !Segment(listing[k].name)
    ensures !Acceptable(l, root)
  {
    var all, inner := All(root, "", 1), All(listing, prefix, depth);
    ListingIsPending(listing, prefix, depth);
    if |visited| + |listing| <= l.maxEntries {
      var k :| 0 <= k < |listing| && !Segment(listing[k].name);
      var i :| 0 <= i < |inner| && inner[i].name == listing[k].name;
      assert all[|visited| + i] == inner[i];
    }
  }

  /** One entry against the budgets; a directory also against the entries that are left. */
  method Visit(l: Limits, b: Budget, item: Item, ghost root: seq<Entry>, ghost visited: seq<Item>, ghost rest: seq<Item>)
    returns (ok: bool, b': Budget)
    requires Positive(l) && Spent(l, b, visited) && Segment(item.name)
    requires All(root, "", 1) == visited + ([item] + rest)
    requires item.node.Directory? ==> All(item.node.entries, item.path, item.depth + 1) <= rest
    ensures ok ==> Spent(l, b', visited + [item])
    ensures ok && item.node.Directory? ==> forall k :: 0 <= k < |item.node.entries| ==> Segment(item.node.entries[k].name)
    ensures !ok ==> !Acceptable(l, root)
  {
    hide All, PathBytes, FileBytes, Segment, Acceptable;
    SpentMore(visited, item);
    b' := Budget(b.entries + 1, b.bytes, b.paths + Size(item.path));
    if b'.entries > l.maxEntries || b'.paths > l.maxPathBytes {
      Refused(l, root, visited, item, rest);
      return false, b';
    }
    match item.node {
      case Directory(entries) =>
        if item.depth > l.maxDepth {
          Refused(l, root, visited, item, rest);
          return false, b';
        }
        ok := ListEntries(entries, l.maxEntries - b'.entries);
        if !ok {
          ghost var after := rest[|All(entries, item.path, item.depth + 1)|..];
          assert visited + ([item] + rest) == visited + [item] + (All(entries, item.path, item.depth + 1) + after);
          ListingRefused(l, root, visited + [item], entries, item.path, item.depth + 1, after);
        }
      case Regular(size, links) =>
        if links != 1 || size > l.maxFileBytes {
          Refused(l, root, visited, item, rest);
          return false, b';
        }
        b' := b'.(bytes := b.bytes + size);
        ok := b'.bytes <= l.maxTotalBytes;
        if !ok { Refused(l, root, visited, item, rest); }
      case Special =>
        Refused(l, root, visited, item, rest);
        ok := false;
    }
  }

  /** The walk so far: what was visited, what the stack still holds, and listings already checked. */
  ghost predicate Walking(l: Limits, root: seq<Entry>, stack: seq<Frame>, visited: seq<Item>, budget: Budget) {
    && Positive(l) && All(root, "", 1) == visited + Pending(stack) && Spent(l, budget, visited)
    && forall f, k :: 0 <= f < |stack| && 0 <= k < |stack[f].rest| ==> Segment(stack[f].rest[k].name)
  }

  lemma StartsWalking(l: Limits, root: seq<Entry>)
    requires Positive(l) && forall k :: 0 <= k < |root| ==> Segment(root[k].name)
    ensures Walking(l, root, [Frame("", root)], [], Budget(0, 0, 0))
  {
    var stack := [Frame("", root)];
    hide All, Segment;
    var all := All(root, "", 1);
    assert stack[..0] == [] && all + [] == all && [] + all == all;
    assert Pending(stack) == all + Pending([]);
  }

  lemma WalkedAll(l: Limits, root: seq<Entry>, visited: seq<Item>, budget: Budget)
    requires Walking(l, root, [], visited, budget)
    ensures Acceptable(l, root)
  {
    hide All, PathBytes, FileBytes;
    assert visited + [] == visited;
  }

  lemma Popped(l: Limits, root: seq<Entry>, stack: seq<Frame>, visited: seq<Item>, budget: Budget)
    requires Walking(l, root, stack, visited, budget) && |stack| > 0 && stack[|stack| - 1].rest == []
    ensures Walking(l, root, stack[..|stack| - 1], visited, budget)
    ensures Pending(stack[..|stack| - 1]) == Pending(stack)
  {
    hide All, Segment, Spent;
    PendingPop(stack);
  }

  /** The next entry of the innermost directory. */
  method Take(l: Limits, stack: seq<Frame>, budget: Budget, ghost root: seq<Entry>, ghost visited: seq<Item>)
    returns (ok: bool, stack': seq<Frame>, budget': Budget, ghost visited': seq<Item>)
    requires Walking(l, root, stack, visited, budget) && |stack| > 0 && |stack[|stack| - 1].rest| > 0
    ensures ok ==> Walking(l, root, stack', visited', budget')
    ensures |Pending(stack')| < |Pending(stack)| && |stack'| <= |stack| + 1
    ensures !ok ==> !Acceptable(l, root)
  {
    hide All, PathBytes, FileBytes, Segment, Acceptable, Spent, ItemOk;
    PendingNext(stack);
    var top := stack[|stack| - 1];
    var e := top.rest[0];
    var item := Item(e.name, Join(top.prefix, e.name), e.node, |stack|);
    stack' := stack[|stack| - 1 := Frame(top.prefix, top.rest[1..])];
    if e.node.Directory? {
      assert (stack' + [Frame(item.path, e.node.entries)])[..|stack|] == stack';
      stack' := stack' + [Frame(item.path, e.node.entries)];
    }
    hide Pending;
    ok, budget' := Visit(l, budget, item, root, visited, Pending(stack'));
    visited' := visited + [item];
    assert visited + ([item] + Pending(stack')) == visited' + Pending(stack');
  }

  /**
   The walk accepts a tree exactly when the whole listing is within every
   limit, and it ends on every tree.
   */
  method ValidateTree(l: Limits, root: seq<Entry>) returns (ok: bool)
    ensures ok <==> Acceptable(l, root)
  {
    hide All, PathBytes, FileBytes, Segment, Pending, Walking;
    if !Positive(l) {
      return false;
    }
    ok := ListEntries(root, l.maxEntries);
    if !ok {
      assert All(root, "", 1) == [] + (All(root, "", 1) + []);
      ListingRefused(l, root, [], root, "", 1, []);
      return false;
    }
    hide Acceptable;
    var budget, stack := Budget(0, 0, 0), [Frame("", root)];
    ghost var visited: seq<Item> := [];
    StartsWalking(l, root);
    while |stack| > 0
      invariant Walking(l, root, stack, visited, budget)
      decreases |Pending(stack)| + |Pending(stack)| + |stack|
    {
      if |stack[|stack| - 1].rest| == 0 {
        Popped(l, root, stack, visited, budget);
        stack := stack[..|stack| - 1];
      } else {
        ok, stack, budget, visited := Take(l, stack, budget, root, visited);
        if !ok {
          return;
        }
      }
    }
    WalkedAll(l, root, visited, budget);
    ok := true;
  }
}
