/** The spans started below a transaction, seen by their ids. */
module SpanTree {
  import opened Wrappers
  import opened Transactions

  /** `start_child` on the transaction (handle 0) or on a span started before, with the id the child gets. */
  datatype Start = Start(parent: nat, spanId: Id)

  datatype Node = Node(data: SpanData, sampled: bool)

  /** Every handle, the transaction first; a start from a handle that does not exist is none. */
  function Tree(starts: seq<Start>, root: Node): (nodes: seq<Node>)
    ensures nodes != [] && nodes[0] == root
  {
    if starts == [] then [root] else
    var before, start := Tree(starts[..|starts| - 1], root), starts[|starts| - 1];
    if start.parent < |before|
    then before + [Node(Child(before[start.parent].data, start.spanId), before[start.parent].sampled)]
    else before
  }

  /** One trace and one sampling decision for the whole tree. */
  lemma {:induction false} TreeSharesTrace(starts: seq<Start>, root: Node, i: nat)
    requires i < |Tree(starts, root)|
    ensures Tree(starts, root)[i].data.traceId == root.data.traceId
    ensures Tree(starts, root)[i].sampled == root.sampled
  {
    if starts != [] {
      var before, start := Tree(starts[..|starts| - 1], root), starts[|starts| - 1];
      if i < |before| {
        TreeSharesTrace(starts[..|starts| - 1], root, i);
      } else {
        TreeSharesTrace(starts[..|starts| - 1], root, start.parent);
      }
    }
  }

  /** Each node names the next as its parent. */
  predicate Walk(nodes: seq<Node>, path: seq<nat>) {
    && path != []
    && (forall k :: 0 <= k < |path| ==> path[k] < |nodes|)
    && forall k :: 0 < k < |path| ==> nodes[path[k - 1]].data.parent == Some(nodes[path[k]].data.spanId)
  }

  /** Ids that name one node each, and none of which is the transaction's own remote parent. */
  predicate FreshIds(nodes: seq<Node>) {
    && (forall i, j :: 0 <= i < j < |nodes| ==> nodes[i].data.spanId != nodes[j].data.spanId)
    && forall i :: 0 <= i < |nodes| ==> nodes[0].data.parent != Some(nodes[i].data.spanId)
  }

  /** Every span but the transaction was started from, and names, a node that was there before it. */
  function ParentOf(starts: seq<Start>, root: Node, i: nat): (parent: nat)
    requires 0 < i < |Tree(starts, root)|
    ensures parent < i
    ensures Tree(starts, root)[i].data.parent == Some(Tree(starts, root)[parent].data.spanId)
  {
    var before := Tree(starts[..|starts| - 1], root);
    if i < |before| then ParentOf(starts[..|starts| - 1], root, i) else starts[|starts| - 1].parent
  }

  /** From every span a walk along parent ids reaches the transaction. */
  lemma {:induction false} ReachesTheRoot(starts: seq<Start>, root: Node, i: nat) returns (path: seq<nat>)
    requires i < |Tree(starts, root)|
    ensures Walk(Tree(starts, root), path) && path[0] == i && path[|path| - 1] == 0
    decreases i
  {
    if i == 0 {
      path := [0];
    } else {
      var parent := ParentOf(starts, root, i);
      var rest := ReachesTheRoot(starts, root, parent);
      path := [i] + rest;
    }
  }

  /** With fresh ids every walk goes strictly down to earlier nodes, so it ends and meets no node twice. */
  lemma {:induction false} NoCycle(starts: seq<Start>, root: Node, path: seq<nat>, k: nat)
    requires FreshIds(Tree(starts, root)) && Walk(Tree(starts, root), path) && 0 < k < |path|
    ensures path[k] < path[k - 1] && path[k] + k <= path[0]
  {
    var nodes := Tree(starts, root);
    assert nodes[path[k - 1]].data.parent == Some(nodes[path[k]].data.spanId);
    var parent := ParentOf(starts, root, path[k - 1]);
    assert path[k] == parent;
    if k > 1 {
      NoCycle(starts, root, path, k - 1);
    }
  }

  /** And it can only stop at the transaction. */
  lemma WalksEndAtTheRoot(starts: seq<Start>, root: Node, path: seq<nat>)
    requires Walk(Tree(starts, root), path)
    ensures path[|path| - 1] == 0 || exists next: nat :: Walk(Tree(starts, root), path + [next])
  {
    var last := path[|path| - 1];
    if last != 0 {
      var parent := ParentOf(starts, root, last);
      assert Walk(Tree(starts, root), path + [parent]);
    }
  }

  /** The ids on the way from a node up to the transaction, and the transaction's remote parent. */
  function NamedAbove(starts: seq<Start>, root: Node, i: nat): set<Id>
    requires i < |Tree(starts, root)|
    decreases i
  {
    {Tree(starts, root)[i].data.spanId}
    + if i > 0 then NamedAbove(starts, root, ParentOf(starts, root, i))
      else if root.data.parent.Some? then {root.data.parent.value} else {}
  }

  predicate Cycle(nodes: seq<Node>, path: seq<nat>) {
    Walk(nodes, path) && |path| > 1 && path[0] == path[|path| - 1]
  }

  /** An id from above is named as the parent by some node on the way. */
  lemma {:induction false} WalkToNamer(starts: seq<Start>, root: Node, i: nat, id: Id) returns (path: seq<nat>)
    requires i < |Tree(starts, root)|
    requires id in NamedAbove(starts, root, i) && id != Tree(starts, root)[i].data.spanId
    ensures Walk(Tree(starts, root), path) && path[0] == i
    ensures Tree(starts, root)[path[|path| - 1]].data.parent == Some(id)
    decreases i
  {
    path := [i];
    if i > 0 {
      var parent := ParentOf(starts, root, i);
      if id != Tree(starts, root)[parent].data.spanId {
        var rest := WalkToNamer(starts, root, parent, id);
        path := [i] + rest;
      }
    }
  }

  /** A walk that starts above the new child's id never meets the child. */
  lemma {:induction false} NeverMeetsChild(starts: seq<Start>, root: Node, child: Node, path: seq<nat>, k: nat)
    requires FreshIds(Tree(starts, root)) && Walk(Tree(starts, root) + [child], path) && k < |path|
    requires path[0] < |Tree(starts, root)| && child.data.spanId !in NamedAbove(starts, root, path[0])
    ensures path[k] < |Tree(starts, root)| && child.data.spanId !in NamedAbove(starts, root, path[k])
  {
    if k > 0 {
      NeverMeetsChild(starts, root, child, path, k - 1);
      var nodes, i := Tree(starts, root), path[k - 1];
      assert (nodes + [child])[i].data.parent == Some((nodes + [child])[path[k]].data.spanId);
      if i > 0 {
        var parent := ParentOf(starts, root, i);
        assert nodes[parent].data.spanId in NamedAbove(starts, root, parent);
        assert path[k] == parent;
      }
    }
  }

  lemma WalkBefore(nodes: seq<Node>, child: Node, path: seq<nat>)
    requires Walk(nodes + [child], path) && |nodes| !in path
    ensures Walk(nodes, path)
  {
    forall k | 0 <= k < |path|
      ensures path[k] < |nodes|
    {
      assert path[k] in path;
    }
  }

  function ChildOf(starts: seq<Start>, root: Node, from: nat, id: Id): Node
    requires from < |Tree(starts, root)|
  {
    var nodes := Tree(starts, root);
    Node(Child(nodes[from].data, id), nodes[from].sampled)
  }

  /** The way up from the child leads to where it was started and on from there. */
  lemma UpFromChild(starts: seq<Start>, root: Node, from: nat, id: Id, path: seq<nat>, k: nat)
    requires FreshIds(Tree(starts, root)) && from < |Tree(starts, root)| && id !in NamedAbove(starts, root, from)
    requires Walk(Tree(starts, root) + [ChildOf(starts, root, from, id)], path)
    requires k + 1 < |path| && path[k] == |Tree(starts, root)|
    ensures path[|path| - 1] < |Tree(starts, root)| && id !in NamedAbove(starts, root, path[|path| - 1])
  {
    var nodes, child := Tree(starts, root), ChildOf(starts, root, from, id);
    var next := path[k + 1];
    assert (nodes + [child])[path[k]].data.parent == Some((nodes + [child])[path[k + 1]].data.spanId);
    assert nodes[from].data.spanId in NamedAbove(starts, root, from);
    assert next == from;
    WalkFrom(nodes + [child], path, k + 1);
    NeverMeetsChild(starts, root, child, path[k + 1..], |path| - k - 2);
  }

  lemma WalkFrom(nodes: seq<Node>, path: seq<nat>, k: nat)
    requires Walk(nodes, path) && k < |path|
    ensures Walk(nodes, path[k..])
  {
    var rest := path[k..];
    forall j | 0 < j < |rest|
      ensures nodes[rest[j - 1]].data.parent == Some(nodes[rest[j]].data.spanId)
    {
      assert rest[j - 1] == path[k + j - 1] && rest[j] == path[k + j];
    }
  }

  lemma NoCycleThroughFreshChild(starts: seq<Start>, root: Node, from: nat, id: Id, path: seq<nat>)
    requires FreshIds(Tree(starts, root)) && from < |Tree(starts, root)| && id !in NamedAbove(starts, root, from)
    requires Walk(Tree(starts, root) + [ChildOf(starts, root, from, id)], path) && |path| > 1
    ensures path[0] != path[|path| - 1]
  {
    hide FreshIds, NamedAbove, Walk;
    var nodes, child := Tree(starts, root), ChildOf(starts, root, from, id);
    var n, last := |nodes|, |path| - 1;
    if n !in path {
      WalkBefore(nodes, child, path);
      NoCycle(starts, root, path, last);
    } else if path[0] == n {
      UpFromChild(starts, root, from, id, path, 0);
    } else if path[0] == path[last] {
      var k: nat :| k < |path| && path[k] == n;
      UpFromChild(starts, root, from, id, path, k);
      NeverMeetsChild(starts, root, child, path, k);
    }
  }

  lemma CycleThroughChild(starts: seq<Start>, root: Node, from: nat, id: Id) returns (cycle: seq<nat>)
    requires from < |Tree(starts, root)| && id in NamedAbove(starts, root, from)
    ensures Cycle(Tree(starts, root) + [ChildOf(starts, root, from, id)], cycle)
  {
    var nodes, n := Tree(starts, root), |Tree(starts, root)|;
    var after := nodes + [ChildOf(starts, root, from, id)];
    if id == nodes[from].data.spanId {
      cycle := [n, n];
      assert after[cycle[0]].data.parent == Some(after[cycle[1]].data.spanId);
    } else {
      var path := WalkToNamer(starts, root, from, id);
      hide NamedAbove;
      cycle := [n] + path + [n];
      forall k | 0 < k < |cycle|
        ensures after[cycle[k - 1]].data.parent == Some(after[cycle[k]].data.spanId)
      {
        if 1 < k < |cycle| - 1 {
          assert cycle[k] == path[k - 1] && cycle[k - 1] == path[k - 2];
        }
      }
    }
  }

  /**
   Starting one more child in a tree of fresh ids closes a cycle exactly when the child is given the id
   of a node above it, or the one the transaction names as its remote parent.
   */
  lemma CycleIffIdFromAbove(starts: seq<Start>, root: Node, from: nat, id: Id)
    requires FreshIds(Tree(starts, root)) && from < |Tree(starts, root)|
    ensures (exists path :: Cycle(Tree(starts + [Start(from, id)], root), path))
            <==> id in NamedAbove(starts, root, from)
  {
    var after := Tree(starts + [Start(from, id)], root);
    TreeGrown(starts, root, from, id);
    hide NamedAbove, FreshIds, Tree;
    if id in NamedAbove(starts, root, from) {
      var cycle := CycleThroughChild(starts, root, from, id);
      assert Cycle(after, cycle);
    } else {
      forall path | Walk(after, path) && |path| > 1
        ensures path[0] != path[|path| - 1]
      {
        NoCycleThroughFreshChild(starts, root, from, id, path);
      }
    }
  }

  lemma TreeGrown(starts: seq<Start>, root: Node, from: nat, id: Id)
    requires from < |Tree(starts, root)|
    ensures Tree(starts + [Start(from, id)], root) == Tree(starts, root) + [ChildOf(starts, root, from, id)]
  {
    assert (starts + [Start(from, id)])[..|starts|] == starts;
  }

  /** So a child that is given its parent's id is its own parent: a walk from it never has to end. */
  lemma ReusedIdIsACycle(root: Node, n: nat)
    ensures Walk(Tree([Start(0, root.data.spanId)], root), seq(n + 1, _ => 1))
  {
    var starts := [Start(0, root.data.spanId)];
    assert starts[..0] == [];
    assert Tree(starts, root) == [root, Node(Child(root.data, root.data.spanId), root.sampled)];
  }
}
