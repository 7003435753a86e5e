/**
 * The tree walker the rules are built on: a depth-first, pre-order traversal
 * that hands every node of the document, the root included, to a visitor
 * together with the path from the root to it. The visitor's calls are
 * modelled as the ordered list of (node, path) pairs the walk produces.
 */
module Traversal {
  import opened Json

  /** The visits of `walk(node, path, visitor)`: the node itself first, then each child's subtree in order. */
  function Walk(node: Json, path: Path): seq<(Json, Path)>
    decreases node, 1, 0
  {
    [(node, path)] + WalkChildren(node, Children(node), path)
  }

  function WalkChildren(parent: Json, kids: seq<(Step, Json)>, path: Path): seq<(Json, Path)>
    requires forall i :: 0 <= i < |kids| ==> kids[i].1 < parent
    decreases parent, 0, |kids|
  {
    if kids == [] then []
    else Walk(kids[0].1, path + [kids[0].0]) + WalkChildren(parent, kids[1..], path)
  }

  /** `n` is the node found by following `p` from `j`. */
  ghost predicate Reachable(j: Json, p: Path, n: Json)
    decreases p
  {
    if p == [] then n == j
    else exists i :: 0 <= i < |Children(j)| && Children(j)[i].0 == p[0] && Reachable(Children(j)[i].1, p[1..], n)
  }

  /** The number of nodes of a document, the root included. */
  function NodeCount(j: Json): nat
    decreases j, 1, 0
  {
    1 + ChildrenCount(j, Children(j))
  }

  function ChildrenCount(parent: Json, kids: seq<(Step, Json)>): nat
    requires forall i :: 0 <= i < |kids| ==> kids[i].1 < parent
    decreases parent, 0, |kids|
  {
    if kids == [] then 0 else NodeCount(kids[0].1) + ChildrenCount(parent, kids[1..])
  }

  /** The visitor is called as many times as the document has nodes. */
  lemma {:induction false} WalkVisitCount(j: Json, path: Path)
    ensures |Walk(j, path)| == NodeCount(j)
    decreases j, 1, 0
  {
    WalkChildrenCount(j, Children(j), path);
  }

  lemma {:induction false} WalkChildrenCount(parent: Json, kids: seq<(Step, Json)>, path: Path)
    requires forall i :: 0 <= i < |kids| ==> kids[i].1 < parent
    ensures |WalkChildren(parent, kids, path)| == ChildrenCount(parent, kids)
    decreases parent, 0, |kids|
  {
    if kids != [] {
      WalkVisitCount(kids[0].1, path + [kids[0].0]);
      WalkChildrenCount(parent, kids[1..], path);
    }
  }

  /** Pre-order: the first visit is the node the walk starts from, at the path it was given. */
  lemma WalkStartsAtRoot(j: Json, path: Path)
    ensures |Walk(j, path)| >= 1 && Walk(j, path)[0] == (j, path)
  {
  }

  /**
   * Path fidelity: every visited path extends the starting path, and
   * following the extension from the starting node leads to the visited node.
   */
  lemma {:induction false} WalkSound(j: Json, path: Path, k: nat)
    requires k < |Walk(j, path)|
    ensures |path| <= |Walk(j, path)[k].1|
    ensures Walk(j, path)[k].1[..|path|] == path
    ensures Reachable(j, Walk(j, path)[k].1[|path|..], Walk(j, path)[k].0)
    decreases j, 1, 0
  {
    var kids := Children(j);
    if k > 0 {
      var rest := WalkChildren(j, kids, path);
      assert Walk(j, path)[k] == rest[k - 1];
      var i := WalkChildrenSound(j, kids, path, k - 1);
      var (n, q) := rest[k - 1];
      var tail := q[|path|..];
      assert tail[0] == kids[i].0;
      assert tail[1..] == q[|path| + 1..];
    }
  }

  lemma {:induction false} WalkChildrenSound(parent: Json, kids: seq<(Step, Json)>, path: Path, k: nat) returns (i: nat)
    requires forall i :: 0 <= i < |kids| ==> kids[i].1 < parent
    requires k < |WalkChildren(parent, kids, path)|
    ensures i < |kids|
    ensures |path| < |WalkChildren(parent, kids, path)[k].1|
    ensures WalkChildren(parent, kids, path)[k].1[..|path| + 1] == path + [kids[i].0]
    ensures Reachable(kids[i].1, WalkChildren(parent, kids, path)[k].1[|path| + 1..], WalkChildren(parent, kids, path)[k].0)
    decreases parent, 0, |kids|
  {
    var first := Walk(kids[0].1, path + [kids[0].0]);
    var rest := WalkChildren(parent, kids[1..], path);
    if k < |first| {
      WalkSound(kids[0].1, path + [kids[0].0], k);
      i := 0;
    } else {
      assert WalkChildren(parent, kids, path)[k] == rest[k - |first|];
      var i' := WalkChildrenSound(parent, kids[1..], path, k - |first|);
      i := i' + 1;
    }
  }

  /** Traversal completeness: every node reachable from the start is visited, at the path that reaches it. */
  lemma {:induction false} WalkComplete(j: Json, path: Path, p: Path, n: Json)
    requires Reachable(j, p, n)
    ensures (n, path + p) in Walk(j, path)
    decreases p
  {
    if p == [] {
      assert path + p == path;
      assert Walk(j, path)[0] == (n, path + p);
    } else {
      var kids := Children(j);
      var i :| 0 <= i < |kids| && kids[i].0 == p[0] && Reachable(kids[i].1, p[1..], n);
      var childPath := path + [kids[i].0];
      assert childPath + p[1..] == path + p by {
        assert p == [p[0]] + p[1..];
      }
      WalkComplete(kids[i].1, childPath, p[1..], n);
      WalkChildrenContains(j, kids, path, i, (n, path + p));
      assert Walk(j, path) == [(j, path)] + WalkChildren(j, kids, path);
    }
  }

  lemma {:induction false} WalkChildrenContains(parent: Json, kids: seq<(Step, Json)>, path: Path, i: nat, x: (Json, Path))
    requires forall i :: 0 <= i < |kids| ==> kids[i].1 < parent
    requires i < |kids|
    requires x in Walk(kids[i].1, path + [kids[i].0])
    ensures x in WalkChildren(parent, kids, path)
    decreases i
  {
    if i > 0 {
      WalkChildrenContains(parent, kids[1..], path, i - 1, x);
    }
  }

  /** The walk from the root visits exactly the reachable (node, path) pairs. */
  lemma WalkExact(doc: Json, n: Json, p: Path)
    ensures (n, p) in Walk(doc, []) <==> Reachable(doc, p, n)
  {
    if (n, p) in Walk(doc, []) {
      var k :| 0 <= k < |Walk(doc, [])| && Walk(doc, [])[k] == (n, p);
      WalkSound(doc, [], k);
      assert p[0..] == p;
    }
    if Reachable(doc, p, n) {
      WalkComplete(doc, [], p, n);
      assert [] + p == p;
    }
  }
}
