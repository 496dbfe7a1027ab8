/** Process graphs: any finite child relation, cycles included. */
module ProcessGraph {
  import opened Pids

  /** Child lists as read, and the processes that are not followed. */
  datatype Graph = Graph(children: map<Pid, seq<Pid>>, zombies: set<Pid>)
  {
    function Children(p: Pid): seq<Pid> {
      if p in children then children[p] else []
    }

    predicate Edge(p: Pid, q: Pid) {
      q in Children(p) && q !in zombies
    }
  }

  /** `p` is `k` steps from `root`. */
  ghost predicate Within(g: Graph, root: Pid, p: Pid, k: nat)
    decreases k
  {
    if k == 0 then p == root
    else exists q :: Within(g, root, q, k - 1) && g.Edge(q, p)
  }

  ghost predicate Reachable(g: Graph, root: Pid, p: Pid) {
    exists k: nat :: Within(g, root, p, k)
  }

  lemma ReachesChild(g: Graph, root: Pid, p: Pid, q: Pid)
    requires Reachable(g, root, p) && g.Edge(p, q)
    ensures Reachable(g, root, q)
  {
    var k: nat :| Within(g, root, p, k);
    var n := k + 1;
    assert Within(g, root, q, n);
  }

  /** A set that holds the root and is closed under edges holds everything reachable. */
  lemma {:induction false} ClosedHoldsReachable(g: Graph, root: Pid, s: set<Pid>, p: Pid, k: nat)
    requires root in s && forall x, y :: x in s && g.Edge(x, y) ==> y in s
    requires Within(g, root, p, k)
    ensures p in s
    decreases k
  {
    if k > 0 {
      var q :| Within(g, root, q, k - 1) && g.Edge(q, p);
      ClosedHoldsReachable(g, root, s, q, k - 1);
    }
  }

  /** Graphs with the same edges reach the same processes. */
  lemma {:induction false} SameEdgesSameReach(g: Graph, h: Graph, root: Pid, p: Pid, k: nat)
    requires forall x, y :: g.Edge(x, y) ==> h.Edge(x, y)
    requires Within(g, root, p, k)
    ensures Within(h, root, p, k)
    decreases k
  {
    if k > 0 {
      var q :| Within(g, root, q, k - 1) && g.Edge(q, p);
      SameEdgesSameReach(g, h, root, q, k - 1);
    }
  }
}
