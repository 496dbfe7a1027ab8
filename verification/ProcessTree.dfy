/** `walk_descendants`: the containment walk, in its child-list and parent-link forms. */
module ProcessTree {
  import opened Basics
  import opened Pids
  import opened ProcessGraph

  /** The processes the walk is to return. */
  ghost predicate Descendant(g: Graph, root: Pid, p: Pid) {
    p != root && Reachable(g, root, p)
  }

  /** Every process that any list names. */
  function Named(g: Graph): set<Pid> {
    set p, i | p in g.children && 0 <= i < |g.children[p]| :: g.children[p][i]
  }

  ghost function Descendants(g: Graph, root: Pid): set<Pid> {
    set p | p in Named(g) && Descendant(g, root, p)
  }

  lemma {:induction false} DescendantsExact(g: Graph, root: Pid, p: Pid)
    ensures p in Descendants(g, root) <==> Descendant(g, root, p)
  {
    if Descendant(g, root, p) {
      var k: nat :| Within(g, root, p, k);
      var q :| Within(g, root, q, k - 1) && g.Edge(q, p);
      var i :| 0 <= i < |g.children[q]| && g.children[q][i] == p;
    }
  }

  /** The walk's variables. `pending` is always the end of what was found. */
  datatype Walk = Walk(pending: seq<Pid>, seen: set<Pid>, found: seq<Pid>)

  /** What holds between any two steps, whatever is still pending. */
  ghost predicate Inv(g: Graph, root: Pid, w: Walk) {
    && root in w.seen && NoRepeats(w.found)
    && (forall p :: p in w.found ==> p in w.seen && p in Named(g) && Descendant(g, root, p))
    && (forall p :: p in w.seen ==> p == root || p in w.found || p in g.zombies)
    && (forall p :: p in w.pending ==> p == root || p in w.found)
  }

  /** `p`'s children have been looked at. */
  ghost predicate Expanded(g: Graph, w: Walk, p: Pid) {
    forall q :: g.Edge(p, q) ==> q in w.seen
  }

  /** Everything found and no longer pending has been expanded. */
  ghost predicate Progress(g: Graph, root: Pid, w: Walk, current: Option<Pid>) {
    forall p :: (p == root || p in w.found) && p !in w.pending && current != Some(p) ==> Expanded(g, w, p)
  }

  /** Room left, which every new process uses up. */
  ghost function Room(g: Graph, w: Walk): set<Pid> {
    Named(g) - Elements(w.found)
  }

  /** Nothing new, or less room than before. */
  ghost predicate Shrinks(g: Graph, w: Walk, after: Walk) {
    (after.pending == w.pending && after.found == w.found) || Room(g, after) < Room(g, w)
  }

  predicate Full(limit: Option<nat>, w: Walk) {
    limit.Some? && |w.found| >= limit.value
  }

  lemma TakesChild(g: Graph, root: Pid, w: Walk, parent: Pid, child: Pid)
    requires Inv(g, root, w) && (parent == root || parent in w.found) && child in g.Children(parent)
    requires child !in w.seen && child !in g.zombies
    ensures child in Named(g) && Descendant(g, root, child) && child !in w.found
    ensures Inv(g, root, Walk(w.pending + [child], w.seen + {child}, w.found + [child]))
  {
    assert Reachable(g, root, parent) by {
      assert Within(g, root, root, 0);
    }
    ReachesChild(g, root, parent, child);
    var i :| 0 <= i < |g.children[parent]| && g.children[parent][i] == child;
    assert child in Named(g);
  }

  /** More distinct descendants than the limit allows. */
  lemma TooMany(g: Graph, root: Pid, w: Walk, child: Pid)
    requires Inv(g, root, w) && child !in w.found && child in Named(g) && Descendant(g, root, child)
    ensures |Descendants(g, root)| > |w.found|
  {
    NoRepeatsCounts(w.found);
    SubsetSize(Elements(w.found) + {child}, Descendants(g, root));
  }

  /** One child of the list. */
  method Take(g: Graph, root: Pid, w: Walk, parent: Pid, child: Pid, limit: Option<nat>) returns (r: Result<Walk>)
    requires Inv(g, root, w) && (parent == root || parent in w.found) && child in g.Children(parent)
    requires Progress(g, root, w, Some(parent)) && (limit.Some? ==> |w.found| <= limit.value)
    ensures r.Ok? ==> Inv(g, root, r.value) && Progress(g, root, r.value, Some(parent))
    ensures r.Ok? ==> child in r.value.seen && w.seen <= r.value.seen && w.found <= r.value.found
    ensures r.Ok? ==> (limit.Some? ==> |r.value.found| <= limit.value)
    ensures r.Ok? ==> Shrinks(g, w, r.value)
    ensures r.Err? ==> limit.Some? && |Descendants(g, root)| > limit.value
  {
    if child in w.seen || child in g.zombies {
      return Ok(w.(seen := w.seen + {child}));
    }
    TakesChild(g, root, w, parent, child);
    if Full(limit, w) {
      TooMany(g, root, w, child);
      return Err("process tree exceeds safe descendant limit");
    }
    r := Ok(Walk(w.pending + [child], w.seen + {child}, w.found + [child]));
    assert child in Room(g, w) && child !in Room(g, r.value);
  }

  /** The list of one parent. */
  method Expand(g: Graph, root: Pid, w: Walk, parent: Pid, limit: Option<nat>) returns (r: Result<Walk>)
    requires Inv(g, root, w) && (parent == root || parent in w.found)
    requires Progress(g, root, w, Some(parent)) && (limit.Some? ==> |w.found| <= limit.value)
    ensures r.Ok? ==> Inv(g, root, r.value) && Progress(g, root, r.value, None)
    ensures r.Ok? ==> (limit.Some? ==> |r.value.found| <= limit.value)
    ensures r.Ok? ==> Shrinks(g, w, r.value)
    ensures r.Err? ==> limit.Some? && |Descendants(g, root)| > limit.value
  {
    var list := g.Children(parent);
    r := Ok(w);
    for i := 0 to |list|
      invariant r.Ok? && Inv(g, root, r.value) && Progress(g, root, r.value, Some(parent))
      invariant limit.Some? ==> |r.value.found| <= limit.value
      invariant w.found <= r.value.found && forall j :: 0 <= j < i ==> list[j] in r.value.seen
      invariant Shrinks(g, w, r.value)
    {
      r := Take(g, root, r.value, parent, list[i], limit);
      if r.Err? { return; }
    }
    assert Expanded(g, r.value, parent);
  }

  /** `walk_descendants` over child lists. */
  method WalkDescendants(g: Graph, root: Pid, limit: Option<nat>) returns (r: Result<seq<Pid>>)
    ensures r.Ok? ==> NoRepeats(r.value) && forall p :: p in r.value <==> Descendant(g, root, p)
    ensures r.Ok? <==> (limit.Some? ==> |Descendants(g, root)| <= limit.value)
  {
    var w := Walk([root], {root}, []);
    while w.pending != []
      invariant Inv(g, root, w) && Progress(g, root, w, None)
      invariant limit.Some? ==> |w.found| <= limit.value
      decreases Room(g, w), |w.pending|
    {
      var parent := w.pending[0];
      var rest := w.(pending := w.pending[1..]);
      assert Inv(g, root, rest) && Progress(g, root, rest, Some(parent));
      var next := Expand(g, root, rest, parent, limit);
      if next.Err? { return Err(next.error); }
      w := next.value;
    }
    AllFound(g, root, w);
    r := Ok(w.found);
  }

  lemma AllFound(g: Graph, root: Pid, w: Walk)
    requires Inv(g, root, w) && Progress(g, root, w, None) && w.pending == []
    ensures forall p :: p in w.found <==> Descendant(g, root, p)
    ensures |w.found| == |Descendants(g, root)|
  {
    var reached := Elements(w.found) + {root};
    forall x, y | x in reached && g.Edge(x, y) ensures y in reached {
      assert Expanded(g, w, x);
    }
    forall p | Descendant(g, root, p) ensures p in w.found {
      var k: nat :| Within(g, root, p, k);
      ClosedHoldsReachable(g, root, reached, p, k);
    }
    NoRepeatsCounts(w.found);
    assert Descendants(g, root) == Elements(w.found);
  }

  // ---- The parent-link form --------------------------------------------------------

  /** One machine-wide snapshot: each process's parent, and which are zombies. */
  datatype Snapshot = Snapshot(parents: map<Pid, Pid>, zombies: set<Pid>)
  {
    /** `p`'s entry makes it a child of `q` to be followed. */
    predicate ChildOf(p: Pid, q: Pid) {
      p in parents && parents[p] == q && p !in zombies
    }
  }

  /** Child lists as the kernel would give them for the same processes, in any order. */
  ghost predicate Lists(t: Snapshot, g: Graph) {
    && g.zombies == t.zombies
    && forall p, q :: q in g.Children(p) <==> q in t.parents && t.parents[q] == p
  }

  /** A graph with exactly the edges of the snapshot. */
  ghost predicate Draws(t: Snapshot, g: Graph) {
    forall p, q :: g.Edge(p, q) <==> q != 0 && t.ChildOf(q, p)
  }

  /** The `children_of` table, filled in any order of processes. */
  method ChildTable(t: Snapshot) returns (g: Graph)
    ensures g.zombies == {} && Draws(t, g)
  {
    g := Graph(map[], {});
    var left := t.parents.Keys;
    while left != {}
      invariant left <= t.parents.Keys && g.zombies == {}
      invariant forall p, q :: q in g.Children(p) <==> q !in left && q != 0 && t.ChildOf(q, p)
      decreases left
    {
      var pid :| pid in left;
      left := left - {pid};
      if pid != 0 && pid !in t.zombies {
        var parent := t.parents[pid];
        g := Graph(g.children[parent := g.Children(parent) + [pid]], {});
      }
    }
  }

  /** `walk_descendants` over parent links: the answer of the snapshot's graph, however it is drawn. */
  method WalkByParents(t: Snapshot, root: Pid, limit: Option<nat>) returns (r: Result<seq<Pid>>)
    ensures r.Ok? ==> NoRepeats(r.value)
    ensures forall g :: Draws(t, g) && r.Ok? ==> forall p :: p in r.value <==> Descendant(g, root, p)
    ensures forall g :: Draws(t, g) ==> (r.Ok? <==> (limit.Some? ==> |Descendants(g, root)| <= limit.value))
  {
    var table := ChildTable(t);
    r := WalkDescendants(table, root, limit);
    forall g | Draws(t, g)
      ensures Descendants(table, root) == Descendants(g, root)
      ensures forall p :: Descendant(table, root, p) <==> Descendant(g, root, p)
    {
      SameEdgesSameDescendants(table, g, root);
    }
  }

  lemma SameEdgesSameDescendants(g: Graph, h: Graph, root: Pid)
    requires forall x, y :: g.Edge(x, y) <==> h.Edge(x, y)
    ensures forall p :: Descendant(g, root, p) <==> Descendant(h, root, p)
    ensures Descendants(g, root) == Descendants(h, root)
  {
    forall p ensures Descendant(g, root, p) <==> Descendant(h, root, p) {
      if Descendant(g, root, p) {
        var k: nat :| Within(g, root, p, k);
        SameEdgesSameReach(g, h, root, p, k);
      }
      if Descendant(h, root, p) {
        var k: nat :| Within(h, root, p, k);
        SameEdgesSameReach(h, g, root, p, k);
      }
    }
    forall p ensures p in Descendants(g, root) <==> p in Descendants(h, root) {
      DescendantsExact(g, root, p);
      DescendantsExact(h, root, p);
    }
  }

  /** Both forms, given the same process table, fail together or return the same set. */
  method BothForms(t: Snapshot, lists: Graph, root: Pid, limit: Option<nat>)
    returns (byLists: Result<seq<Pid>>, byParents: Result<seq<Pid>>)
    requires Lists(t, lists) && 0 !in t.parents
    ensures byLists.Ok? <==> byParents.Ok?
    ensures byLists.Ok? ==> Elements(byLists.value) == Elements(byParents.value)
    ensures byLists.Ok? ==> |byLists.value| == |byParents.value|
  {
    byLists := WalkDescendants(lists, root, limit);
    byParents := WalkByParents(t, root, limit);
    assert Draws(t, lists);
    if byLists.Ok? {
      NoRepeatsCounts(byLists.value);
      NoRepeatsCounts(byParents.value);
    }
  }
}
