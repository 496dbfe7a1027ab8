/** `detect_agent_process`: the breadth-first search for the topmost agent. */
module Detect {
  import opened Basics
  import opened Pids
  import opened ProcessGraph

  const MAX_SCANNED_PIDS: nat := 4096

  /** The search's queue as a whole: what was ever queued, how far from the leader, and how much is done. */
  datatype Search = Search(order: seq<Pid>, depth: seq<nat>, head: nat)

  ghost predicate Queued(g: Graph, root: Pid, s: Search) {
    && |s.order| == |s.depth| && s.head <= |s.order|
    && s.order != [] && s.order[0] == root && s.depth[0] == 0
    && NoRepeats(s.order)
    && (forall i :: 0 <= i < |s.order| ==> Within(g, root, s.order[i], s.depth[i]))
    && (forall i, j :: 0 <= i <= j < |s.depth| ==> s.depth[i] <= s.depth[j])
  }

  /** `p` was queued, at most `d` from the leader. */
  ghost predicate QueuedBy(s: Search, p: Pid, d: nat)
    requires |s.order| == |s.depth|
  {
    exists i :: 0 <= i < |s.order| && s.order[i] == p && s.depth[i] <= d
  }

  /** The children of everything done are queued no further than one step on. */
  ghost predicate Followed(g: Graph, s: Search)
    requires |s.order| == |s.depth| && s.head <= |s.order|
  {
    forall i, q :: 0 <= i < s.head && g.Edge(s.order[i], q) ==> QueuedBy(s, q, s.depth[i] + 1)
  }

  /** Nothing is queued more than one step beyond the process being scanned. */
  ghost predicate Banded(s: Search, h: nat)
    requires |s.order| == |s.depth| && h < |s.order|
  {
    forall j :: 0 <= j < |s.depth| ==> s.depth[j] <= s.depth[h] + 1
  }

  /** Whatever is nearer than the head of the queue has been scanned already. */
  lemma {:induction false} NearerIsDone(g: Graph, root: Pid, s: Search, p: Pid, k: nat)
    requires Queued(g, root, s) && Followed(g, s) && Within(g, root, p, k)
    requires s.head < |s.order| ==> k < s.depth[s.head]
    ensures exists i :: 0 <= i < s.head && s.order[i] == p && s.depth[i] <= k
    decreases k
  {
    if k > 0 {
      var q :| Within(g, root, q, k - 1) && g.Edge(q, p);
      NearerIsDone(g, root, s, q, k - 1);
      var i :| 0 <= i < s.head && s.order[i] == q && s.depth[i] <= k - 1;
      assert QueuedBy(s, p, s.depth[i] + 1);
      var j :| 0 <= j < |s.order| && s.order[j] == p && s.depth[j] <= s.depth[i] + 1;
    } else {
      assert s.order[0] == p;
    }
  }

  /** More than `n` different processes can be reached. */
  ghost predicate Exceeds(g: Graph, root: Pid, n: nat) {
    exists s :: |s| > n && NoRepeats(s) && forall p :: p in s ==> Reachable(g, root, p)
  }

  /** `q` is queued behind the others, one step beyond the process at `h`. */
  function Push(s: Search, q: Pid, h: nat): Search
    requires h < |s.depth|
  {
    s.(order := s.order + [q], depth := s.depth + [s.depth[h] + 1])
  }

  lemma PushKeeps(g: Graph, root: Pid, s: Search, q: Pid)
    requires Queued(g, root, s) && s.head < |s.order| && Banded(s, s.head)
    requires g.Edge(s.order[s.head], q) && q !in s.order
    ensures var r := Push(s, q, s.head); Queued(g, root, r) && Banded(r, r.head) && QueuedBy(r, q, s.depth[s.head] + 1)
    ensures Followed(g, s) ==> Followed(g, Push(s, q, s.head))
  {
    var r := Push(s, q, s.head);
    var n := |s.order|;
    assert r.order[n] == q && r.depth[n] == s.depth[s.head] + 1;
    assert Within(g, root, q, r.depth[n]);
    PushKeepsQueued(s, q);
  }

  lemma PushKeepsQueued(s: Search, q: Pid)
    requires |s.order| == |s.depth| && s.head < |s.order|
    ensures forall p, d: nat :: QueuedBy(s, p, d) ==> QueuedBy(Push(s, q, s.head), p, d)
  {
    var r := Push(s, q, s.head);
    forall p, d: nat | QueuedBy(s, p, d) ensures QueuedBy(r, p, d) {
      var i :| 0 <= i < |s.order| && s.order[i] == p && s.depth[i] <= d;
      assert r.order[i] == p && r.depth[i] <= d;
    }
  }

  /** The head is being scanned: the real queue and set are those of the search. */
  ghost predicate Scanning(g: Graph, root: Pid, s: Search, pending: seq<Pid>, seen: set<Pid>) {
    && Queued(g, root, s) && Followed(g, s)
    && s.head < |s.order| && Banded(s, s.head)
    && seen == Elements(s.order) && pending == s.order[s.head + 1..]
  }

  method QueueChild(g: Graph, root: Pid, pending: seq<Pid>, seen: set<Pid>, child: Pid, ghost s: Search)
    returns (pending': seq<Pid>, seen': set<Pid>, ghost r: Search)
    requires Scanning(g, root, s, pending, seen) && g.Edge(s.order[s.head], child)
    ensures Scanning(g, root, r, pending', seen')
    ensures r == s || r == Push(s, child, s.head)
    ensures QueuedBy(r, child, r.depth[r.head] + 1)
  {
    pending', seen', r := pending, seen, s;
    if child !in seen {
      PushKeeps(g, root, s, child);
      r := Push(s, child, s.head);
      seen' := seen + {child};
      pending' := pending + [child];
      assert Elements(r.order) == seen';
    } else {
      ghost var j :| 0 <= j < |r.order| && r.order[j] == child;
    }
  }

  /** Queue the children of the head that were not seen before. */
  method QueueChildren(g: Graph, root: Pid, pending: seq<Pid>, seen: set<Pid>, list: seq<Pid>, ghost s: Search)
    returns (pending': seq<Pid>, seen': set<Pid>, ghost r: Search)
    requires Scanning(g, root, s, pending, seen) && g.zombies == {}
    requires forall q :: q in list <==> q in g.Children(s.order[s.head])
    ensures r.head == s.head + 1 && s.order <= r.order
    ensures Queued(g, root, r) && Followed(g, r) && (r.head < |r.order| ==> Banded(r, r.head))
    ensures seen' == Elements(r.order) && pending' == r.order[r.head..]
  {
    pending', seen', r := pending, seen, s;
    for i := 0 to |list|
      invariant Scanning(g, root, r, pending', seen')
      invariant r.head == s.head && s.order <= r.order
      invariant forall j :: 0 <= j < i ==> QueuedBy(r, list[j], r.depth[r.head] + 1)
    {
      assert list[i] in list;
      PushKeepsQueued(r, list[i]);
      pending', seen', r := QueueChild(g, root, pending', seen', list[i], r);
    }
    HeadDone(g, root, r, list);
    r := r.(head := r.head + 1);
  }

  lemma HeadDone(g: Graph, root: Pid, s: Search, list: seq<Pid>)
    requires Queued(g, root, s) && Followed(g, s) && s.head < |s.order| && Banded(s, s.head)
    requires forall q :: q in list <==> q in g.Children(s.order[s.head])
    requires forall j :: 0 <= j < |list| ==> QueuedBy(s, list[j], s.depth[s.head] + 1)
    ensures var r := s.(head := s.head + 1);
            Queued(g, root, r) && Followed(g, r) && (r.head < |r.order| ==> Banded(r, r.head))
  {
    var r := s.(head := s.head + 1);
    forall i, q | 0 <= i < r.head && g.Edge(r.order[i], q) ensures QueuedBy(r, q, r.depth[i] + 1) {
      assert QueuedBy(s, q, s.depth[i] + 1);
    }
  }

  /**
   The search. An answer is a classifying process at the smallest distance from the
   leader; no answer means that none can be reached, or that too many can. Child
   lists may come in any order, so sorting them does not matter here.
   */
  method DetectAgent(g: Graph, leader: Pid, classifies: Pid -> bool) returns (r: Option<Pid>)
    requires g.zombies == {}
    ensures r.Some? ==> classifies(r.value) && exists k: nat :: Nearest(g, leader, classifies, r.value, k)
    ensures r.None? ==> Exceeds(g, leader, MAX_SCANNED_PIDS) || forall p :: Reachable(g, leader, p) ==> !classifies(p)
  {
    var pending, seen, scanned := [leader], {leader}, 0;
    ghost var s := Search([leader], [0], 0);
    while pending != []
      invariant Queued(g, leader, s) && Followed(g, s) && (s.head < |s.order| ==> Banded(s, s.head))
      invariant seen == Elements(s.order) && pending == s.order[s.head..] && scanned == s.head <= MAX_SCANNED_PIDS
      invariant forall i :: 0 <= i < s.head ==> !classifies(s.order[i])
      decreases MAX_SCANNED_PIDS - scanned
    {
      var pid := pending[0];
      pending := pending[1..];
      scanned := scanned + 1;
      if scanned > MAX_SCANNED_PIDS {
        CapMeansMany(g, leader, s);
        return None;
      }
      if classifies(pid) {
        FirstIsNearest(g, leader, classifies, s);
        return Some(pid);
      }
      pending, seen, s := QueueChildren(g, leader, pending, seen, g.Children(pid), s);
    }
    forall p | Reachable(g, leader, p) ensures !classifies(p) {
      var k: nat :| Within(g, leader, p, k);
      NearerIsDone(g, leader, s, p, k);
    }
    return None;
  }

  /** `p` classifies at distance `k`, and nothing that classifies is nearer. */
  ghost predicate Nearest(g: Graph, root: Pid, classifies: Pid -> bool, p: Pid, k: nat) {
    Within(g, root, p, k) && classifies(p)
    && forall q, j: nat :: Within(g, root, q, j) && classifies(q) ==> k <= j
  }

  lemma FirstIsNearest(g: Graph, root: Pid, classifies: Pid -> bool, s: Search)
    requires Queued(g, root, s) && Followed(g, s) && s.head < |s.order| && classifies(s.order[s.head])
    requires forall i :: 0 <= i < s.head ==> !classifies(s.order[i])
    ensures Nearest(g, root, classifies, s.order[s.head], s.depth[s.head])
  {
    forall q, j: nat | Within(g, root, q, j) && classifies(q) ensures s.depth[s.head] <= j {
      if j < s.depth[s.head] {
        NearerIsDone(g, root, s, q, j);
      }
    }
  }

  lemma CapMeansMany(g: Graph, root: Pid, s: Search)
    requires Queued(g, root, s) && |s.order| > MAX_SCANNED_PIDS
    ensures Exceeds(g, root, MAX_SCANNED_PIDS)
  {
    forall p | p in s.order ensures Reachable(g, root, p) {
      var i :| 0 <= i < |s.order| && s.order[i] == p;
      assert Within(g, root, p, s.depth[i]);
    }
  }
}
