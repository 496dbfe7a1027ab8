/** `owner_of`: the memoised walk from a process to its nearest session root. */
module Ownership {
  import opened Basics
  import opened Pids

  type Id = nat
  type Memo = map<Pid, Option<Id>>

  datatype Stat = Stat(ppid: Pid, jiffies: nat, startTicks: nat)

  /** The process table and the queried roots. */
  datatype Table = Table(stats: map<Pid, Stat>, roots: map<Pid, Id>)
  {
    /** A process the walk climbs past, to its parent. */
    predicate Climbs(p: Pid) {
      p !in roots && p in stats && stats[p].ppid != 0 && stats[p].ppid != p
    }
  }

  const MAX_HOPS: nat := 64

  // ---- The plain definition --------------------------------------------------------

  /** The first root at or above `p` is `k` parent links up, and it is `id`'s. */
  predicate OwnedAt(t: Table, p: Pid, k: nat, id: Id)
    decreases k
  {
    if k == 0 then p in t.roots && t.roots[p] == id
    else t.Climbs(p) && OwnedAt(t, t.stats[p].ppid, k - 1, id)
  }

  ghost predicate OwnedBy(t: Table, p: Pid, id: Id) {
    exists k: nat :: OwnedAt(t, p, k, id)
  }

  ghost predicate Owned(t: Table, p: Pid) {
    exists k: nat, id: Id :: OwnedAt(t, p, k, id)
  }

  /** No process is further from its nearest root than the walk goes. */
  ghost predicate Shallow(t: Table) {
    forall p, k: nat, id: Id :: OwnedAt(t, p, k, id) ==> k <= MAX_HOPS
  }

  lemma {:induction false} NearestIsUnique(t: Table, p: Pid, j: nat, x: Id, k: nat, y: Id)
    requires OwnedAt(t, p, j, x) && OwnedAt(t, p, k, y)
    ensures j == k && x == y
    decreases j
  {
    if j > 0 && k > 0 {
      NearestIsUnique(t, t.stats[p].ppid, j - 1, x, k - 1, y);
    }
  }

  /** Whoever owns the parent owns the process, except at the top: parent 0, or a process that is its own parent. */
  lemma OwnerIsTheParents(t: Table, p: Pid, k: nat, id: Id)
    requires p in t.stats && p !in t.roots
    ensures OwnedAt(t, p, k, id)
            <==> k > 0 && t.stats[p].ppid != 0 && t.stats[p].ppid != p && OwnedAt(t, t.stats[p].ppid, k - 1, id)
  {
  }

  // ---- What a memo makes of it -------------------------------------------------------

  /** `k` links up, and not before, the walk meets something remembered or a root, and it says `id`. */
  predicate MeetsOwner(t: Table, memo: Memo, p: Pid, k: nat, id: Id)
    decreases k
  {
    if k == 0 then if p in memo then memo[p] == Some(id) else p in t.roots && t.roots[p] == id
    else p !in memo && t.Climbs(p) && MeetsOwner(t, memo, t.stats[p].ppid, k - 1, id)
  }

  /** The answer of a walk that may still climb `n` links. */
  function Found(t: Table, memo: Memo, p: Pid, n: nat): Option<Id>
    decreases n
  {
    if p in memo then memo[p]
    else if p in t.roots then Some(t.roots[p])
    else if n == 0 || !t.Climbs(p) then None
    else Found(t, memo, t.stats[p].ppid, n - 1)
  }

  /** The processes that such a walk will remember. */
  function Passed(t: Table, memo: Memo, p: Pid, n: nat): set<Pid>
    decreases n
  {
    if p in memo then {}
    else if p in t.roots then {p}
    else if n == 0 || p !in t.stats then {}
    else if !t.Climbs(p) then {p}
    else {p} + Passed(t, memo, t.stats[p].ppid, n - 1)
  }

  /** The memo after everything in `passed` was given one answer. */
  function Noted(memo: Memo, passed: set<Pid>, answer: Option<Id>): (r: Memo)
    ensures r.Keys == memo.Keys + passed
    ensures forall p :: p in r ==> r[p] == if p in passed then answer else memo[p]
  {
    memo + map p | p in passed :: answer
  }

  /** The whole effect of `owner_of` on the memo. */
  function After(t: Table, memo: Memo, p: Pid): Memo {
    Noted(memo, Passed(t, memo, p, MAX_HOPS), Found(t, memo, p, MAX_HOPS))
  }

  ghost predicate MeetsWithin(t: Table, memo: Memo, p: Pid, n: nat, id: Id) {
    exists k: nat :: k <= n && MeetsOwner(t, memo, p, k, id)
  }

  /** An owner is named exactly when one is met within the links that are left. */
  lemma {:induction false} FoundExactly(t: Table, memo: Memo, p: Pid, n: nat, id: Id)
    ensures Found(t, memo, p, n) == Some(id) <==> MeetsWithin(t, memo, p, n, id)
    decreases n
  {
    if Found(t, memo, p, n) == Some(id) {
      FoundIsMet(t, memo, p, n, id);
    }
    if MeetsWithin(t, memo, p, n, id) {
      var k: nat :| k <= n && MeetsOwner(t, memo, p, k, id);
      MetIsFound(t, memo, p, n, k, id);
    }
  }

  lemma {:induction false} FoundIsMet(t: Table, memo: Memo, p: Pid, n: nat, id: Id)
    requires Found(t, memo, p, n) == Some(id)
    ensures MeetsWithin(t, memo, p, n, id)
    decreases n
  {
    if p in memo || p in t.roots {
      assert MeetsOwner(t, memo, p, 0, id);
    } else {
      FoundIsMet(t, memo, t.stats[p].ppid, n - 1, id);
      var k: nat :| k <= n - 1 && MeetsOwner(t, memo, t.stats[p].ppid, k, id);
      var m := k + 1;
      assert MeetsOwner(t, memo, p, m, id);
    }
  }

  lemma {:induction false} MetIsFound(t: Table, memo: Memo, p: Pid, n: nat, k: nat, id: Id)
    requires k <= n && MeetsOwner(t, memo, p, k, id)
    ensures Found(t, memo, p, n) == Some(id)
    decreases k
  {
    if k > 0 {
      MetIsFound(t, memo, t.stats[p].ppid, n - 1, k - 1, id);
    }
  }

  /** With nothing remembered, what is met is the nearest root. */
  lemma {:induction false} MeetsNearest(t: Table, p: Pid, k: nat, id: Id)
    ensures MeetsOwner(t, map[], p, k, id) <==> OwnedAt(t, p, k, id)
    decreases k
  {
    if k > 0 && t.Climbs(p) {
      MeetsNearest(t, t.stats[p].ppid, k - 1, id);
    }
  }

  lemma FreshFound(t: Table, p: Pid, k: nat, id: Id)
    requires OwnedAt(t, p, k, id)
    ensures Found(t, map[], p, MAX_HOPS) == if k <= MAX_HOPS then Some(id) else None
  {
    MeetsNearest(t, p, k, id);
    if k <= MAX_HOPS {
      MetIsFound(t, map[], p, MAX_HOPS, k, id);
    } else if Found(t, map[], p, MAX_HOPS).Some? {
      var x := Found(t, map[], p, MAX_HOPS).value;
      FoundIsMet(t, map[], p, MAX_HOPS, x);
      var j: nat :| j <= MAX_HOPS && MeetsOwner(t, map[], p, j, x);
      MeetsNearest(t, p, j, x);
      NearestIsUnique(t, p, j, x, k, id);
    }
  }

  // ---- What the memo keeps -------------------------------------------------------------

  /** Remembered owners are right. */
  ghost predicate Sound(t: Table, memo: Memo) {
    forall p :: p in memo && memo[p].Some? ==> OwnedBy(t, p, memo[p].value)
  }

  /** Remembered absences are right too. */
  ghost predicate Exact(t: Table, memo: Memo) {
    forall p :: p in memo && memo[p].None? ==> !Owned(t, p)
  }

  lemma {:induction false} FoundSound(t: Table, memo: Memo, p: Pid, n: nat)
    requires Sound(t, memo) && Found(t, memo, p, n).Some?
    ensures OwnedBy(t, p, Found(t, memo, p, n).value)
    decreases n
  {
    if p in memo {
    } else if p in t.roots {
      assert OwnedAt(t, p, 0, t.roots[p]);
    } else {
      FoundSound(t, memo, t.stats[p].ppid, n - 1);
      var id := Found(t, memo, p, n).value;
      var k: nat :| OwnedAt(t, t.stats[p].ppid, k, id);
      var m := k + 1;
      assert OwnedAt(t, p, m, id);
    }
  }

  /** A walk that finds nothing in an exact memo has no root within its links. */
  lemma {:induction false} FoundExact(t: Table, memo: Memo, p: Pid, n: nat, k: nat, id: Id)
    requires Exact(t, memo) && Found(t, memo, p, n).None? && OwnedAt(t, p, k, id)
    ensures k > n
    decreases n
  {
    if p !in memo && p !in t.roots && n > 0 {
      FoundExact(t, memo, t.stats[p].ppid, n - 1, k - 1, id);
    }
  }

  /** Every process passed shares the walk's answer, with fewer links left, and is that much nearer to a root. */
  lemma {:induction false} PassedShares(t: Table, memo: Memo, p: Pid, n: nat, q: Pid) returns (j: nat)
    requires q in Passed(t, memo, p, n)
    ensures j <= n && q !in memo && Found(t, memo, q, n - j) == Found(t, memo, p, n)
    ensures forall k: nat, id: Id :: OwnedAt(t, q, k, id) ==> OwnedAt(t, p, k + j, id)
    decreases n
  {
    if q == p {
      j := 0;
    } else {
      var i := PassedShares(t, memo, t.stats[p].ppid, n - 1, q);
      j := i + 1;
    }
  }

  lemma AfterSound(t: Table, memo: Memo, p: Pid)
    requires Sound(t, memo)
    ensures Sound(t, After(t, memo, p))
  {
    var after := After(t, memo, p);
    forall q | q in after && after[q].Some? ensures OwnedBy(t, q, after[q].value) {
      if q in Passed(t, memo, p, MAX_HOPS) {
        PassedSound(t, memo, p, MAX_HOPS, q, after[q].value);
      } else {
        assert q in memo && memo[q] == after[q];
      }
    }
  }

  lemma PassedSound(t: Table, memo: Memo, p: Pid, n: nat, q: Pid, id: Id)
    requires Sound(t, memo) && q in Passed(t, memo, p, n) && Found(t, memo, p, n) == Some(id)
    ensures OwnedBy(t, q, id)
  {
    var j := PassedShares(t, memo, p, n, q);
    FoundSound(t, memo, q, n - j);
  }

  lemma AfterExact(t: Table, memo: Memo, p: Pid)
    requires Shallow(t) && Exact(t, memo)
    ensures Exact(t, After(t, memo, p))
    ensures Found(t, memo, p, MAX_HOPS).None? ==> !Owned(t, p)
  {
    var after := After(t, memo, p);
    forall q | q in after && after[q].None? ensures !Owned(t, q) {
      if q in Passed(t, memo, p, MAX_HOPS) && Owned(t, q) {
        var j := PassedShares(t, memo, p, MAX_HOPS, q);
        var k: nat, id: Id :| OwnedAt(t, q, k, id);
        FoundExact(t, memo, p, MAX_HOPS, k + j, id);
      }
    }
    if Found(t, memo, p, MAX_HOPS).None? && Owned(t, p) {
      var k: nat, id: Id :| OwnedAt(t, p, k, id);
      FoundExact(t, memo, p, MAX_HOPS, k, id);
    }
  }

  // ---- The loop ------------------------------------------------------------------------

  /** One link of the climb. */
  predicate Link(t: Table, memo: Memo, chain: seq<Pid>, current: Pid, i: nat)
    requires i < |chain|
  {
    && chain[i] !in memo && t.Climbs(chain[i])
    && t.stats[chain[i]].ppid == if i + 1 < |chain| then chain[i + 1] else current
  }

  /** `chain` climbs link by link, past nothing remembered, and arrives at `current`. */
  ghost predicate Walk(t: Table, memo: Memo, chain: seq<Pid>, current: Pid) {
    forall i :: 0 <= i < |chain| ==> Link(t, memo, chain, current, i)
  }

  lemma WalkGrows(t: Table, memo: Memo, chain: seq<Pid>, current: Pid)
    requires Walk(t, memo, chain, current) && t.Climbs(current) && current !in memo
    ensures Walk(t, memo, chain + [current], t.stats[current].ppid)
  {
    forall i | 0 <= i < |chain + [current]| ensures Link(t, memo, chain + [current], t.stats[current].ppid, i) {
      assert i < |chain| ==> Link(t, memo, chain, current, i);
    }
  }

  /** What the walk from the bottom of the chain answers and passes, in terms of its top. */
  lemma {:induction false} WalkFinds(t: Table, memo: Memo, chain: seq<Pid>, current: Pid, n: nat)
    requires Walk(t, memo, chain, current) && |chain| <= n
    ensures var start := if chain == [] then current else chain[0];
            && Found(t, memo, start, n) == Found(t, memo, current, n - |chain|)
            && Passed(t, memo, start, n) == Elements(chain) + Passed(t, memo, current, n - |chain|)
    decreases |chain|
  {
    if chain == [] {
      assert Elements(chain) == {};
    } else {
      assert Link(t, memo, chain, current, 0);
      var rest := chain[1..];
      forall i | 0 <= i < |rest| ensures Link(t, memo, rest, current, i) {
        var n := i + 1;
        assert Link(t, memo, chain, current, n);
      }
      WalkFinds(t, memo, rest, current, n - 1);
      assert Elements(chain) == {chain[0]} + Elements(rest);
    }
  }

  /** On a cycle the walk finds nothing and passes nothing else. */
  lemma {:induction false} CycleFindsNothing(t: Table, memo: Memo, chain: seq<Pid>, current: Pid, p: Pid, n: nat)
    requires Walk(t, memo, chain, current) && current in chain && p in chain
    ensures Found(t, memo, p, n).None? && Passed(t, memo, p, n) <= Elements(chain)
    decreases n
  {
    var i: nat :| i < |chain| && chain[i] == p;
    assert Link(t, memo, chain, current, i);
    if n > 0 {
      CycleFindsNothing(t, memo, chain, current, t.stats[p].ppid, n - 1);
    }
  }

  /** Nobody on a cycle of parents has an owner. */
  lemma CycleUnowned(t: Table, chain: seq<Pid>, current: Pid)
    requires Walk(t, map[], chain, current) && current in chain
    ensures !Owned(t, current)
  {
    if Owned(t, current) {
      var k: nat, id: Id :| OwnedAt(t, current, k, id);
      CycleFindsNothing(t, map[], chain, current, current, k);
      FoundExact(t, map[], current, k, k, id);
    }
  }

  method Remember(memo: Memo, chain: seq<Pid>, answer: Option<Id>) returns (r: Memo)
    ensures r == Noted(memo, Elements(chain), answer)
  {
    r := memo;
    for i := 0 to |chain|
      invariant r.Keys == memo.Keys + Elements(chain[..i])
      invariant forall p :: p in r ==> r[p] == if p in chain[..i] then answer else memo[p]
    {
      assert chain[..i + 1] == chain[..i] + [chain[i]];
      r := r[chain[i] := answer];
    }
    assert chain[..|chain|] == chain;
  }

  /** Where the loop of `owner_of` ends. */
  predicate Stops(t: Table, memo: Memo, chain: seq<Pid>, current: Pid) {
    current in memo || current in chain || |chain| >= MAX_HOPS || !t.Climbs(current)
  }

  /** The climb of `owner_of`. */
  method Climb(t: Table, start: Pid, memo: Memo) returns (chain: seq<Pid>, current: Pid)
    ensures Walk(t, memo, chain, current) && |chain| <= MAX_HOPS && Stops(t, memo, chain, current)
    ensures start == if chain == [] then current else chain[0]
  {
    chain, current := [], start;
    while !Stops(t, memo, chain, current)
      invariant Walk(t, memo, chain, current) && |chain| <= MAX_HOPS
      invariant start == if chain == [] then current else chain[0]
      decreases MAX_HOPS - |chain|
    {
      WalkGrows(t, memo, chain, current);
      chain := chain + [current];
      current := t.stats[current].ppid;
    }
  }

  /** The answer at the end of the climb, and the processes that get it. */
  method Conclude(t: Table, memo: Memo, chain: seq<Pid>, current: Pid) returns (answer: Option<Id>, passed: seq<Pid>)
    requires Walk(t, memo, chain, current) && |chain| <= MAX_HOPS && Stops(t, memo, chain, current)
    ensures answer == Found(t, memo, current, MAX_HOPS - |chain|)
    ensures Elements(passed) == Elements(chain) + Passed(t, memo, current, MAX_HOPS - |chain|)
  {
    if current in memo { return memo[current], chain; }
    assert Elements(chain + [current]) == Elements(chain) + {current};
    if current in t.roots { return Some(t.roots[current]), chain + [current]; }
    if current in chain {
      CycleFindsNothing(t, memo, chain, current, current, MAX_HOPS - |chain|);
      return None, chain;
    }
    if |chain| >= MAX_HOPS || current !in t.stats { return None, chain; }
    return None, chain + [current];
  }

  /** `owner_of`. */
  method OwnerOf(t: Table, start: Pid, memo: Memo) returns (answer: Option<Id>, after: Memo)
    ensures forall id: Id :: answer == Some(id) <==> MeetsWithin(t, memo, start, MAX_HOPS, id)
    ensures answer == Found(t, memo, start, MAX_HOPS) && after == After(t, memo, start)
    ensures Sound(t, memo) ==> Sound(t, after) && (answer.Some? ==> OwnedBy(t, start, answer.value))
    ensures Shallow(t) && Exact(t, memo) ==> Exact(t, after) && (answer.None? ==> !Owned(t, start))
  {
    var chain, current := Climb(t, start, memo);
    WalkFinds(t, memo, chain, current, MAX_HOPS);
    var passed;
    answer, passed := Conclude(t, memo, chain, current);
    after := Remember(memo, passed, answer);
    OwnerFacts(t, start, memo);
  }

  lemma OwnerFacts(t: Table, start: Pid, memo: Memo)
    ensures var answer, after := Found(t, memo, start, MAX_HOPS), After(t, memo, start);
            && (forall id: Id :: answer == Some(id) <==> MeetsWithin(t, memo, start, MAX_HOPS, id))
            && (Sound(t, memo) ==> Sound(t, after) && (answer.Some? ==> OwnedBy(t, start, answer.value)))
            && (Shallow(t) && Exact(t, memo) ==> Exact(t, after) && (answer.None? ==> !Owned(t, start)))
  {
    var answer := Found(t, memo, start, MAX_HOPS);
    forall id: Id ensures answer == Some(id) <==> MeetsWithin(t, memo, start, MAX_HOPS, id) {
      FoundExactly(t, memo, start, MAX_HOPS, id);
    }
    if Sound(t, memo) {
      AfterSound(t, memo, start);
      if answer.Some? { FoundSound(t, memo, start, MAX_HOPS); }
    }
    if Shallow(t) && Exact(t, memo) {
      AfterExact(t, memo, start);
    }
  }

  // ---- A deep process hides a near one ---------------------------------------------------

  /** Processes 1 to `n`, each the child of the next. */
  function Line(n: nat): (r: map<Pid, Stat>)
    ensures forall i :: i in r <==> 1 <= i <= n
    ensures forall i :: i in r ==> r[i] == Stat(i + 1, 0, 0)
  {
    if n == 0 then map[] else Line(n - 1)[n := Stat(n + 1, 0, 0)]
  }

  /** A line of 70 processes under process 71, which is session 7's root. */
  function LongLine(): Table {
    Table(Line(70), map[71 := 7])
  }

  lemma {:induction false} LongLineOwned(i: nat)
    requires 1 <= i <= 71
    ensures OwnedAt(LongLine(), i, 71 - i, 7)
    decreases 71 - i
  {
    if i < 71 {
      LongLineOwned(i + 1);
    }
  }

  lemma {:induction false} LongLinePasses(i: nat, n: nat, q: nat)
    requires 1 <= i <= q < i + n && q <= 70
    ensures q in Passed(LongLine(), map[], i, n)
    decreases n
  {
    if q > i {
      LongLinePasses(i + 1, n - 1, q);
    }
  }

  /**
   Asked first, process 1 is too deep and nobody's, and that is remembered of
   everything it passed: process 64 then has no owner, 7 links from its root.
   */
  lemma DeepProcessHidesNearOne()
    ensures var t := LongLine();
            && OwnedAt(t, 64, 7, 7) && Found(t, map[], 64, MAX_HOPS) == Some(7)
            && Found(t, map[], 1, MAX_HOPS) == None
            && Found(t, After(t, map[], 1), 64, MAX_HOPS) == None
  {
    LongLineOwned(64);
    FreshFound(LongLine(), 64, 7, 7);
    LongLineOwned(1);
    FreshFound(LongLine(), 1, 70, 7);
    LongLinePasses(1, MAX_HOPS, 64);
  }
}
