/** `scan_session_procs`: every process of the table counted in one session row. */
module Usage {
  import opened Basics
  import opened Pids
  import opened Ownership

  datatype Row = Row(pid: Pid, startTicks: nat, jiffies: nat, processes: nat)

  // ---- Sums over sets --------------------------------------------------------------

  ghost function Sum(f: nat -> nat, s: set<nat>): nat {
    if s == {} then 0 else var x :| x in s; f(x) + Sum(f, s - {x})
  }

  lemma {:induction false} SumWithout(f: nat -> nat, s: set<nat>, x: nat)
    requires x in s
    ensures Sum(f, s) == f(x) + Sum(f, s - {x})
    decreases |s|
  {
    var y :| y in s && Sum(f, s) == f(y) + Sum(f, s - {y});
    if y != x {
      SumWithout(f, s - {y}, x);
      SumWithout(f, s - {x}, y);
      assert s - {y} - {x} == s - {x} - {y};
    }
  }

  lemma SumAdds(f: nat -> nat, s: set<nat>, x: nat)
    requires x !in s
    ensures Sum(f, s + {x}) == Sum(f, s) + f(x)
  {
    SumWithout(f, s + {x}, x);
    assert s + {x} - {x} == s;
  }

  lemma {:induction false} SumSame(f: nat -> nat, g: nat -> nat, s: set<nat>)
    requires forall x :: x in s ==> f(x) == g(x)
    ensures Sum(f, s) == Sum(g, s)
    decreases |s|
  {
    if s != {} {
      var x :| x in s;
      SumWithout(f, s, x);
      SumWithout(g, s, x);
      SumSame(f, g, s - {x});
    }
  }

  // ---- What a snapshot should say --------------------------------------------------

  /** Which processes are attributed to each session. */
  type Shares = map<Id, set<Pid>>

  function Jiffies(t: Table): Pid -> nat {
    p => if p in t.stats then t.stats[p].jiffies else 0
  }

  /** A share holds only processes whose nearest root is that session's. */
  ghost predicate Rightful(t: Table, id: Id, share: set<Pid>) {
    share <= t.stats.Keys && forall p :: p in share ==> OwnedBy(t, p, id)
  }

  /** A row reports exactly its share. */
  ghost predicate Reports(t: Table, share: set<Pid>, row: Row) {
    && row.processes == Min(U32_MAX, |share|)
    && row.jiffies == Min(U64_MAX, Sum(Jiffies(t), share))
    && row.startTicks == if row.pid in share && row.pid in t.stats then t.stats[row.pid].startTicks else 0
  }

  /** One session's share and row, while the processes in `left` have not been visited. */
  ghost predicate Entry(t: Table, left: set<Pid>, id: Id, share: set<Pid>, row: Row) {
    Rightful(t, id, share) && Reports(t, share, row) && share !! left
  }

  ghost function EntryOf(t: Table, left: set<Pid>): (Id, set<Pid>, Row) -> bool {
    (id: Id, share: set<Pid>, row: Row) => Entry(t, left, id, share, row)
  }

  /** Something holds of every session's share and row. */
  ghost predicate All(holds: (Id, set<Pid>, Row) -> bool, shares: Shares, rows: map<Id, Row>) {
    shares.Keys == rows.Keys && forall id :: id in rows ==> holds(id, shares[id], rows[id])
  }

  /** Every row reports its share, and every share is rightful. */
  ghost predicate Accounts(t: Table, left: set<Pid>, shares: Shares, rows: map<Id, Row>) {
    All(EntryOf(t, left), shares, rows)
  }

  /** Every process that has an owner is attributed to it. */
  ghost predicate Complete(t: Table, shares: Shares, done: set<Pid>) {
    forall p, id: Id :: p in done && OwnedBy(t, p, id) ==> Attributed(shares, id, p)
  }

  ghost predicate Attributed(shares: Shares, id: Id, p: Pid) {
    id in shares && p in shares[id]
  }

  // ---- The loops -------------------------------------------------------------------

  /** The first loop: one row per session with a pid. */
  method OpenRows(sessions: seq<(Id, Pid)>) returns (rows: map<Id, Row>, roots: map<Pid, Id>)
    ensures rows.Keys == set s | s in sessions && s.1 != 0 :: s.0
    ensures roots.Keys == set s | s in sessions && s.1 != 0 :: s.1
    ensures forall p :: p in roots ==> (roots[p], p) in sessions
    ensures forall id :: id in rows ==> (id, rows[id].pid) in sessions && rows[id] == Row(rows[id].pid, 0, 0, 0)
  {
    rows, roots := map[], map[];
    for i := 0 to |sessions|
      invariant rows.Keys == set s | s in sessions[..i] && s.1 != 0 :: s.0
      invariant roots.Keys == set s | s in sessions[..i] && s.1 != 0 :: s.1
      invariant forall p :: p in roots ==> (roots[p], p) in sessions[..i]
      invariant forall id :: id in rows ==>
                  (id, rows[id].pid) in sessions[..i] && rows[id] == Row(rows[id].pid, 0, 0, 0)
    {
      var (id, pid) := sessions[i];
      assert sessions[..i + 1] == sessions[..i] + [sessions[i]];
      if pid != 0 {
        rows := rows[id := Row(pid, 0, 0, 0)];
        roots := roots[pid := id];
      }
    }
    assert sessions[..|sessions|] == sessions;
  }

  /** One process more in its owner's row. */
  function CountIn(row: Row, pid: Pid, stat: Stat): Row {
    Row(row.pid, if pid == row.pid then stat.startTicks else row.startTicks,
        Min(U64_MAX, row.jiffies + stat.jiffies), Min(U32_MAX, row.processes + 1))
  }

  lemma EntryGrows(t: Table, left: set<Pid>, id: Id, share: set<Pid>, row: Row, pid: Pid)
    requires Entry(t, left, id, share, row) && pid in left && pid in t.stats && OwnedBy(t, pid, id)
    ensures Entry(t, left - {pid}, id, share + {pid}, CountIn(row, pid, t.stats[pid]))
  {
    ReportsGrow(t, share, row, pid);
  }

  lemma ReportsGrow(t: Table, share: set<Pid>, row: Row, pid: Pid)
    requires Reports(t, share, row) && pid in t.stats && pid !in share
    ensures Reports(t, share + {pid}, CountIn(row, pid, t.stats[pid]))
  {
    SumAdds(Jiffies(t), share, pid);
  }

  lemma EntryKept(t: Table, left: set<Pid>, pid: Pid)
    ensures forall id, share, row :: EntryOf(t, left)(id, share, row) ==> EntryOf(t, left - {pid})(id, share, row)
  {
    forall id, share, row | EntryOf(t, left)(id, share, row) ensures EntryOf(t, left - {pid})(id, share, row) {
      assert Entry(t, left, id, share, row);
    }
  }

  lemma AllKept(p: (Id, set<Pid>, Row) -> bool, q: (Id, set<Pid>, Row) -> bool, shares: Shares, rows: map<Id, Row>)
    requires All(p, shares, rows) && forall id, share, row :: p(id, share, row) ==> q(id, share, row)
    ensures All(q, shares, rows)
  {
  }

  lemma AllReplaced(q: (Id, set<Pid>, Row) -> bool, shares: Shares, rows: map<Id, Row>, id: Id, share: set<Pid>,
                    row: Row)
    requires All(q, shares, rows) && q(id, share, row) && id in rows
    ensures All(q, shares[id := share], rows[id := row])
  {
  }

  ghost predicate SamePids(a: map<Id, Row>, b: map<Id, Row>) {
    a.Keys == b.Keys && forall id :: id in a ==> a[id].pid == b[id].pid
  }

  lemma OneMoreCounted(t: Table, shares: Shares, rows: map<Id, Row>, left: set<Pid>, pid: Pid, id: Id)
    requires Accounts(t, left, shares, rows) && pid in left && pid in t.stats && id in rows && OwnedBy(t, pid, id)
    ensures var rows' := rows[id := CountIn(rows[id], pid, t.stats[pid])];
            Accounts(t, left - {pid}, shares[id := shares[id] + {pid}], rows') && SamePids(rows', rows)
  {
    var p, q := EntryOf(t, left), EntryOf(t, left - {pid});
    var share, row := shares[id], rows[id];
    assert p(id, share, row);
    EntryGrows(t, left, id, share, row, pid);
    EntryKept(t, left, pid);
    AllKept(p, q, shares, rows);
    AllReplaced(q, shares, rows, id, share + {pid}, CountIn(row, pid, t.stats[pid]));
  }

  lemma NoneCounted(t: Table, shares: Shares, rows: map<Id, Row>, left: set<Pid>, pid: Pid)
    requires Accounts(t, left, shares, rows)
    ensures Accounts(t, left - {pid}, shares, rows)
  {
    EntryKept(t, left, pid);
    AllKept(EntryOf(t, left), EntryOf(t, left - {pid}), shares, rows);
  }

  /** The share that an answer credits. */
  function Credit(shares: Shares, pid: Pid, answer: Option<Id>): Shares {
    if answer.Some? && answer.value in shares
    then shares[answer.value := shares[answer.value] + {pid}] else shares
  }

  /** The body of the counting loop. */
  method Visit(t: Table, ghost left: set<Pid>, pid: Pid, memo: Memo, rows: map<Id, Row>, ghost shares: Shares)
    returns (memo': Memo, rows': map<Id, Row>, ghost shares': Shares)
    requires forall p :: p in t.roots ==> t.roots[p] in rows
    requires pid in left && pid in t.stats && Accounts(t, left, shares, rows) && Sound(t, memo)
    ensures memo' == After(t, memo, pid) && Sound(t, memo')
    ensures SamePids(rows', rows) && Accounts(t, left - {pid}, shares', rows')
    ensures shares' == Credit(shares, pid, Found(t, memo, pid, MAX_HOPS))
    ensures Found(t, memo, pid, MAX_HOPS).Some? ==> Found(t, memo, pid, MAX_HOPS).value in rows
  {
    var owner;
    owner, memo' := OwnerOf(t, pid, memo);
    if owner.Some? {
      var id := owner.value;
      OwnersHaveRows(t, pid, id, rows.Keys);
      OneMoreCounted(t, shares, rows, left, pid, id);
      rows' := rows[id := CountIn(rows[id], pid, t.stats[pid])];
    } else {
      NoneCounted(t, shares, rows, left, pid);
      rows' := rows;
    }
    shares' := Credit(shares, pid, owner);
  }

  lemma BlankAccounts(t: Table, left: set<Pid>, shares: Shares, rows: map<Id, Row>)
    requires shares.Keys == rows.Keys
    requires forall id :: id in rows ==> shares[id] == {} && rows[id] == Row(rows[id].pid, 0, 0, 0)
    ensures Accounts(t, left, shares, rows)
  {
  }

  // ---- Visiting orders ---------------------------------------------------------------

  /** `order` visits every process of the table once. */
  ghost predicate Visits(t: Table, order: seq<Pid>) {
    NoRepeats(order) && Elements(order) == t.stats.Keys
  }

  /** The memo after visiting `order`. */
  function MemoAfter(t: Table, order: seq<Pid>): Memo {
    if order == [] then map[] else After(t, MemoAfter(t, order[..|order| - 1]), order[|order| - 1])
  }

  /** What the `i`-th process visited is answered. */
  function AnswerAt(t: Table, order: seq<Pid>, i: nat): Option<Id>
    requires i < |order|
  {
    Found(t, MemoAfter(t, order[..i]), order[i], MAX_HOPS)
  }

  /** Every process that has an owner is given one. */
  ghost predicate AllAnswered(t: Table, order: seq<Pid>) {
    forall i :: 0 <= i < |order| && Owned(t, order[i]) ==> AnswerAt(t, order, i).Some?
  }

  lemma {:induction false} MemoIsGood(t: Table, order: seq<Pid>)
    ensures Sound(t, MemoAfter(t, order)) && (Shallow(t) ==> Exact(t, MemoAfter(t, order)))
    decreases |order|
  {
    if order != [] {
      var init := order[..|order| - 1];
      MemoIsGood(t, init);
      OwnerFacts(t, order[|order| - 1], MemoAfter(t, init));
    }
  }

  lemma AnsweredWhenShallow(t: Table, order: seq<Pid>)
    requires Shallow(t)
    ensures AllAnswered(t, order)
  {
    forall i | 0 <= i < |order| && Owned(t, order[i]) ensures AnswerAt(t, order, i).Some? {
      MemoIsGood(t, order[..i]);
      OwnerFacts(t, order[i], MemoAfter(t, order[..i]));
    }
  }

  lemma {:induction false} Enumerate(s: set<Pid>) returns (order: seq<Pid>)
    ensures NoRepeats(order) && Elements(order) == s
    decreases |s|
  {
    if s == {} {
      order := [];
    } else {
      var p :| p in s;
      var rest := Enumerate(s - {p});
      order := [p] + rest;
      assert Elements(order) == {p} + Elements(rest);
      forall k | 0 <= k < |rest| ensures rest[k] != p {
        assert rest[k] in Elements(rest);
      }
    }
  }

  /** Every visiting order counts every owned process if and only if none is deeper than the walk goes. */
  lemma EveryOrderCountsAllIffShallow(t: Table)
    ensures (forall order :: Visits(t, order) ==> AllAnswered(t, order)) <==> Shallow(t)
  {
    if Shallow(t) {
      forall order | Visits(t, order) ensures AllAnswered(t, order) {
        AnsweredWhenShallow(t, order);
      }
    } else {
      var p, k: nat, id: Id :| OwnedAt(t, p, k, id) && k > MAX_HOPS;
      var order := DeepFirst(t, p, k, id);
      assert Visits(t, order) && !AllAnswered(t, order);
    }
  }

  /** A process too deep, visited first, is left out. */
  lemma DeepFirst(t: Table, p: Pid, k: nat, id: Id) returns (order: seq<Pid>)
    requires OwnedAt(t, p, k, id) && k > MAX_HOPS
    ensures Visits(t, order) && !AllAnswered(t, order)
  {
    var rest := Enumerate(t.stats.Keys - {p});
    order := [p] + rest;
    forall j | 0 <= j < |rest| ensures rest[j] != p {
      assert rest[j] in Elements(rest);
    }
    assert Elements(order) == {p} + Elements(rest);
    FreshFound(t, p, k, id);
    assert order[..0] == [] && Owned(t, order[0]) && AnswerAt(t, order, 0) == None;
  }

  // ---- The whole scan --------------------------------------------------------------------

  /** Who has been visited is attributed as answered, and nobody else. */
  ghost predicate Follows(order: seq<Pid>, answers: seq<Option<Id>>, shares: Shares)
    requires |answers| <= |order|
  {
    forall j, id: Id :: 0 <= j < |answers| ==> (Attributed(shares, id, order[j]) <==> answers[j] == Some(id))
  }

  lemma FollowsOn(order: seq<Pid>, answers: seq<Option<Id>>, shares: Shares, answer: Option<Id>)
    requires |answers| < |order| && NoRepeats(order) && Follows(order, answers, shares)
    requires forall id: Id :: !Attributed(shares, id, order[|answers|])
    requires answer.Some? ==> answer.value in shares
    ensures Follows(order, answers + [answer], Credit(shares, order[|answers|], answer))
  {
    var n := |answers|;
    var after := Credit(shares, order[n], answer);
    forall j, id: Id | 0 <= j <= n ensures Attributed(after, id, order[j]) <==> (answers + [answer])[j] == Some(id) {
      assert j < n ==> (Attributed(after, id, order[j]) <==> Attributed(shares, id, order[j]));
      assert !Attributed(shares, id, order[n]);
    }
  }

  lemma NotYetShared(t: Table, left: set<Pid>, shares: Shares, rows: map<Id, Row>, pid: Pid)
    requires Accounts(t, left, shares, rows) && pid in left
    ensures forall id: Id :: !Attributed(shares, id, pid)
  {
    forall id: Id ensures !Attributed(shares, id, pid) {
      if id in rows { assert EntryOf(t, left)(id, shares[id], rows[id]); }
    }
  }

  /** The answers given so far, in the order of the visits. */
  ghost predicate Answered(t: Table, order: seq<Pid>, answers: seq<Option<Id>>) {
    |answers| <= |order| && forall j :: 0 <= j < |answers| ==> answers[j] == AnswerAt(t, order, j)
  }

  /**
   The counting loop, for any visiting order. Every counted process is in the row of its
   nearest root and no other, and all owned processes are counted if and only if each
   was answered when it was visited.
   */
  method Scan(t: Table, blank: map<Id, Row>, order: seq<Pid>) returns (rows: map<Id, Row>, ghost shares: Shares)
    requires forall p :: p in t.roots ==> t.roots[p] in blank
    requires forall id :: id in blank ==> blank[id] == Row(blank[id].pid, 0, 0, 0)
    requires Visits(t, order)
    ensures SamePids(rows, blank) && Accounts(t, {}, shares, rows)
    ensures Complete(t, shares, t.stats.Keys) <==> AllAnswered(t, order)
    ensures Shallow(t) ==> Complete(t, shares, t.stats.Keys)
  {
    ghost var answers;
    rows, shares, answers := ScanAll(t, blank, order);
    AnsweredIsComplete(t, order, answers, shares, rows);
    if Shallow(t) { AnsweredWhenShallow(t, order); }
  }

  /** The loop's state before the `i`-th visit. */
  ghost predicate Scanning(t: Table, order: seq<Pid>, i: nat, memo: Memo, rows: map<Id, Row>, shares: Shares,
                           answers: seq<Option<Id>>) {
    && i == |answers| <= |order|
    && Accounts(t, Elements(order[i..]), shares, rows)
    && memo == MemoAfter(t, order[..i]) && Sound(t, memo)
    && Answered(t, order, answers) && Follows(order, answers, shares)
  }

  method ScanAll(t: Table, blank: map<Id, Row>, order: seq<Pid>)
    returns (rows: map<Id, Row>, ghost shares: Shares, ghost answers: seq<Option<Id>>)
    requires forall p :: p in t.roots ==> t.roots[p] in blank
    requires forall id :: id in blank ==> blank[id] == Row(blank[id].pid, 0, 0, 0)
    requires Visits(t, order)
    ensures SamePids(rows, blank) && Accounts(t, {}, shares, rows)
    ensures |answers| == |order| && Answered(t, order, answers) && Follows(order, answers, shares)
  {
    rows, answers := blank, [];
    shares := map id | id in blank :: {};
    var memo: Memo := map[];
    BlankAccounts(t, Elements(order[0..]), shares, rows);
    assert order[..0] == [];
    for i := 0 to |order|
      invariant SamePids(rows, blank) && Scanning(t, order, i, memo, rows, shares, answers)
    {
      memo, rows, shares, answers := VisitNext(t, order, i, memo, rows, shares, answers);
    }
    assert Elements(order[|order|..]) == {};
  }

  method VisitNext(t: Table, order: seq<Pid>, i: nat, memo: Memo, rows: map<Id, Row>, ghost shares: Shares,
                   ghost answers: seq<Option<Id>>)
    returns (memo': Memo, rows': map<Id, Row>, ghost shares': Shares, ghost answers': seq<Option<Id>>)
    requires forall p :: p in t.roots ==> t.roots[p] in rows
    requires Visits(t, order) && i < |order| && Scanning(t, order, i, memo, rows, shares, answers)
    ensures SamePids(rows', rows) && Scanning(t, order, i + 1, memo', rows', shares', answers')
  {
    var pid := order[i];
    ghost var left, answer := Elements(order[i..]), Found(t, memo, pid, MAX_HOPS);
    OneVisited(order, i);
    assert pid in Elements(order);
    memo', rows', shares' := Visit(t, left, pid, memo, rows, shares);
    answers' := answers + [answer];
    MemoGrows(t, order, i);
    NotYetShared(t, left, shares, rows, pid);
    FollowsOn(order, answers, shares, answer);
    AnsweredOn(t, order, answers, answer);
  }

  lemma MemoGrows(t: Table, order: seq<Pid>, i: nat)
    requires i < |order|
    ensures MemoAfter(t, order[..i + 1]) == After(t, MemoAfter(t, order[..i]), order[i])
  {
    assert order[..i + 1][..i] == order[..i];
  }

  lemma AnsweredOn(t: Table, order: seq<Pid>, answers: seq<Option<Id>>, answer: Option<Id>)
    requires |answers| < |order| && Answered(t, order, answers) && answer == AnswerAt(t, order, |answers|)
    ensures Answered(t, order, answers + [answer])
  {
  }

  lemma OneVisited(order: seq<Pid>, i: nat)
    requires i < |order| && NoRepeats(order)
    ensures order[i] in Elements(order[i..]) && Elements(order[i + 1..]) == Elements(order[i..]) - {order[i]}
  {
    assert order[i..] == [order[i]] + order[i + 1..];
  }

  lemma AnsweredIsComplete(t: Table, order: seq<Pid>, answers: seq<Option<Id>>, shares: Shares, rows: map<Id, Row>)
    requires Visits(t, order) && |answers| == |order| && Answered(t, order, answers)
    requires Accounts(t, {}, shares, rows) && Follows(order, answers, shares)
    ensures Complete(t, shares, t.stats.Keys) <==> AllAnswered(t, order)
  {
    if AllAnswered(t, order) {
      forall p, id: Id | p in t.stats.Keys && OwnedBy(t, p, id) ensures Attributed(shares, id, p) {
        assert p in Elements(order);
        var i: nat :| i < |order| && order[i] == p;
        var k: nat :| OwnedAt(t, p, k, id);
        AnswerIsOwner(t, order, answers, shares, rows, i, id);
      }
    }
    if Complete(t, shares, t.stats.Keys) {
      forall i | 0 <= i < |order| && Owned(t, order[i]) ensures AnswerAt(t, order, i).Some? {
        var k: nat, id: Id :| OwnedAt(t, order[i], k, id);
        assert order[i] in Elements(order) && OwnedBy(t, order[i], id);
        assert Attributed(shares, id, order[i]);
        assert answers[i] == Some(id);
      }
    }
  }

  lemma AnswerIsOwner(t: Table, order: seq<Pid>, answers: seq<Option<Id>>, shares: Shares, rows: map<Id, Row>,
                      i: nat, id: Id)
    requires |answers| == |order| && Accounts(t, {}, shares, rows) && Follows(order, answers, shares)
    requires i < |order| && answers[i].Some? && OwnedBy(t, order[i], id)
    ensures Attributed(shares, id, order[i])
  {
    var x := answers[i].value;
    assert Attributed(shares, x, order[i]);
    AccountsEntry(t, shares, rows, x);
    var j: nat :| OwnedAt(t, order[i], j, x);
    var k: nat :| OwnedAt(t, order[i], k, id);
    NearestIsUnique(t, order[i], j, x, k, id);
  }

  lemma OwnersHaveRows(t: Table, p: Pid, id: Id, ids: set<Id>)
    requires OwnedBy(t, p, id) && forall q :: q in t.roots ==> t.roots[q] in ids
    ensures id in ids
  {
    var k: nat :| OwnedAt(t, p, k, id);
    OwnerIsARoot(t, p, k, id);
  }

  lemma {:induction false} OwnerIsARoot(t: Table, p: Pid, k: nat, id: Id)
    requires OwnedAt(t, p, k, id)
    ensures exists q :: q in t.roots && t.roots[q] == id
    decreases k
  {
    if k > 0 {
      OwnerIsARoot(t, t.stats[p].ppid, k - 1, id);
    }
  }

  // ---- Conservation ----------------------------------------------------------------

  function ShareSize(shares: Shares): Id -> nat {
    id => if id in shares then |shares[id]| else 0
  }

  /** `ids` split `all` among them. */
  ghost predicate Splits(shares: Shares, ids: set<Id>, all: set<Pid>) {
    && ids <= shares.Keys
    && (forall id, p :: id in ids && p in shares[id] ==> p in all)
    && (forall p :: p in all ==> exists id :: id in ids && p in shares[id])
    && (forall i, j :: i in ids && j in ids && i != j ==> shares[i] !! shares[j])
  }

  lemma {:induction false} SplitsSum(shares: Shares, ids: set<Id>, all: set<Pid>)
    requires Splits(shares, ids, all)
    ensures Sum(ShareSize(shares), ids) == |all|
    decreases |ids|
  {
    if ids == {} {
      assert all == {};
    } else {
      var x :| x in ids;
      SumWithout(ShareSize(shares), ids, x);
      SplitsWithout(shares, ids, all, x);
      SplitsSum(shares, ids - {x}, all - shares[x]);
    }
  }

  lemma SplitsWithout(shares: Shares, ids: set<Id>, all: set<Pid>, x: Id)
    requires Splits(shares, ids, all) && x in ids
    ensures Splits(shares, ids - {x}, all - shares[x]) && |all| == |shares[x]| + |all - shares[x]|
  {
    assert all == shares[x] + (all - shares[x]);
  }

  lemma {:induction false} BoundedPids(s: set<Pid>, n: nat)
    requires forall p :: p in s ==> 1 <= p <= n
    ensures |s| <= n
    decreases n
  {
    if n == 0 {
      assert s == {};
    } else {
      BoundedPids(s - {n}, n - 1);
      assert s <= s - {n} + {n};
    }
  }

  function Processes(rows: map<Id, Row>): Id -> nat {
    id => if id in rows then rows[id].processes else 0
  }

  /**
   Row counts sum to the number of owned processes: pids are positive 32-bit
   numbers, so no counter saturates.
   */
  lemma CountsSumToOwned(t: Table, shares: Shares, rows: map<Id, Row>)
    requires forall p :: p in t.stats ==> 1 <= p <= U32_MAX
    requires Complete(t, shares, t.stats.Keys) && Accounts(t, {}, shares, rows)
    ensures Sum(Processes(rows), rows.Keys) == |OwnedProcesses(t)|
  {
    NothingSaturates(t, shares, rows);
    SharesSplit(t, shares, rows);
    SplitsSum(shares, shares.Keys, OwnedProcesses(t));
  }

  lemma NothingSaturates(t: Table, shares: Shares, rows: map<Id, Row>)
    requires forall p :: p in t.stats ==> 1 <= p <= U32_MAX
    requires Accounts(t, {}, shares, rows)
    ensures Sum(Processes(rows), rows.Keys) == Sum(ShareSize(shares), shares.Keys)
  {
    forall id | id in rows ensures Processes(rows)(id) == ShareSize(shares)(id) {
      AccountsEntry(t, shares, rows, id);
      BoundedPids(shares[id], U32_MAX);
    }
    SumSame(Processes(rows), ShareSize(shares), rows.Keys);
  }

  lemma AccountsEntry(t: Table, shares: Shares, rows: map<Id, Row>, id: Id)
    requires Accounts(t, {}, shares, rows) && id in rows
    ensures id in shares && Entry(t, {}, id, shares[id], rows[id])
  {
    assert EntryOf(t, {})(id, shares[id], rows[id]);
  }

  ghost function OwnedProcesses(t: Table): set<Pid> {
    set p | p in t.stats && Owned(t, p)
  }

  lemma SharesDisjoint(t: Table, x: set<Pid>, i: Id, y: set<Pid>, j: Id)
    requires Rightful(t, i, x) && Rightful(t, j, y) && i != j
    ensures x !! y
  {
    forall p | p in x && p in y ensures false {
      var k: nat :| OwnedAt(t, p, k, i);
      var l: nat :| OwnedAt(t, p, l, j);
      NearestIsUnique(t, p, k, i, l, j);
    }
  }

  /** No process is in two rows, and none that has an owner is in no row. */
  lemma SharesSplit(t: Table, shares: Shares, rows: map<Id, Row>)
    requires Accounts(t, {}, shares, rows) && Complete(t, shares, t.stats.Keys)
    ensures Splits(shares, shares.Keys, OwnedProcesses(t))
  {
    forall i, j | i in shares && j in shares && i != j ensures shares[i] !! shares[j] {
      AccountsEntry(t, shares, rows, i);
      AccountsEntry(t, shares, rows, j);
      SharesDisjoint(t, shares[i], i, shares[j], j);
    }
    forall p | p in OwnedProcesses(t) ensures exists id :: id in shares && p in shares[id] {
      var k: nat, id: Id :| OwnedAt(t, p, k, id);
      assert OwnedBy(t, p, id);
      assert Attributed(shares, id, p);
    }
    forall id, p | id in shares && p in shares[id] ensures p in OwnedProcesses(t) {
      AccountsEntry(t, shares, rows, id);
      var k: nat :| OwnedAt(t, p, k, id);
    }
  }
}
