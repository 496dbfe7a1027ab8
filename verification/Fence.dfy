/**
 The pre-PID fence: a worker that is starting up (`run_worker`) against any number
 of `forget_session` calls. The worker lock file lives in the runtime directory
 that forgetting deletes, so it can be unlinked and come back as another inode.

 Every step below is one file-system or lock operation, and a run is any
 sequence of steps of any of the processes.
 */
module Fence {
  import opened Basics

  type Pid = nat
  type Inode = nat

  /** The durable record: whether its phase is active, and the registered worker. */
  datatype Record = Record(active: bool, pid: Option<Pid>)

  datatype Holder = ByWorker(pid: Pid) | ByForgetter(id: nat)

  /**
   Where a worker stands. `Refusing`: the record was gone, so it takes the runtime
   directory back out. `FailWriting` and `Cleaning`: bring-up failed, so it writes a
   failed record and then removes the runtime directory.
   */
  datatype Worker = Spawned | DirMade | LockDirMade
    | Opened(fd: Inode) | Locked(fd: Inode) | Trusted(fd: Inode) | HasRecord(fd: Inode, record: Record)
    | Serving(fd: Inode) | Exiting(fd: Inode)
    | Refusing(fd: Inode) | FailWriting(fd: Inode, pid: Option<Pid>) | Cleaning(fd: Inode)
    | Gone

  datatype Forgetter = Waiting | Registered | Reread(record: Record)
    | Fencing | FenceOpened(fd: Inode) | Fenced(fence: Option<Inode>)
    | RecordGone(fence: Option<Inode>) | LockUnlinked(fence: Option<Inode>) | Finished

  datatype State = State(
    record: Option<Record>, dir: bool, lock: Option<Inode>, nextInode: Inode,
    held: map<Inode, Holder>, registry: Option<nat>,
    workers: map<Pid, Worker>, forgetters: map<nat, Forgetter>)

  /** The next operation of a process, a failure inside bring-up, a normal exit, a crash or a refusal. */
  datatype Action = WorkerSteps(pid: Pid) | BringUpFails(pid: Pid) | WorkerExits(pid: Pid) | WorkerDies(pid: Pid)
    | ForgetSteps(id: nat) | ForgetStops(id: nat)

  // ---- The steps -----------------------------------------------------------

  function Release(held: map<Inode, Holder>, who: Holder): map<Inode, Holder> {
    map fd | fd in held && held[fd] != who :: held[fd]
  }

  function SetWorker(s: State, p: Pid, w: Worker): State {
    s.(workers := s.workers[p := w])
  }

  function WorkerGone(s: State, p: Pid): State {
    SetWorker(s, p, Gone).(held := Release(s.held, ByWorker(p)))
  }

  function SetForgetter(s: State, f: nat, x: Forgetter): State {
    s.(forgetters := s.forgetters[f := x])
  }

  function ForgetterDone(s: State, f: nat): State {
    SetForgetter(s, f, Finished).(
      held := Release(s.held, ByForgetter(f)),
      registry := if s.registry == Some(f) then None else s.registry)
  }

  /** The inode an `open` with create would return. */
  function LockInode(s: State): Inode {
    if s.lock.Some? then s.lock.value else s.nextInode
  }

  function WithLockFile(s: State): State {
    if s.lock.Some? then s else s.(lock := Some(s.nextInode), nextInode := s.nextInode + 1)
  }

  function Unlinked(s: State): State {
    s.(lock := None)
  }

  function DirRemoved(s: State): State {
    if s.lock.None? then s.(dir := false) else s
  }

  /** `run_worker` up to serving, with its refusal and clean-up paths. */
  function WorkerStep(s: State, p: Pid): State
    requires p in s.workers
  {
    match s.workers[p]
    case Spawned => SetWorker(s.(dir := true), p, DirMade)
    case DirMade => SetWorker(s.(dir := true), p, LockDirMade)
    case LockDirMade =>
      if s.dir then SetWorker(WithLockFile(s), p, Opened(LockInode(s))) else WorkerGone(s, p)
    case Opened(fd) =>
      if fd in s.held then WorkerGone(s, p)
      else SetWorker(s.(held := s.held[fd := ByWorker(p)]), p, Locked(fd))
    case Locked(fd) => if s.lock.Some? then SetWorker(s, p, Trusted(fd)) else WorkerGone(s, p)
    case Trusted(fd) =>
      if s.record.Some? then SetWorker(s, p, HasRecord(fd, s.record.value)) else SetWorker(s, p, Refusing(fd))
    case HasRecord(fd, r) =>
      // The registration replaces the record and never creates it.
      if s.record.Some? then SetWorker(s.(record := Some(Record(r.active, Some(p)))), p, Serving(fd))
      else SetWorker(s, p, Refusing(fd))
    case Serving(fd) =>
      // The control loop looks for the record and stops without it.
      if s.record.Some? then s else SetWorker(s, p, Exiting(fd))
    case FailWriting(fd, pid) => SetWorker(s.(record := Some(Record(false, pid))), p, Cleaning(fd))
    case Refusing(fd) => if s.lock.Some? then Unlinked(s) else WorkerGone(DirRemoved(s), p)
    case Cleaning(fd) => if s.lock.Some? then Unlinked(s) else WorkerGone(DirRemoved(s), p)
    case _ => s
  }

  /** `StartupGuard::cleanup`: a record that vanished stays deleted; otherwise a failed one is written. */
  function BringUpFailure(s: State, p: Pid): State
    requires p in s.workers
  {
    match s.workers[p]
    case HasRecord(fd, r) => SetWorker(s, p, if s.record.Some? then FailWriting(fd, r.pid) else Refusing(fd))
    case Serving(fd) => SetWorker(s, p, if s.record.Some? then FailWriting(fd, Some(p)) else Refusing(fd))
    case _ => s
  }

  function WorkerExit(s: State, p: Pid): State
    requires p in s.workers
  {
    match s.workers[p]
    case Serving(fd) =>
      SetWorker(s.(record := if s.record.Some? then Some(Record(false, Some(p))) else None), p, Exiting(fd))
    case _ => s
  }

  predicate Alive(s: State, p: Pid) {
    p in s.workers && !s.workers[p].Gone?
  }

  /** `forget_session` from the registry lock on. */
  function ForgetStep(s: State, f: nat): State
    requires f in s.forgetters
  {
    match s.forgetters[f]
    case Waiting =>
      if s.registry.None? then SetForgetter(s.(registry := Some(f)), f, Registered) else s
    case Registered =>
      if s.record.Some? then SetForgetter(s, f, Reread(s.record.value)) else ForgetterDone(s, f)
    case Reread(r) =>
      if r.pid.Some? && Alive(s, r.pid.value) then ForgetterDone(s, f)
      else if !r.active || r.pid.Some? then SetForgetter(s, f, Fenced(None))
      else SetForgetter(s.(dir := true), f, Fencing)
    case Fencing =>
      if s.dir then SetForgetter(WithLockFile(s), f, FenceOpened(LockInode(s))) else ForgetterDone(s, f)
    case FenceOpened(fd) =>
      if fd in s.held then ForgetterDone(s, f)
      else SetForgetter(s.(held := s.held[fd := ByForgetter(f)]), f, Fenced(Some(fd)))
    case Fenced(fence) => SetForgetter(s.(record := None), f, RecordGone(fence))
    case RecordGone(fence) => SetForgetter(Unlinked(s), f, LockUnlinked(fence))
    case LockUnlinked(fence) => ForgetterDone(DirRemoved(s), f)
    case Finished => s
  }

  function Do(s: State, a: Action): State {
    match a
    case WorkerSteps(p) => if p in s.workers then WorkerStep(s, p) else s
    case BringUpFails(p) => if p in s.workers then BringUpFailure(s, p) else s
    case WorkerExits(p) => if p in s.workers then WorkerExit(s, p) else s
    case WorkerDies(p) => if p in s.workers then WorkerGone(s, p) else s
    case ForgetSteps(f) => if f in s.forgetters then ForgetStep(s, f) else s
    case ForgetStops(f) => if f in s.forgetters then ForgetterDone(s, f) else s
  }

  function Run(s: State, actions: seq<Action>): State
    decreases |actions|
  {
    if actions == [] then s else Do(Run(s, actions[..|actions| - 1]), actions[|actions| - 1])
  }

  /** A fresh active record without a pid, its workers just spawned, every forgetter yet to begin. */
  predicate Initial(s: State) {
    && s.record == Some(Record(true, None)) && s.held == map[] && s.registry.None?
    && (s.lock.Some? ==> s.dir && s.lock.value < s.nextInode)
    && (forall p :: p in s.workers ==> s.workers[p] == Spawned)
    && (forall f :: f in s.forgetters ==> s.forgetters[f] == Waiting)
  }

  /** No worker serves a session whose record was forgotten. */
  predicate Safe(s: State) {
    forall p :: p in s.workers && s.workers[p].Serving? ==> s.record.Some?
  }

  // ---- The invariant for one worker ---------------------------------------

  function WorkerFd(w: Worker): Option<Inode> {
    match w
    case Opened(fd) => Some(fd)
    case Locked(fd) => Some(fd)
    case Trusted(fd) => Some(fd)
    case HasRecord(fd, _) => Some(fd)
    case Serving(fd) => Some(fd)
    case Exiting(fd) => Some(fd)
    case Refusing(fd) => Some(fd)
    case FailWriting(fd, _) => Some(fd)
    case Cleaning(fd) => Some(fd)
    case _ => None
  }

  predicate HoldsLock(w: Worker) {
    WorkerFd(w).Some? && !w.Opened?
  }

  function ForgetterFd(x: Forgetter): Option<Inode> {
    match x
    case FenceOpened(fd) => Some(fd)
    case Fenced(fence) => fence
    case RecordGone(fence) => fence
    case LockUnlinked(fence) => fence
    case _ => None
  }

  /** The worker is past the point where it could serve. */
  predicate Finishing(w: Worker) {
    w.Cleaning? || w.Gone?
  }

  /** While the record exists and the worker may yet serve, all contenders share the one lock inode. */
  ghost predicate OneLock(s: State, w: Worker) {
    s.record.Some? && !Finishing(w) ==>
      && (WorkerFd(w).Some? ==> s.lock == WorkerFd(w))
      && (forall f :: f in s.forgetters && ForgetterFd(s.forgetters[f]).Some? ==>
            s.lock == ForgetterFd(s.forgetters[f]))
  }

  /** What a record, current or re-read, says about the only worker. */
  predicate RecordTells(r: Record, p: Pid, w: Worker) {
    && (r.pid.Some? ==> r.pid.value == p)
    && (!r.active && r.pid.None? ==> Finishing(w))
  }

  ghost predicate ForgetterOk(s: State, f: nat, x: Forgetter, p: Pid, w: Worker) {
    && (!x.Waiting? && !x.Finished? ==> s.registry == Some(f))
    && (x.Reread? ==> RecordTells(x.record, p, w))
    && (!x.FenceOpened? && ForgetterFd(x).Some? ==>
          ForgetterFd(x).value in s.held && s.held[ForgetterFd(x).value] == ByForgetter(f))
    && (x == Fenced(None) ==> Finishing(w))
    && (x.RecordGone? || x.LockUnlinked? ==> s.record.None? || Finishing(w))
  }

  /** The worker's own clauses. */
  ghost predicate WorkerOk(s: State, p: Pid, w: Worker) {
    && (HoldsLock(w) ==> WorkerFd(w).value in s.held && s.held[WorkerFd(w).value] == ByWorker(p))
    && (w.HasRecord? || w.Serving? || w.FailWriting? ==> s.record.Some?)
    && (w.HasRecord? ==> RecordTells(w.record, p, w))
    && (w.FailWriting? && w.pid.Some? ==> w.pid.value == p)
    && (w.Refusing? ==> s.record.None?)
    && (s.record.Some? ==> RecordTells(s.record.value, p, w))
  }

  ghost predicate ForgettersOk(s: State, p: Pid, w: Worker) {
    forall f :: f in s.forgetters ==> ForgetterOk(s, f, s.forgetters[f], p, w)
  }

  ghost predicate Inv(s: State, p: Pid) {
    && s.workers.Keys == {p} && p in s.workers
    && WorkerOk(s, p, s.workers[p]) && OneLock(s, s.workers[p]) && ForgettersOk(s, p, s.workers[p])
  }

  lemma InitialInv(s: State, p: Pid)
    requires Initial(s) && s.workers.Keys == {p}
    ensures Inv(s, p)
  {
    assert p in s.workers;
  }

  /** A step of the worker leaves the forgetters' clauses alone. */
  lemma ForgettersKept(s: State, s': State, p: Pid, w: Worker, w': Worker)
    requires ForgettersOk(s, p, w) && s'.forgetters == s.forgetters && s'.registry == s.registry
    requires forall fd :: fd in s.held && s.held[fd].ByForgetter? ==> fd in s'.held && s'.held[fd] == s.held[fd]
    requires Finishing(w) ==> Finishing(w')
    requires s.record.None? ==> s'.record.None?
    ensures ForgettersOk(s', p, w')
  {
  }

  lemma WorkerOpens(s: State, p: Pid)
    requires Inv(s, p) && (s.workers[p].Spawned? || s.workers[p].DirMade? || s.workers[p].LockDirMade?)
    ensures Inv(WorkerStep(s, p), p)
  {
    var s' := WorkerStep(s, p);
    ForgettersKept(s, s', p, s.workers[p], s'.workers[p]);
  }

  lemma WorkerLocks(s: State, p: Pid)
    requires Inv(s, p) && (s.workers[p].Opened? || s.workers[p].Locked?)
    ensures Inv(WorkerStep(s, p), p)
  {
    var s' := WorkerStep(s, p);
    ForgettersKept(s, s', p, s.workers[p], s'.workers[p]);
  }

  lemma WorkerReads(s: State, p: Pid)
    requires Inv(s, p) && (s.workers[p].Trusted? || s.workers[p].HasRecord?)
    ensures Inv(WorkerStep(s, p), p)
  {
    var s' := WorkerStep(s, p);
    ForgettersKept(s, s', p, s.workers[p], s'.workers[p]);
  }

  lemma WorkerCleans(s: State, p: Pid)
    requires Inv(s, p) && (s.workers[p].FailWriting? || s.workers[p].Refusing? || s.workers[p].Cleaning?)
    ensures Inv(WorkerStep(s, p), p)
  {
    var s' := WorkerStep(s, p);
    ForgettersKept(s, s', p, s.workers[p], s'.workers[p]);
  }

  lemma WorkerStepInv(s: State, p: Pid)
    requires Inv(s, p)
    ensures Inv(WorkerStep(s, p), p)
  {
    match s.workers[p]
    case Spawned => WorkerOpens(s, p);
    case DirMade => WorkerOpens(s, p);
    case LockDirMade => WorkerOpens(s, p);
    case Opened(_) => WorkerLocks(s, p);
    case Locked(_) => WorkerLocks(s, p);
    case Trusted(_) => WorkerReads(s, p);
    case HasRecord(_, _) => WorkerReads(s, p);
    case FailWriting(_, _) => WorkerCleans(s, p);
    case Refusing(_) => WorkerCleans(s, p);
    case Cleaning(_) => WorkerCleans(s, p);
    case _ =>
  }

  lemma BringUpFailureInv(s: State, p: Pid)
    requires Inv(s, p)
    ensures Inv(BringUpFailure(s, p), p)
  {
    ForgettersKept(s, BringUpFailure(s, p), p, s.workers[p], BringUpFailure(s, p).workers[p]);
  }

  lemma WorkerExitInv(s: State, p: Pid)
    requires Inv(s, p)
    ensures Inv(WorkerExit(s, p), p)
  {
    ForgettersKept(s, WorkerExit(s, p), p, s.workers[p], WorkerExit(s, p).workers[p]);
  }

  lemma WorkerGoneInv(s: State, p: Pid)
    requires Inv(s, p)
    ensures Inv(WorkerGone(s, p), p)
  {
    ForgettersKept(s, WorkerGone(s, p), p, s.workers[p], Gone);
  }

  /** A step of one forgetter that keeps the others' locks, the registry and the record. */
  lemma OthersKept(s: State, s': State, p: Pid, w: Worker, f: nat)
    requires ForgettersOk(s, p, w) && f in s'.forgetters
    requires s'.forgetters == s.forgetters[f := s'.forgetters[f]]
    requires ForgetterOk(s', f, s'.forgetters[f], p, w)
    requires s'.registry == s.registry || s.registry.None? || (s.registry == Some(f) && s'.registry.None?)
    requires forall fd :: fd in s.held && s.held[fd] != ByForgetter(f) ==> fd in s'.held && s'.held[fd] == s.held[fd]
    requires s.record.None? ==> s'.record.None?
    ensures ForgettersOk(s', p, w)
  {
  }

  lemma ForgetDecides(s: State, p: Pid, f: nat)
    requires Inv(s, p) && f in s.forgetters
    requires s.forgetters[f].Waiting? || s.forgetters[f].Registered? || s.forgetters[f].Reread?
    ensures Inv(ForgetStep(s, f), p)
  {
    assert ForgetterOk(s, f, s.forgetters[f], p, s.workers[p]);
    OthersKept(s, ForgetStep(s, f), p, s.workers[p], f);
  }

  lemma ForgetLocks(s: State, p: Pid, f: nat)
    requires Inv(s, p) && f in s.forgetters && (s.forgetters[f].Fencing? || s.forgetters[f].FenceOpened?)
    ensures Inv(ForgetStep(s, f), p)
  {
    assert ForgetterOk(s, f, s.forgetters[f], p, s.workers[p]);
    OthersKept(s, ForgetStep(s, f), p, s.workers[p], f);
  }

  lemma ForgetDeletes(s: State, p: Pid, f: nat)
    requires Inv(s, p) && f in s.forgetters && s.forgetters[f].Fenced?
    ensures Inv(ForgetStep(s, f), p)
  {
    assert ForgetterOk(s, f, s.forgetters[f], p, s.workers[p]);
    OthersKept(s, ForgetStep(s, f), p, s.workers[p], f);
  }

  lemma ForgetRemoves(s: State, p: Pid, f: nat)
    requires Inv(s, p) && f in s.forgetters && (s.forgetters[f].RecordGone? || s.forgetters[f].LockUnlinked?)
    ensures Inv(ForgetStep(s, f), p)
  {
    assert ForgetterOk(s, f, s.forgetters[f], p, s.workers[p]);
    OthersKept(s, ForgetStep(s, f), p, s.workers[p], f);
  }

  lemma ForgetStepInv(s: State, p: Pid, f: nat)
    requires Inv(s, p) && f in s.forgetters
    ensures Inv(ForgetStep(s, f), p)
  {
    match s.forgetters[f]
    case Waiting => ForgetDecides(s, p, f);
    case Registered => ForgetDecides(s, p, f);
    case Reread(_) => ForgetDecides(s, p, f);
    case Fencing => ForgetLocks(s, p, f);
    case FenceOpened(_) => ForgetLocks(s, p, f);
    case Fenced(_) => ForgetDeletes(s, p, f);
    case RecordGone(_) => ForgetRemoves(s, p, f);
    case LockUnlinked(_) => ForgetRemoves(s, p, f);
    case Finished =>
  }

  lemma ForgetDoneInv(s: State, p: Pid, f: nat)
    requires Inv(s, p) && f in s.forgetters
    ensures Inv(ForgetterDone(s, f), p)
  {
    OthersKept(s, ForgetterDone(s, f), p, s.workers[p], f);
  }

  lemma DoInv(s: State, p: Pid, a: Action)
    requires Inv(s, p)
    ensures Inv(Do(s, a), p)
  {
    match a
    case WorkerSteps(q) => WorkerStepInv(s, p);
    case BringUpFails(q) => BringUpFailureInv(s, p);
    case WorkerExits(q) => WorkerExitInv(s, p);
    case WorkerDies(q) => WorkerGoneInv(s, p);
    case ForgetSteps(f) => if f in s.forgetters { ForgetStepInv(s, p, f); }
    case ForgetStops(f) => if f in s.forgetters { ForgetDoneInv(s, p, f); }
  }

  lemma {:induction false} RunInv(s: State, p: Pid, actions: seq<Action>)
    requires Initial(s) && s.workers.Keys == {p}
    ensures Inv(Run(s, actions), p)
    decreases |actions|
  {
    if actions == [] {
      InitialInv(s, p);
    } else {
      RunInv(s, p, actions[..|actions| - 1]);
      DoInv(Run(s, actions[..|actions| - 1]), p, actions[|actions| - 1]);
    }
  }

  /** Fence safety: with one worker per record, no interleaving lets it serve a forgotten session. */
  lemma NoForgottenSessionIsServed(s: State, p: Pid, actions: seq<Action>)
    requires Initial(s) && s.workers.Keys == {p}
    ensures Safe(Run(s, actions))
    ensures p in Run(s, actions).workers && OneLock(Run(s, actions), Run(s, actions).workers[p])
  {
    RunInv(s, p, actions);
  }

  // ---- What holds with any number of workers --------------------------------

  /** Nobody is about to write the record of a failed bring-up. */
  predicate NobodyFails(s: State) {
    forall p :: p in s.workers ==> !s.workers[p].FailWriting?
  }

  lemma StaysForgotten(s: State, a: Action)
    requires s.record.None? && NobodyFails(s)
    ensures Do(s, a).record.None? && NobodyFails(Do(s, a))
  {
    match a
    case WorkerSteps(p) => if p in s.workers { WorkerLeavesForgotten(s, p); }
    case _ =>
  }

  lemma WorkerLeavesForgotten(s: State, p: Pid)
    requires p in s.workers && s.record.None? && NobodyFails(s)
    ensures WorkerStep(s, p).record.None? && NobodyFails(WorkerStep(s, p))
  {
    assert !s.workers[p].FailWriting?;
  }

  /** Two maps agree but for one key that both have. */
  ghost predicate OnlyAt<T(!new)>(a: map<nat, T>, b: map<nat, T>, k: nat) {
    k in a && k in b && forall i :: i != k ==> (i in a <==> i in b) && (i in a ==> a[i] == b[i])
  }

  /** No process brings a forgotten record back, except a failed worker that found it before it was forgotten. */
  lemma {:induction false} ForgottenStaysForgotten(s: State, actions: seq<Action>)
    requires s.record.None? && NobodyFails(s)
    ensures Run(s, actions).record.None? && NobodyFails(Run(s, actions))
    decreases |actions|
  {
    if actions != [] {
      ForgottenStaysForgotten(s, actions[..|actions| - 1]);
      StaysForgotten(Run(s, actions[..|actions| - 1]), actions[|actions| - 1]);
    }
  }

  /** With one worker there is no such exception: in every run, what was forgotten at some point stays so. */
  lemma ForgottenForGood(s: State, p: Pid, first: seq<Action>, more: seq<Action>)
    requires Initial(s) && s.workers.Keys == {p} && Run(s, first).record.None?
    ensures Run(s, first + more).record.None?
  {
    RunInv(s, p, first);
    RunJoins(s, first, more);
    ForgottenStaysForgotten(Run(s, first), more);
  }

  /** The lock file is inside the directory, and every inode in use was given out before. */
  ghost predicate Housed(s: State) {
    && (s.lock.Some? ==> s.dir && s.lock.value < s.nextInode)
    && (forall fd :: fd in s.held ==> fd < s.nextInode)
    && (forall p :: p in s.workers && WorkerFd(s.workers[p]).Some? ==> WorkerFd(s.workers[p]).value < s.nextInode)
    && (forall f :: f in s.forgetters && ForgetterFd(s.forgetters[f]).Some? ==>
          ForgetterFd(s.forgetters[f]).value < s.nextInode)
  }

  /** The lock file is in its place and the locks in use were given out before. */
  ghost predicate LocksGiven(s: State, t: State, fd: Option<Inode>) {
    && s.nextInode <= t.nextInode && (t.lock.Some? ==> t.dir && t.lock.value < t.nextInode)
    && (forall i :: i in t.held ==> i < t.nextInode) && (fd.Some? ==> fd.value < t.nextInode)
  }

  lemma WorkerMoveHoused(s: State, t: State, p: Pid)
    requires Housed(s) && OnlyAt(s.workers, t.workers, p) && t.forgetters == s.forgetters
    requires LocksGiven(s, t, WorkerFd(t.workers[p]))
    ensures Housed(t)
  {
  }

  lemma WorkerOpensHoused(s: State, p: Pid)
    requires Housed(s) && p in s.workers
    requires s.workers[p].Spawned? || s.workers[p].DirMade? || s.workers[p].LockDirMade?
    ensures Housed(WorkerStep(s, p))
  {
    WorkerMoveHoused(s, WorkerStep(s, p), p);
  }

  lemma WorkerLocksHoused(s: State, p: Pid)
    requires Housed(s) && p in s.workers && (s.workers[p].Opened? || s.workers[p].Locked?)
    ensures Housed(WorkerStep(s, p))
  {
    WorkerMoveHoused(s, WorkerStep(s, p), p);
  }

  lemma WorkerReadsHoused(s: State, p: Pid)
    requires Housed(s) && p in s.workers && (s.workers[p].Trusted? || s.workers[p].HasRecord? || s.workers[p].Serving?)
    ensures Housed(WorkerStep(s, p))
  {
    WorkerMoveHoused(s, WorkerStep(s, p), p);
  }

  lemma WorkerCleansHoused(s: State, p: Pid)
    requires Housed(s) && p in s.workers
    requires s.workers[p].FailWriting? || s.workers[p].Refusing? || s.workers[p].Cleaning?
    ensures Housed(WorkerStep(s, p))
  {
    WorkerMoveHoused(s, WorkerStep(s, p), p);
  }

  lemma WorkerStepHoused(s: State, p: Pid)
    requires Housed(s) && p in s.workers
    ensures Housed(WorkerStep(s, p))
  {
    match s.workers[p]
    case Spawned => WorkerOpensHoused(s, p);
    case DirMade => WorkerOpensHoused(s, p);
    case LockDirMade => WorkerOpensHoused(s, p);
    case Opened(_) => WorkerLocksHoused(s, p);
    case Locked(_) => WorkerLocksHoused(s, p);
    case Trusted(_) => WorkerReadsHoused(s, p);
    case HasRecord(_, _) => WorkerReadsHoused(s, p);
    case Serving(_) => WorkerReadsHoused(s, p);
    case FailWriting(_, _) => WorkerCleansHoused(s, p);
    case Refusing(_) => WorkerCleansHoused(s, p);
    case Cleaning(_) => WorkerCleansHoused(s, p);
    case _ =>
  }

  lemma ForgetterMoveHoused(s: State, t: State, f: nat)
    requires Housed(s) && OnlyAt(s.forgetters, t.forgetters, f) && t.workers == s.workers
    requires LocksGiven(s, t, ForgetterFd(t.forgetters[f]))
    ensures Housed(t)
  {
  }

  lemma ForgetterWaitsHoused(s: State, f: nat)
    requires Housed(s) && f in s.forgetters && (s.forgetters[f].Waiting? || s.forgetters[f].Registered?)
    ensures Housed(ForgetStep(s, f))
  {
    ForgetterMoveHoused(s, ForgetStep(s, f), f);
  }

  lemma ForgetDecidesHoused(s: State, f: nat)
    requires Housed(s) && f in s.forgetters && s.forgetters[f].Reread?
    ensures Housed(ForgetStep(s, f))
  {
    ForgetterMoveHoused(s, ForgetStep(s, f), f);
  }

  lemma ForgetLocksHoused(s: State, f: nat)
    requires Housed(s) && f in s.forgetters
    requires s.forgetters[f].Fencing? || s.forgetters[f].FenceOpened?
    ensures Housed(ForgetStep(s, f))
  {
    ForgetterMoveHoused(s, ForgetStep(s, f), f);
  }

  lemma ForgetRemovesHoused(s: State, f: nat)
    requires Housed(s) && f in s.forgetters
    requires s.forgetters[f].Fenced? || s.forgetters[f].RecordGone? || s.forgetters[f].LockUnlinked?
    ensures Housed(ForgetStep(s, f))
  {
    ForgetterMoveHoused(s, ForgetStep(s, f), f);
  }

  lemma ForgetStepHoused(s: State, f: nat)
    requires Housed(s) && f in s.forgetters
    ensures Housed(ForgetStep(s, f))
  {
    match s.forgetters[f]
    case Waiting => ForgetterWaitsHoused(s, f);
    case Registered => ForgetterWaitsHoused(s, f);
    case Reread(_) => ForgetDecidesHoused(s, f);
    case Fencing => ForgetLocksHoused(s, f);
    case FenceOpened(_) => ForgetLocksHoused(s, f);
    case Fenced(_) => ForgetRemovesHoused(s, f);
    case RecordGone(_) => ForgetRemovesHoused(s, f);
    case LockUnlinked(_) => ForgetRemovesHoused(s, f);
    case Finished =>
  }

  lemma DoHoused(s: State, a: Action)
    requires Housed(s)
    ensures Housed(Do(s, a))
  {
    match a
    case WorkerSteps(p) => if p in s.workers { WorkerStepHoused(s, p); }
    case ForgetSteps(f) => if f in s.forgetters { ForgetStepHoused(s, f); }
    case _ =>
  }

  lemma {:induction false} RunHoused(s: State, actions: seq<Action>)
    requires Housed(s)
    ensures Housed(Run(s, actions))
    decreases |actions|
  {
    if actions != [] {
      RunHoused(s, actions[..|actions| - 1]);
      DoHoused(Run(s, actions[..|actions| - 1]), actions[|actions| - 1]);
    }
  }

  /** In every run a lock file that comes back is another file than any that somebody still has open or locked. */
  lemma ReturningLockIsAnother(s: State, actions: seq<Action>, p: Pid, f: nat)
    requires Initial(s)
    ensures var t := Run(s, actions);
            && (t.lock.Some? ==> t.dir)
            && (t.lock.None? ==>
                  && LockInode(t) !in t.held
                  && (p in t.workers ==> WorkerFd(t.workers[p]) != Some(LockInode(t)))
                  && (f in t.forgetters ==> ForgetterFd(t.forgetters[f]) != Some(LockInode(t))))
  {
    RunHoused(s, actions);
  }

  // ---- Why one worker per record is needed ---------------------------------

  /** One action taken `n` times in a row. */
  function Again(s: State, a: Action, n: nat): State {
    if n == 0 then s else Do(Again(s, a, n - 1), a)
  }

  function Times(a: Action, n: nat): seq<Action> {
    if n == 0 then [] else Times(a, n - 1) + [a]
  }

  lemma {:induction false} RunTimes(s: State, a: Action, n: nat)
    ensures Run(s, Times(a, n)) == Again(s, a, n)
    decreases n
  {
    if n > 0 {
      RunTimes(s, a, n - 1);
      assert Times(a, n)[..|Times(a, n)| - 1] == Times(a, n - 1);
    }
  }

  lemma {:induction false} RunJoins(s: State, x: seq<Action>, y: seq<Action>)
    ensures Run(s, x + y) == Run(Run(s, x), y)
    decreases |y|
  {
    if y == [] {
      assert x + y == x;
    } else {
      RunJoins(s, x, y[..|y| - 1]);
      assert (x + y)[..|x + y| - 1] == x + y[..|y| - 1];
    }
  }

  /** What a spawned worker reaches undisturbed. */
  function Served(t: State, p: Pid): State
    requires p in t.workers && t.record.Some?
  {
    t.(dir := true, lock := Some(LockInode(t)), nextInode := WithLockFile(t).nextInode,
       held := t.held[LockInode(t) := ByWorker(p)],
       record := Some(Record(t.record.value.active, Some(p))),
       workers := t.workers[p := Serving(LockInode(t))])
  }

  /** Seven uninterrupted steps bring a spawned worker up when nobody holds the lock. */
  lemma WorkerComesUp(t: State, p: Pid)
    requires p in t.workers && t.workers[p].Spawned? && t.record.Some? && LockInode(t) !in t.held
    ensures Again(t, WorkerSteps(p), 7) == Served(t, p)
  {
    var a := WorkerSteps(p);
    WorkerLocksAlone(t, p);
    var t4 := Again(t, a, 4);
    assert Again(t, a, 5) == t4.(workers := t4.workers[p := Trusted(LockInode(t))]);
    assert Again(t, a, 6) == t4.(workers := t4.workers[p := HasRecord(LockInode(t), t.record.value)]);
  }

  /** The first four: both directories, the lock file, the lock. */
  lemma WorkerLocksAlone(t: State, p: Pid)
    requires p in t.workers && t.workers[p].Spawned? && t.record.Some? && LockInode(t) !in t.held
    ensures Again(t, WorkerSteps(p), 4)
            == t.(dir := true, lock := Some(LockInode(t)), nextInode := WithLockFile(t).nextInode,
                  held := t.held[LockInode(t) := ByWorker(p)], workers := t.workers[p := Locked(LockInode(t))])
  {
    var a := WorkerSteps(p);
    WorkerMakesDirs(t, p);
    var t2 := Again(t, a, 2);
    assert LockInode(t2) == LockInode(t) && WithLockFile(t2).nextInode == WithLockFile(t).nextInode;
    assert Again(t, a, 3) == t2.(lock := Some(LockInode(t)), nextInode := WithLockFile(t).nextInode,
                                 workers := t.workers[p := Opened(LockInode(t))]);
  }

  lemma WorkerMakesDirs(t: State, p: Pid)
    requires p in t.workers && t.workers[p].Spawned?
    ensures Again(t, WorkerSteps(p), 2) == t.(dir := true, workers := t.workers[p := LockDirMade])
  {
    var a := WorkerSteps(p);
    assert Again(t, a, 0) == t;
    assert Again(t, a, 1) == t.(dir := true, workers := t.workers[p := DirMade]);
  }

  /** A forgetter that re-reads a dead pid goes on without a fence. */
  lemma ForgetterSkipsFence(t: State, f: nat)
    requires f in t.forgetters && t.forgetters[f].Waiting? && t.registry.None?
    requires t.record.Some? && t.record.value.pid.Some? && !Alive(t, t.record.value.pid.value)
    ensures Again(t, ForgetSteps(f), 3) == t.(registry := Some(f), forgetters := t.forgetters[f := Fenced(None)])
  {
    var a := ForgetSteps(f);
    assert Again(t, a, 0) == t;
    assert Again(t, a, 1) == t.(registry := Some(f), forgetters := t.forgetters[f := Registered]);
    assert Again(t, a, 2) == t.(registry := Some(f), forgetters := t.forgetters[f := Reread(t.record.value)]);
  }

  /** The forgetter trusts the dead pid, the other worker comes up, the forgetter goes on. */
  function Defeat(f: nat, q: Pid): seq<Action> {
    Times(ForgetSteps(f), 3) + (Times(WorkerSteps(q), 7) + Times(ForgetSteps(f), 1))
  }

  /** The recorded worker is dead, another one is still starting, and the lock is free. */
  predicate Vulnerable(t: State, f: nat, q: Pid) {
    && f in t.forgetters && t.forgetters[f].Waiting? && t.registry.None?
    && t.record.Some? && t.record.value.pid.Some? && !Alive(t, t.record.value.pid.value)
    && q in t.workers && t.workers[q].Spawned? && LockInode(t) !in t.held
  }

  /** One worker per record is needed: from every such state this continuation serves a forgotten session. */
  lemma SecondWorkerDefeatsFence(s: State, first: seq<Action>, f: nat, q: Pid)
    requires Vulnerable(Run(s, first), f, q)
    ensures !Safe(Run(s, first + Defeat(f, q)))
  {
    RunThrice(s, first, ForgetSteps(f), 3, WorkerSteps(q), 7, ForgetSteps(f), 1);
    UnfencedEnd(Run(s, first), f, q);
  }

  lemma RunThrice(s: State, first: seq<Action>, a: Action, i: nat, b: Action, j: nat, c: Action, k: nat)
    ensures Run(s, first + (Times(a, i) + (Times(b, j) + Times(c, k))))
            == Again(Again(Again(Run(s, first), a, i), b, j), c, k)
  {
    RunJoins(s, first, Times(a, i) + (Times(b, j) + Times(c, k)));
    RunTwice(Run(s, first), a, i, Times(b, j) + Times(c, k));
    RunTwice(Again(Run(s, first), a, i), b, j, Times(c, k));
    RunTimes(Again(Again(Run(s, first), a, i), b, j), c, k);
  }

  lemma RunTwice(s: State, a: Action, i: nat, rest: seq<Action>)
    ensures Run(s, Times(a, i) + rest) == Run(Again(s, a, i), rest)
  {
    RunJoins(s, Times(a, i), rest);
    RunTimes(s, a, i);
  }

  lemma UnfencedEnd(t: State, f: nat, q: Pid)
    requires Vulnerable(t, f, q)
    ensures !Safe(Again(Again(Again(t, ForgetSteps(f), 3), WorkerSteps(q), 7), ForgetSteps(f), 1))
  {
    ForgetterSkipsFence(t, f);
    var u := Again(t, ForgetSteps(f), 3);
    WorkerComesUp(u, q);
    var v := Again(u, WorkerSteps(q), 7);
    assert Again(v, ForgetSteps(f), 0) == v;
    var end := Again(v, ForgetSteps(f), 1);
    assert end.record.None? && end.workers[q].Serving?;
  }

  /** Any two workers spawned on one fresh record reach that situation: the first serves and dies. */
  lemma TwoWorkersDefeatTheFence(s: State, p: Pid, q: Pid, f: nat)
    requires Initial(s) && p in s.workers && q in s.workers && p != q && f in s.forgetters
    ensures !Safe(Run(s, ServeAndDie(p) + Defeat(f, q)))
  {
    ServesAndDies(s, p);
    DeadServer(s, p, q, f);
    SecondWorkerDefeatsFence(s, ServeAndDie(p), f, q);
  }

  lemma DeadServer(s: State, p: Pid, q: Pid, f: nat)
    requires Initial(s) && p in s.workers && q in s.workers && p != q && f in s.forgetters
    ensures Vulnerable(WorkerGone(Served(s, p), p), f, q)
  {
  }

  /** A record that can be forgotten is safe in every run if and only if it has at most one worker. */
  lemma SafeExactlyWithOneWorker(s: State)
    requires Initial(s) && s.forgetters != map[]
    ensures (forall actions :: Safe(Run(s, actions))) <==> |s.workers| <= 1
  {
    if |s.workers| <= 1 {
      forall actions ensures Safe(Run(s, actions)) {
        AtMostOneWorkerIsSafe(s, actions);
      }
    } else {
      var p :| p in s.workers;
      var others := s.workers.Keys - {p};
      assert s.workers.Keys == others + {p};
      var q :| q in others;
      var f :| f in s.forgetters;
      TwoWorkersDefeatTheFence(s, p, q, f);
    }
  }

  /** The failure does not last: a serving worker stops at its own next step exactly if its session is forgotten. */
  lemma ForgottenWorkerStops(s: State, p: Pid)
    requires p in s.workers && s.workers[p].Serving?
    ensures Do(s, WorkerSteps(p))
            == if s.record.None? then s.(workers := s.workers[p := Exiting(s.workers[p].fd)]) else s
  {
  }

  lemma AtMostOneWorkerIsSafe(s: State, actions: seq<Action>)
    requires Initial(s) && |s.workers| <= 1
    ensures Safe(Run(s, actions))
  {
    if s.workers == map[] {
      NobodyServes(s, actions);
    } else {
      var p :| p in s.workers;
      OnlyKey(s.workers, p);
      NoForgottenSessionIsServed(s, p, actions);
    }
  }

  lemma OnlyKey(m: map<Pid, Worker>, p: Pid)
    requires p in m && |m| <= 1
    ensures m.Keys == {p}
  {
    assert m.Keys == {p} + (m.Keys - {p});
  }

  lemma {:induction false} NobodyServes(s: State, actions: seq<Action>)
    requires s.workers == map[]
    ensures Run(s, actions).workers == map[]
    decreases |actions|
  {
    if actions != [] {
      NobodyServes(s, actions[..|actions| - 1]);
    }
  }

  function ServeAndDie(p: Pid): seq<Action> {
    Times(WorkerSteps(p), 7) + Times(WorkerDies(p), 1)
  }

  lemma ServesAndDies(s: State, p: Pid)
    requires p in s.workers && s.workers[p].Spawned? && s.record.Some? && LockInode(s) !in s.held
    ensures Run(s, ServeAndDie(p)) == WorkerGone(Served(s, p), p)
  {
    RunThrice(s, [], WorkerSteps(p), 7, WorkerDies(p), 1, WorkerDies(p), 0);
    assert [] + (Times(WorkerSteps(p), 7) + (Times(WorkerDies(p), 1) + [])) == ServeAndDie(p);
    WorkerComesUp(s, p);
    assert Again(Served(s, p), WorkerDies(p), 0) == Served(s, p);
  }

  /** A single worker does get to serve: safety does not come from nobody serving. */
  lemma OneWorkerCanServe(s: State, p: Pid)
    requires Initial(s) && p in s.workers
    ensures Run(s, Times(WorkerSteps(p), 7)) == Served(s, p)
  {
    RunTimes(s, WorkerSteps(p), 7);
    WorkerComesUp(s, p);
  }

  // ---- What the processes get done when left alone --------------------------------------

  /** A forgetter may forget: no live worker is recorded, and a record yet without a pid has a free lock. */
  predicate MayForget(t: State, r: Record) {
    if r.pid.Some? then !Alive(t, r.pid.value) else !r.active || LockInode(t) !in t.held
  }

  /** What a forgetter leaves: no record, no lock file, no directory, and nothing of its own. */
  function Forgotten(t: State, f: nat, nextInode: Inode): State {
    t.(record := None, lock := None, dir := false, nextInode := nextInode, forgetters := t.forgetters[f := Finished])
  }

  /**
   Eight undisturbed steps finish a forgetter. It forgets the session if and only if that
   is allowed, and otherwise leaves the record as it was.
   */
  lemma ForgetsExactly(t: State, f: nat)
    requires f in t.forgetters && t.forgetters[f].Waiting? && t.registry.None? && t.record.Some?
    requires (forall fd :: fd in t.held ==> t.held[fd] != ByForgetter(f))
    ensures var end := Again(t, ForgetSteps(f), 8);
            && end.forgetters == t.forgetters[f := Finished] && end.registry.None? && end.workers == t.workers
            && end.held == t.held
            && (if MayForget(t, t.record.value) then end == Forgotten(t, f, end.nextInode)
                else end.record == t.record && (t.dir ==> end.dir))
  {
    ForgetterRereads(t, f);
    var r := t.record.value;
    var u := Again(t, ForgetSteps(f), 3);
    if r.pid.Some? && Alive(t, r.pid.value) {
      ReleaseNothing(t, f);
      StaysFinished(t, f, 3);
    } else if r.active && r.pid.None? {
      ForgetterFences(t, f);
    } else {
      FencedForgets(t, f, 3, None);
    }
  }

  lemma ReleaseNothing(t: State, f: nat)
    requires forall fd :: fd in t.held ==> t.held[fd] != ByForgetter(f)
    ensures Release(t.held, ByForgetter(f)) == t.held
  {
  }

  lemma ForgetterRereads(t: State, f: nat)
    requires f in t.forgetters && t.forgetters[f].Waiting? && t.registry.None? && t.record.Some?
    ensures var u := t.(registry := Some(f), forgetters := t.forgetters[f := Reread(t.record.value)]);
            Again(t, ForgetSteps(f), 2) == u && Again(t, ForgetSteps(f), 3) == ForgetStep(u, f)
  {
    var a := ForgetSteps(f);
    assert Again(t, a, 0) == t;
    assert Again(t, a, 1) == t.(registry := Some(f), forgetters := t.forgetters[f := Registered]);
  }

  /** Once finished, a forgetter does nothing more. */
  lemma {:induction false} StaysFinished(t: State, f: nat, n: nat)
    requires n <= 8 && f in Again(t, ForgetSteps(f), n).forgetters
    requires Again(t, ForgetSteps(f), n).forgetters[f].Finished?
    ensures Again(t, ForgetSteps(f), 8) == Again(t, ForgetSteps(f), n)
    decreases 8 - n
  {
    if n < 8 {
      assert Again(t, ForgetSteps(f), n + 1) == Again(t, ForgetSteps(f), n);
      StaysFinished(t, f, n + 1);
    }
  }

  /** From the fence on: the record goes, then the lock file, then the directory. */
  lemma FencedForgets(t: State, f: nat, n: nat, fence: Option<Inode>)
    requires n <= 5 && f in t.forgetters
    requires var u := Again(t, ForgetSteps(f), n);
             && u.forgetters == t.forgetters[f := Fenced(fence)] && u.registry == Some(f) && u.workers == t.workers
             && u.held == (if fence.Some? then t.held[fence.value := ByForgetter(f)] else t.held)
    requires (fence.Some? ==> fence.value !in t.held) && forall fd :: fd in t.held ==> t.held[fd] != ByForgetter(f)
    ensures var u := Again(t, ForgetSteps(f), n);
            Again(t, ForgetSteps(f), 8) == Forgotten(t, f, u.nextInode).(registry := None)
  {
    var u := Again(t, ForgetSteps(f), n);
    LastThreeSteps(u, f, fence);
    assert Again(t, ForgetSteps(f), n + 1) == Do(u, ForgetSteps(f));
    assert Again(t, ForgetSteps(f), n + 2) == Do(Do(u, ForgetSteps(f)), ForgetSteps(f));
    assert Again(t, ForgetSteps(f), n + 3) == Do(Do(Do(u, ForgetSteps(f)), ForgetSteps(f)), ForgetSteps(f));
    assert Release(u.held, ByForgetter(f)) == t.held;
    assert u.forgetters[f := Finished] == t.forgetters[f := Finished];
    StaysFinished(t, f, n + 3);
  }

  lemma LastThreeSteps(u: State, f: nat, fence: Option<Inode>)
    requires f in u.forgetters && u.forgetters[f] == Fenced(fence) && u.registry == Some(f)
    ensures var a := ForgetSteps(f);
            Do(Do(Do(u, a), a), a)
            == u.(record := None, lock := None, dir := false, forgetters := u.forgetters[f := Finished],
                  held := Release(u.held, ByForgetter(f)), registry := None)
  {
    var a := ForgetSteps(f);
    assert Do(u, a) == u.(record := None, forgetters := u.forgetters[f := RecordGone(fence)]);
    assert Do(Do(u, a), a) == u.(record := None, lock := None, forgetters := u.forgetters[f := LockUnlinked(fence)]);
  }

  /** A record without a pid: the forgetter takes the lock, or gives up when it is held. */
  lemma ForgetterFences(t: State, f: nat)
    requires f in t.forgetters && t.forgetters[f].Waiting? && t.registry.None?
    requires t.record.Some? && t.record.value.active && t.record.value.pid.None?
    requires forall fd :: fd in t.held ==> t.held[fd] != ByForgetter(f)
    ensures var end := Again(t, ForgetSteps(f), 8);
            if LockInode(t) in t.held
            then end == WithLockFile(t).(dir := true, forgetters := t.forgetters[f := Finished])
            else end == Forgotten(t, f, end.nextInode).(registry := None)
  {
    ForgetterOpensFence(t, f);
    if LockInode(t) in t.held {
      ReleaseNothing(t, f);
      StaysFinished(t, f, 5);
    } else {
      FencedForgets(t, f, 5, Some(LockInode(t)));
    }
  }

  lemma ForgetterOpensFence(t: State, f: nat)
    requires f in t.forgetters && t.forgetters[f].Waiting? && t.registry.None?
    requires t.record.Some? && t.record.value.active && t.record.value.pid.None?
    ensures var a, fd := ForgetSteps(f), LockInode(t);
            Again(t, a, 5) == if fd in t.held
                              then WithLockFile(t).(dir := true, forgetters := t.forgetters[f := Finished],
                                                    held := Release(t.held, ByForgetter(f)))
                              else WithLockFile(t).(dir := true, forgetters := t.forgetters[f := Fenced(Some(fd))],
                                                    held := t.held[fd := ByForgetter(f)], registry := Some(f))
  {
    ForgetterOpens(t, f);
    TriesLock(Again(t, ForgetSteps(f), 4), t.forgetters, f, LockInode(t));
  }

  lemma ForgetterOpens(t: State, f: nat)
    requires f in t.forgetters && t.forgetters[f].Waiting? && t.registry.None?
    requires t.record.Some? && t.record.value.active && t.record.value.pid.None?
    ensures Again(t, ForgetSteps(f), 4)
            == WithLockFile(t).(registry := Some(f), dir := true,
                                forgetters := t.forgetters[f := FenceOpened(LockInode(t))])
  {
    ForgetterRereads(t, f);
    GoesFencing(Again(t, ForgetSteps(f), 2), t.forgetters, f, t.record.value);
    OpensLock(Again(t, ForgetSteps(f), 3), t.forgetters, f);
  }

  lemma GoesFencing(u: State, others: map<nat, Forgetter>, f: nat, r: Record)
    requires u.forgetters == others[f := Reread(r)] && r.active && r.pid.None?
    ensures Do(u, ForgetSteps(f)) == u.(dir := true, forgetters := others[f := Fencing])
  {
  }

  lemma OpensLock(u: State, others: map<nat, Forgetter>, f: nat)
    requires u.forgetters == others[f := Fencing] && u.dir
    ensures Do(u, ForgetSteps(f)) == WithLockFile(u).(forgetters := others[f := FenceOpened(LockInode(u))])
  {
  }

  lemma TriesLock(u: State, others: map<nat, Forgetter>, f: nat, fd: Inode)
    requires u.forgetters == others[f := FenceOpened(fd)] && u.registry == Some(f)
    ensures Do(u, ForgetSteps(f))
            == if fd in u.held
               then u.(forgetters := others[f := Finished], held := Release(u.held, ByForgetter(f)), registry := None)
               else u.(forgetters := others[f := Fenced(Some(fd))], held := u.held[fd := ByForgetter(f)])
  {
  }

  /** A worker that refuses to come up, or has failed to, leaves neither lock file nor directory behind. */
  lemma RefusedWorkerCleansUp(t: State, p: Pid)
    requires p in t.workers && (t.workers[p].Refusing? || t.workers[p].Cleaning?)
    ensures Again(t, WorkerSteps(p), if t.lock.Some? then 2 else 1)
            == t.(lock := None, dir := false, workers := t.workers[p := Gone], held := Release(t.held, ByWorker(p)))
  {
    var a := WorkerSteps(p);
    assert Again(t, a, 0) == t;
    if t.lock.Some? {
      assert Again(t, a, 1) == t.(lock := None);
    } else {
      assert Again(t, a, 1) == WorkerGone(DirRemoved(t), p);
    }
  }

  /** A failed bring-up is written into the record, with the pid known by then, before anything is cleaned up. */
  lemma FailedBringUpIsRecorded(t: State, p: Pid)
    requires p in t.workers && (t.workers[p].HasRecord? || t.workers[p].Serving?) && t.record.Some?
    ensures var pid := if t.workers[p].Serving? then Some(p) else t.workers[p].record.pid;
            var u := Do(Do(t, BringUpFails(p)), WorkerSteps(p));
            u == t.(record := Some(Record(false, pid)), workers := t.workers[p := Cleaning(t.workers[p].fd)])
  {
  }

  /** A worker whose record vanished before it registered refuses, and writes none. */
  lemma UnrecordedWorkerRefuses(t: State, p: Pid)
    requires p in t.workers && (t.workers[p].Trusted? || t.workers[p].HasRecord?) && t.record.None?
    ensures Do(t, WorkerSteps(p)) == t.(workers := t.workers[p := Refusing(t.workers[p].fd)])
  {
  }

  /** A worker that finds the lock held, or its file gone, leaves without touching anything. */
  lemma LockedOutWorkerLeaves(t: State, p: Pid)
    requires p in t.workers
    requires (t.workers[p].Opened? && t.workers[p].fd in t.held) || (t.workers[p].Locked? && t.lock.None?)
    ensures Do(t, WorkerSteps(p)) == t.(workers := t.workers[p := Gone], held := Release(t.held, ByWorker(p)))
  {
  }

  /** A normal exit leaves an inactive record with the worker's pid. */
  lemma ExitIsRecorded(t: State, p: Pid)
    requires p in t.workers && t.workers[p].Serving? && t.record.Some?
    ensures Do(t, WorkerExits(p))
            == t.(record := Some(Record(false, Some(p))), workers := t.workers[p := Exiting(t.workers[p].fd)])
  {
  }

  /** A forgetter that gives up, wherever it stands, holds neither the registry nor a lock and changes nothing else. */
  lemma StoppedForgetterReleases(t: State, f: nat)
    requires f in t.forgetters
    ensures var u := Do(t, ForgetStops(f));
            && u == t.(held := u.held, registry := u.registry, forgetters := t.forgetters[f := Finished])
            && u.registry != Some(f) && (t.registry != Some(f) ==> u.registry == t.registry)
            && forall fd :: fd in u.held <==> fd in t.held && t.held[fd] != ByForgetter(f)
  {
  }
}
