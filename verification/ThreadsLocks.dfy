/** Locks, the waiting counter and the condition variable, over every schedule:
    mutual exclusion inside the engine, the exact meaning of `fg_waiting_`, and no
    lost wake-up. */
module ThreadsLocks {
  import opened Proto
  import opened Candidates
  import opened Threads

  // ----- which program points belong to which call -----

  predicate FitsOp(job: Job, op: Op) {
    if op.Note? || op.Check? then job.Top? else job.Cands? || job.Prefetch?
  }

  predicate FitsAfter(job: Job, next: After) {
    match next
    case Give(_) => job.Top? || job.Cands?
    case StoreIt => job.Cands? || job.Prefetch?
    case NoteIt => job.Top?
    case Again => job.Prefetch?
  }

  predicate Fits(job: Job, pc: Pc) {
    match pc
    case Idle => job.Destroy?
    case Raise => job.Top? || job.Cands?
    case WantEngine => !job.Destroy?
    case Lower => job.Top? || job.Cands?
    case WantCache(op) => FitsOp(job, op)
    case InCache(op) => FitsOp(job, op)
    case CallTop(_) => !job.Destroy?
    case InTop(_) => !job.Destroy?
    case CallConvert(_, _) => job.Cands? || job.Prefetch?
    case InConvert(_, _) => job.Cands? || job.Prefetch?
    case FreeEngine(next) => FitsAfter(job, next)
    case WantQueue => !job.Cands?
    case InQueue => !job.Cands?
    case Notify => job.Top? || job.Destroy?
    case Asleep(_) => job.Prefetch?
    case Courtesy(i) => job.Prefetch? && i <= COURTESY_MAX
    case Join => job.Destroy?
    case Exited => job.Prefetch? || job.Destroy?
    case Returned(_) => job.Top? || job.Cands?
  }

  predicate RightJob(t: Tid, job: Job) {
    (t == WORKER <==> job.Prefetch?) && (t == DESTRUCTOR <==> job.Destroy?)
  }

  predicate Typed(s: State) {
    && WORKER in s.threads && DESTRUCTOR in s.threads
    && forall t <- s.threads :: RightJob(t, s.threads[t].job) && Fits(s.threads[t].job, s.threads[t].pc)
  }

  // ----- who holds what -----

  predicate EngineOp(op: Op) {
    op.Reprobe? || op.Take?
  }

  predicate HoldsEngine(pc: Pc) {
    match pc
    case Lower => true
    case WantCache(op) => EngineOp(op)
    case InCache(op) => EngineOp(op)
    case CallTop(_) => true
    case InTop(_) => true
    case CallConvert(_, _) => true
    case InConvert(_, _) => true
    case FreeEngine(_) => true
    case _ => false
  }

  predicate InsideEngine(pc: Pc) {
    pc.InTop? || pc.InConvert?
  }

  /** A foreground call between its increment and its decrement of the counter. */
  predicate Counted(th: Thread) {
    !th.job.Prefetch? && (th.pc.WantEngine? || th.pc.Lower?)
  }

  datatype Lock = EngineLock | CacheLock | QueueLock

  predicate Holds(lock: Lock, pc: Pc) {
    match lock
    case EngineLock => HoldsEngine(pc)
    case CacheLock => pc.InCache?
    case QueueLock => pc.InQueue?
  }

  function OwnerOf(lock: Lock, sh: Shared): Owner {
    match lock
    case EngineLock => sh.engine
    case CacheLock => sh.cacheMu
    case QueueLock => sh.queueMu
  }

  /** A lock is owned by exactly the thread whose program point holds it. */
  predicate LockMatches(s: State, lock: Lock) {
    var owner := OwnerOf(lock, s.sh);
    && (forall t <- s.threads :: Holds(lock, s.threads[t].pc) <==> owner == By(t))
    && (owner.By? ==> owner.t in s.threads)
  }

  predicate LocksMatch(s: State) {
    LockMatches(s, EngineLock) && LockMatches(s, CacheLock) && LockMatches(s, QueueLock)
  }

  function Counting(s: State): set<Tid> {
    set t | t in s.threads && Counted(s.threads[t])
  }

  predicate StopMatches(s: State) {
    Typed(s) &&
    var d := s.threads[DESTRUCTOR].pc;
    && (s.sh.stop <==> d.Notify? || d.Join? || d.Exited?)
    && (s.threads[WORKER].pc.Exited? ==> s.sh.stop)
    && (d.Exited? ==> s.threads[WORKER].pc.Exited?)
  }

  /** A sleeping worker with something to do is about to be notified. */
  ghost predicate NoLostWakeup(s: State) {
    Typed(s) &&
    (s.threads[WORKER].pc == Asleep(false) && (s.sh.stop || s.sh.pending != "") ==>
      exists t :: t in s.threads && s.threads[t].pc.Notify?)
  }

  ghost predicate Inv(s: State) {
    Typed(s) && LocksMatch(s) && s.sh.waiting == |Counting(s)| && StopMatches(s) && NoLostWakeup(s)
  }

  // ----- one step changes one thread -----

  /** Everything but thread t is the same, except that a sleeping worker may have
      been notified. */
  predicate OthersSame(s: State, s': State, t: Tid, notifies: bool) {
    && t in s'.threads && s'.threads.Keys == s.threads.Keys + {t}
    && forall u <- s.threads :: u != t ==>
         if notifies && u == WORKER && s.threads[u].pc == Asleep(false)
         then s'.threads[u] == s.threads[u].(pc := Asleep(true))
         else s'.threads[u] == s.threads[u]
  }

  predicate Notifies(s: State, t: Tid, c: Choice) {
    !c.Start? && t in s.threads && s.threads[t].pc.Notify?
  }

  lemma OneThreadMoves(s: State, t: Tid, c: Choice)
    requires Typed(s) && Enabled(s, t, c)
    ensures OthersSame(s, Next(s, t, c), t, Notifies(s, t, c))
    ensures !c.Start? ==> (Next(s, t, c).threads[t], Next(s, t, c).sh) == Local(t, s.threads[t], s.sh, c)
  {
  }

  lemma LocalKeepsTyped(t: Tid, th: Thread, sh: Shared, c: Choice)
    requires RightJob(t, th.job) && Fits(th.job, th.pc) && !(th.job.Destroy? && th.pc.Idle?)
    ensures var th' := Local(t, th, sh, c).0; RightJob(t, th'.job) && Fits(th'.job, th'.pc)
  {
  }

  lemma StepKeepsTyped(s: State, t: Tid, c: Choice)
    requires Typed(s) && Enabled(s, t, c)
    ensures Typed(Next(s, t, c))
  {
    OneThreadMoves(s, t, c);
    if !c.Start? {
      LocalKeepsTyped(t, s.threads[t], s.sh, c);
    }
  }

  // ----- locks -----

  /** How one move changes the ownership of a lock: it goes to t, from t, or stays. */
  predicate Passes(before: Owner, after: Owner, t: Tid, held: bool, holds: bool) {
    if holds then after == By(t) && (held || before.Free?)
    else after == if held then Free else before
  }

  lemma LocalLock(s: State, t: Tid, c: Choice, lock: Lock)
    requires Typed(s) && Enabled(s, t, c) && !c.Start?
    requires Holds(lock, s.threads[t].pc) ==> OwnerOf(lock, s.sh) == By(t)
    ensures var (th', sh') := Local(t, s.threads[t], s.sh, c);
      Passes(OwnerOf(lock, s.sh), OwnerOf(lock, sh'), t, Holds(lock, s.threads[t].pc), Holds(lock, th'.pc))
  {
  }

  lemma OwnershipMoves(s: State, s': State, t: Tid, notifies: bool, lock: Lock)
    requires LockMatches(s, lock) && OthersSame(s, s', t, notifies)
    requires Passes(OwnerOf(lock, s.sh), OwnerOf(lock, s'.sh), t,
                    t in s.threads && Holds(lock, s.threads[t].pc), Holds(lock, s'.threads[t].pc))
    ensures LockMatches(s', lock)
  {
  }

  lemma StepKeepsLock(s: State, t: Tid, c: Choice, lock: Lock)
    requires Typed(s) && LockMatches(s, lock) && Enabled(s, t, c)
    ensures LockMatches(Next(s, t, c), lock)
  {
    OneThreadMoves(s, t, c);
    if !c.Start? {
      LocalLock(s, t, c, lock);
    }
    OwnershipMoves(s, Next(s, t, c), t, Notifies(s, t, c), lock);
  }

  // ----- the waiting counter -----

  function One(b: bool): int {
    if b then 1 else 0
  }

  lemma LocalCount(t: Tid, th: Thread, sh: Shared, c: Choice)
    requires RightJob(t, th.job) && Fits(th.job, th.pc) && (th.job.Destroy? ==> !th.pc.Idle?)
    ensures var (th', sh') := Local(t, th, sh, c);
      sh'.waiting == sh.waiting - One(Counted(th)) + One(Counted(th'))
  {
  }

  lemma CountingApart(s: State, s': State, t: Tid, notifies: bool)
    requires Typed(s) && OthersSame(s, s', t, notifies)
    ensures Counting(s') == (Counting(s) - {t}) + if Counted(s'.threads[t]) then {t} else {}
  {
    forall u <- s.threads | u != t ensures u in s'.threads && Counted(s.threads[u]) == Counted(s'.threads[u]) {
    }
  }

  lemma CountMoves(s: State, s': State, t: Tid, notifies: bool)
    requires Typed(s) && OthersSame(s, s', t, notifies)
    ensures |Counting(s')| == |Counting(s)| - One(t in Counting(s)) + One(Counted(s'.threads[t]))
  {
    CountingApart(s, s', t, notifies);
  }

  lemma StepKeepsCount(s: State, t: Tid, c: Choice)
    requires Typed(s) && Enabled(s, t, c) && s.sh.waiting == |Counting(s)|
    ensures Next(s, t, c).sh.waiting == |Counting(Next(s, t, c))|
  {
    OneThreadMoves(s, t, c);
    CountMoves(s, Next(s, t, c), t, Notifies(s, t, c));
    if !c.Start? {
      LocalCount(t, s.threads[t], s.sh, c);
    }
  }

  // ----- stopping and waking up -----

  predicate Stopping(pc: Pc) {
    pc.Notify? || pc.Join? || pc.Exited?
  }

  lemma LocalStop(t: Tid, th: Thread, sh: Shared, c: Choice)
    requires RightJob(t, th.job) && Fits(th.job, th.pc) && !th.pc.Exited? && (th.job.Destroy? ==> !th.pc.Idle?)
    ensures var (th', sh') := Local(t, th, sh, c);
      && (sh'.stop <==> sh.stop || (th.job.Destroy? && th.pc.InQueue?))
      && (th.job.Destroy? ==> (Stopping(th'.pc) <==> th.pc.InQueue? || Stopping(th.pc)) && (th'.pc.Exited? <==> th.pc.Join?))
      && (th.job.Prefetch? && th'.pc.Exited? ==> sh.stop)
  {
  }

  lemma StepKeepsStop(s: State, t: Tid, c: Choice)
    requires Typed(s) && Enabled(s, t, c) && StopMatches(s)
    ensures StopMatches(Next(s, t, c))
  {
    StepKeepsTyped(s, t, c);
    OneThreadMoves(s, t, c);
    if !c.Start? {
      LocalStop(t, s.threads[t], s.sh, c);
    }
  }

  lemma LocalWork(t: Tid, th: Thread, sh: Shared, c: Choice)
    requires RightJob(t, th.job) && Fits(th.job, th.pc) && (th.job.Destroy? ==> !th.pc.Idle?)
    ensures var (th', sh') := Local(t, th, sh, c);
      && (th'.pc == Asleep(false) && !th.pc.Asleep? ==> th.job.Prefetch? && !sh'.stop && sh'.pending == "")
      && (t != WORKER && !th'.pc.Notify? ==> sh'.stop == sh.stop && sh'.pending == sh.pending)
  {
  }

  lemma StepKeepsWakeup(s: State, t: Tid, c: Choice)
    requires Typed(s) && Enabled(s, t, c) && NoLostWakeup(s)
    ensures NoLostWakeup(Next(s, t, c))
  {
    var s' := Next(s, t, c);
    StepKeepsTyped(s, t, c);
    OneThreadMoves(s, t, c);
    if !c.Start? {
      LocalWork(t, s.threads[t], s.sh, c);
    }
    if s'.threads[WORKER].pc == Asleep(false) && (s'.sh.stop || s'.sh.pending != "") && !s'.threads[t].pc.Notify? {
      assert t != WORKER && s.threads[WORKER].pc == Asleep(false);
      var u :| u in s.threads && s.threads[u].pc.Notify?;
      assert u != t && s'.threads[u] == s.threads[u];
    }
  }

  // ----- every run -----

  lemma InitInv(s: State)
    requires Init(s)
    ensures Inv(s)
  {
    assert Counting(s) == {};
  }

  lemma StepKeepsInv(s: State, t: Tid, c: Choice)
    requires Inv(s) && Enabled(s, t, c)
    ensures Inv(Next(s, t, c))
  {
    StepKeepsTyped(s, t, c);
    StepKeepsLock(s, t, c, EngineLock);
    StepKeepsLock(s, t, c, CacheLock);
    StepKeepsLock(s, t, c, QueueLock);
    StepKeepsCount(s, t, c);
    StepKeepsStop(s, t, c);
    StepKeepsWakeup(s, t, c);
  }

  lemma {:induction false} RunKeepsInv(e: Engine, s: State, w: Schedule)
    requires Inv(s) && Feasible(e, s, w)
    ensures Inv(Run(e, s, w))
    decreases |w|
  {
    if w != [] {
      StepKeepsInv(s, w[0].0, w[0].1);
      RunKeepsInv(e, Next(s, w[0].0, w[0].1), w[1..]);
    }
  }

  lemma ReachableInv(e: Engine, s: State)
    requires Reachable(e, s)
    ensures Inv(s)
  {
    var s0, w :| Init(s0) && Feasible(e, s0, w) && Run(e, s0, w) == s;
    InitInv(s0);
    RunKeepsInv(e, s0, w);
  }

  /** At most one thread is inside the engine, whatever the schedule. */
  lemma EngineIsSerial(e: Engine, s: State, t: Tid, u: Tid)
    requires Reachable(e, s)
    requires t in s.threads && InsideEngine(s.threads[t].pc) && u in s.threads && InsideEngine(s.threads[u].pc)
    ensures t == u
  {
    ReachableInv(e, s);
    assert Holds(EngineLock, s.threads[t].pc) && Holds(EngineLock, s.threads[u].pc);
  }

  /** `fg_waiting_` is the number of foreground calls between their increment and
      their decrement: never negative, and zero when no caller is there. */
  lemma WaitingIsExact(e: Engine, s: State)
    requires Reachable(e, s)
    ensures s.sh.waiting == |Counting(s)| >= 0
    ensures s.sh.waiting > 0 <==> exists t <- s.threads :: Counted(s.threads[t])
  {
    ReachableInv(e, s);
    if t :| t in s.threads && Counted(s.threads[t]) {
      assert t in Counting(s);
    } else {
      assert Counting(s) == {};
    }
  }

  /** Locks are taken in the order engine, cache; the queue lock is taken alone. */
  lemma LockOrder(e: Engine, s: State, t: Tid)
    requires Reachable(e, s) && t in s.threads
    ensures s.sh.queueMu == By(t) ==> s.sh.engine != By(t) && s.sh.cacheMu != By(t)
    ensures s.threads[t].pc.WantEngine? ==> s.sh.engine != By(t) && s.sh.cacheMu != By(t) && s.sh.queueMu != By(t)
    ensures s.threads[t].pc.WantCache? ==> s.sh.cacheMu != By(t) && s.sh.queueMu != By(t)
    ensures s.threads[t].pc.WantQueue? || s.threads[t].pc.Asleep? ==>
      s.sh.engine != By(t) && s.sh.cacheMu != By(t) && s.sh.queueMu != By(t)
  {
    ReachableInv(e, s);
    var pc := s.threads[t].pc;
    assert Holds(EngineLock, pc) <==> s.sh.engine == By(t);
    assert Holds(CacheLock, pc) <==> s.sh.cacheMu == By(t);
    assert Holds(QueueLock, pc) <==> s.sh.queueMu == By(t);
  }
}
