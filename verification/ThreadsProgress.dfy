/** Progress under every schedule: no deadlock, and every call returns.

    Each ordinary step lowers a measure, so without new calls and spurious wake-ups
    a schedule is finite; where none is possible any more all calls have returned.
    Once `stop_` is set the worker finishes the iteration it is in and exits. */
module ThreadsProgress {
  import opened Proto
  import P = HarnessProtocol
  import opened Threads
  import opened ThreadsLocks

  // ----- no deadlock -----

  /** Nothing is left to do: callers have returned, the worker sleeps or has exited. */
  predicate Settled(pc: Pc) {
    pc.Idle? || pc.Returned? || pc.Exited? || pc == Asleep(false)
  }

  predicate Quiet(s: State) {
    forall t <- s.threads :: Settled(s.threads[t].pc)
  }

  ghost predicate Answerable(f: (string, P.Answer) -> bool, r: string) {
    exists a :: f(r, a)
  }

  /** Every engine call gets some answer. */
  ghost predicate Answers(e: Engine) {
    forall r :: Answerable(e.top, r) && Answerable(e.conv, r)
  }

  /** A move that is neither a new call nor a spurious wake-up. */
  predicate Ordinary(c: Choice) {
    c.Tick? || c.Answered?
  }

  /** A thread that is not settled can move, unless it waits for a lock that is
      taken or for the worker to exit. */
  lemma UnblockedMoves(e: Engine, s: State, t: Tid) returns (c: Choice)
    requires Answers(e) && Inv(s) && t in s.threads && !Settled(s.threads[t].pc)
    requires var pc := s.threads[t].pc;
      && (pc.WantEngine? ==> s.sh.engine.Free?)
      && (pc.WantCache? ==> s.sh.cacheMu.Free?)
      && (pc.WantQueue? || pc.Asleep? ==> s.sh.queueMu.Free?)
      && (pc.Join? ==> s.threads[WORKER].pc.Exited?)
    ensures Ordinary(c) && Can(e, s, t, c)
  {
    var th := s.threads[t];
    assert Fits(th.job, th.pc);
    c := Tick;
    if th.pc.InTop? || th.pc.InConvert? {
      assert Answerable(e.top, th.job.r) && Answerable(e.conv, th.job.r);
    }
    if th.pc.InTop? {
      var a :| e.top(th.job.r, a);
      c := Answered(a);
    } else if th.pc.InConvert? {
      var a :| e.conv(th.job.r, a);
      c := Answered(a);
    }
  }

  lemma SomeoneMoves(e: Engine, s: State)
    requires Answers(e) && Inv(s)
    ensures Quiet(s) || exists t, c :: Ordinary(c) && Can(e, s, t, c)
  {
    if s.sh.cacheMu.By? {
      assert Holds(CacheLock, s.threads[s.sh.cacheMu.t].pc);
      var c := UnblockedMoves(e, s, s.sh.cacheMu.t);
    } else if s.sh.queueMu.By? {
      assert Holds(QueueLock, s.threads[s.sh.queueMu.t].pc);
      var c := UnblockedMoves(e, s, s.sh.queueMu.t);
    } else if s.sh.engine.By? {
      assert Holds(EngineLock, s.threads[s.sh.engine.t].pc);
      var c := UnblockedMoves(e, s, s.sh.engine.t);
    } else if t :| t in s.threads && !Settled(s.threads[t].pc) && !s.threads[t].pc.Join? {
      var c := UnblockedMoves(e, s, t);
    } else if t :| t in s.threads && s.threads[t].pc.Join? {
      assert t == DESTRUCTOR && Fits(s.threads[t].job, s.threads[t].pc);
      assert Fits(s.threads[WORKER].job, s.threads[WORKER].pc);
      assert s.threads[WORKER].pc.Exited?;
      var c := UnblockedMoves(e, s, t);
    }
  }

  /** In every reachable state someone can move, or nothing is left to do. */
  lemma NoDeadlock(e: Engine, s: State)
    requires Answers(e) && Reachable(e, s)
    ensures Quiet(s) || exists t, c :: Ordinary(c) && Can(e, s, t, c)
  {
    ReachableInv(e, s);
    SomeoneMoves(e, s);
  }

  /** What it means in a reachable state that nothing is left to do. */
  lemma QuietMeansDone(e: Engine, s: State)
    requires Reachable(e, s) && Quiet(s)
    ensures Typed(s)
    ensures forall t <- s.threads :: t != WORKER && t != DESTRUCTOR ==> s.threads[t].pc.Returned?
    ensures if s.sh.stop then s.threads[WORKER].pc.Exited? && s.threads[DESTRUCTOR].pc.Exited?
            else s.threads[WORKER].pc == Asleep(false) && s.sh.pending == "" && s.threads[DESTRUCTOR].pc.Idle?
    ensures s.sh.engine.Free? && s.sh.cacheMu.Free? && s.sh.queueMu.Free? && s.sh.waiting == 0
  {
    ReachableInv(e, s);
    SettledMeansDone(s);
  }

  lemma SettledMeansDone(s: State)
    requires Inv(s) && Quiet(s)
    ensures forall t <- s.threads :: t != WORKER && t != DESTRUCTOR ==> s.threads[t].pc.Returned?
    ensures if s.sh.stop then s.threads[WORKER].pc.Exited? && s.threads[DESTRUCTOR].pc.Exited?
            else s.threads[WORKER].pc == Asleep(false) && s.sh.pending == "" && s.threads[DESTRUCTOR].pc.Idle?
    ensures s.sh.engine.Free? && s.sh.cacheMu.Free? && s.sh.queueMu.Free? && s.sh.waiting == 0
  {
    assert Counting(s) == {};
    forall t <- s.threads ensures Fits(s.threads[t].job, s.threads[t].pc) && RightJob(t, s.threads[t].job) {
    }
    assert forall l: Lock, t <- s.threads :: !Holds(l, s.threads[t].pc);
  }

  // ----- every schedule is finite -----

  /** The most steps one iteration of the worker can take. */
  const ITERATION := 220

  /** A bound on the ordinary steps a thread still takes, counting for a `top1` the
      work it hands to the worker. */
  function Rank(th: Thread): nat {
    var extra := if th.job.Top? then ITERATION + 6 else 0;
    match th.pc
    case Idle => 0
    case Exited => 0
    case Returned(_) => 0
    case Join => 1
    case Notify => 4
    case Asleep(notified) => if notified then 2 else 0
    case InQueue => if th.job.Prefetch? then 1 else ITERATION + 5
    case WantQueue => if th.job.Prefetch? then 2 else ITERATION + 6
    case InCache(op) => 2 * OpRank(op) - 1
    case WantCache(op) => 2 * OpRank(op)
    case FreeEngine(_) => 5 + extra
    case InConvert(_, _) => 6
    case CallConvert(_, _) => 7
    case InTop(_) => 8 + extra
    case CallTop(_) => 9 + extra
    case Lower => 15 + extra
    case WantEngine => 16 + extra
    case Raise => 17 + extra
    case Courtesy(i) => if i <= COURTESY_MAX then 17 + COURTESY_MAX - i else 0
  }

  function OpRank(op: Op): (n: nat)
    ensures 0 < n
  {
    match op
    case Store => 2
    case Take => 6
    case Reprobe => 7
    case Probe => 110
    case Check => 114
    case Note => 115
  }

  function PendingWork(sh: Shared): nat {
    if sh.pending != "" then ITERATION else 0
  }

  ghost function Total(threads: map<Tid, Thread>): nat
    decreases |threads|
  {
    if threads == map[] then 0
    else
      var t :| t in threads;
      Rank(threads[t]) + Total(threads - {t})
  }

  ghost function Measure(s: State): nat {
    Total(s.threads) + PendingWork(s.sh)
  }

  lemma {:induction false} TotalSplits(m: map<Tid, Thread>, t: Tid)
    requires t in m
    ensures Total(m) == Rank(m[t]) + Total(m - {t})
    decreases |m|
  {
    var k :| k in m && Total(m) == Rank(m[k]) + Total(m - {k});
    if k != t {
      TotalSplits(m - {k}, t);
      TotalSplits(m - {t}, k);
      assert m - {k} - {t} == m - {t} - {k};
    }
  }

  lemma TotalUpdates(m: map<Tid, Thread>, t: Tid, th: Thread)
    requires t in m
    ensures Total(m[t := th]) == Total(m) - Rank(m[t]) + Rank(th)
  {
    TotalSplits(m, t);
    TotalSplits(m[t := th], t);
    assert m[t := th] - {t} == m - {t};
  }

  lemma CacheStepRank(th: Thread, sh: Shared, op: Op)
    requires !th.job.Destroy? && th.pc == InCache(op) && FitsOp(th.job, op)
    ensures var (th', sh') := CacheStep(th, sh, op, th.job.r);
      Rank(th') < Rank(th) && PendingWork(sh') == PendingWork(sh)
  {
  }

  lemma QueueStepRank(th: Thread, sh: Shared)
    requires th.pc.InQueue? && Fits(th.job, th.pc)
    ensures var (th', sh') := QueueStep(th, sh);
      Rank(th') + PendingWork(sh') < Rank(th) + PendingWork(sh)
  {
  }

  /** A move lowers the rank of its thread by more than the work it creates: a
      reading left for the worker, and the two steps of a woken worker. */
  lemma LocalRank(s: State, t: Tid, c: Choice)
    requires Typed(s) && Enabled(s, t, c) && Ordinary(c)
    ensures var th := s.threads[t];
      var (th', sh') := Local(t, th, s.sh, c);
      Rank(th') + PendingWork(sh') + (if th.pc.Notify? then 2 else 0) < Rank(th) + PendingWork(s.sh)
  {
    var th := s.threads[t];
    assert Fits(th.job, th.pc);
    if th.pc.InCache? {
      CacheStepRank(th, s.sh, th.pc.op);
    } else if th.pc.InQueue? {
      QueueStepRank(th, s.sh);
    }
  }

  lemma StepLowersMeasure(s: State, t: Tid, c: Choice)
    requires Typed(s) && Enabled(s, t, c) && Ordinary(c)
    ensures Measure(Next(s, t, c)) < Measure(s)
  {
    LocalRank(s, t, c);
    var (th, sh) := Local(t, s.threads[t], s.sh, c);
    var mid := s.threads[t := th];
    TotalUpdates(s.threads, t, th);
    if s.threads[t].pc.Notify? && mid[WORKER].pc == Asleep(false) {
      TotalUpdates(mid, WORKER, mid[WORKER].(pc := Asleep(true)));
    }
  }

  predicate AllOrdinary(w: Schedule) {
    forall i :: 0 <= i < |w| ==> Ordinary(w[i].1)
  }

  /** Without new calls and spurious wake-ups, no schedule is longer than the measure. */
  lemma {:induction false} SchedulesAreBounded(e: Engine, s: State, w: Schedule)
    requires Inv(s) && Feasible(e, s, w) && AllOrdinary(w)
    ensures |w| + Measure(Run(e, s, w)) <= Measure(s)
    decreases |w|
  {
    if w != [] {
      StepLowersMeasure(s, w[0].0, w[0].1);
      StepKeepsInv(s, w[0].0, w[0].1);
      SchedulesAreBounded(e, Next(s, w[0].0, w[0].1), w[1..]);
    }
  }

  /** A schedule that cannot be continued. */
  ghost predicate Complete(e: Engine, s: State) {
    forall t, c :: Ordinary(c) ==> !Can(e, s, t, c)
  }

  /** All callers have returned; the worker is asleep without work or, after `stop_`,
      gone together with the destructor's wait. */
  predicate AllDone(s: State) {
    && Typed(s)
    && (forall t <- s.threads :: t != WORKER && t != DESTRUCTOR ==> s.threads[t].pc.Returned?)
    && (if s.sh.stop then s.threads[WORKER].pc.Exited? && s.threads[DESTRUCTOR].pc.Exited?
        else s.threads[WORKER].pc == Asleep(false) && s.sh.pending == "")
  }

  /** Every call returns: from any reachable state each schedule is at most as long as
      the measure says, and when it can go no further everything is done. */
  lemma EveryCallReturns(e: Engine, s: State, w: Schedule)
    requires Answers(e) && Reachable(e, s) && Feasible(e, s, w) && AllOrdinary(w)
    ensures |w| <= Measure(s)
    ensures Complete(e, Run(e, s, w)) ==> AllDone(Run(e, s, w))
  {
    ReachableInv(e, s);
    SchedulesAreBounded(e, s, w);
    RunKeepsInv(e, s, w);
    var end := Run(e, s, w);
    if Complete(e, end) {
      SomeoneMoves(e, end);
      SettledMeansDone(end);
    }
  }

  // ----- after `stop_` -----

  /** A bound on the worker's remaining steps once it is to stop. */
  function StopRank(pc: Pc): nat {
    if pc.Asleep? then 2 else Rank(Thread(Prefetch(""), pc, EMPTY_RESULT))
  }

  function MovesOf(t: Tid, w: Schedule): nat {
    if w == [] then 0 else (if w[0].0 == t then 1 else 0) + MovesOf(t, w[1..])
  }

  lemma WorkerStepWhenStopping(s: State, t: Tid, c: Choice)
    requires Inv(s) && s.sh.stop && Enabled(s, t, c)
    ensures var s' := Next(s, t, c);
      && s'.sh.stop && s'.threads[WORKER].job == s.threads[WORKER].job
      && (if t == WORKER then StopRank(s'.threads[WORKER].pc) < StopRank(s.threads[WORKER].pc)
          else StopRank(s'.threads[WORKER].pc) == StopRank(s.threads[WORKER].pc))
  {
    OneThreadMoves(s, t, c);
    if !c.Start? {
      assert Fits(s.threads[t].job, s.threads[t].pc) && RightJob(t, s.threads[t].job);
      LocalStop(t, s.threads[t], s.sh, c);
      if t == WORKER {
        LocalStopRank(s, c);
      }
    }
  }

  lemma LocalStopRank(s: State, c: Choice)
    requires Typed(s) && s.sh.stop && Enabled(s, WORKER, c) && !c.Start?
    ensures var (th', _) := Local(WORKER, s.threads[WORKER], s.sh, c);
      th'.job == s.threads[WORKER].job && StopRank(th'.pc) < StopRank(s.threads[WORKER].pc)
  {
    assert Fits(s.threads[WORKER].job, s.threads[WORKER].pc) && RightJob(WORKER, s.threads[WORKER].job);
  }

  lemma {:induction false} StopsSoon(e: Engine, s: State, w: Schedule)
    requires Inv(s) && s.sh.stop && Feasible(e, s, w)
    ensures Inv(Run(e, s, w)) && Run(e, s, w).threads[WORKER].job == s.threads[WORKER].job
    ensures MovesOf(WORKER, w) + StopRank(Run(e, s, w).threads[WORKER].pc) <= StopRank(s.threads[WORKER].pc)
    decreases |w|
  {
    if w != [] {
      WorkerStepWhenStopping(s, w[0].0, w[0].1);
      StepKeepsInv(s, w[0].0, w[0].1);
      StopsSoon(e, Next(s, w[0].0, w[0].1), w[1..]);
    }
  }

  /** Once `stop_` is set the worker never takes another reading: whatever the
      schedule, new calls and spurious wake-ups included, it keeps the reading it is
      working on and makes at most `StopRank` more steps. */
  lemma WorkerStopsSoon(e: Engine, s: State, w: Schedule)
    requires Reachable(e, s) && s.sh.stop && Feasible(e, s, w)
    ensures Typed(s) && Typed(Run(e, s, w))
    ensures Run(e, s, w).threads[WORKER].job == s.threads[WORKER].job
    ensures MovesOf(WORKER, w) + StopRank(Run(e, s, w).threads[WORKER].pc) <= StopRank(s.threads[WORKER].pc)
  {
    ReachableInv(e, s);
    StopsSoon(e, s, w);
  }

  lemma StopIsOneIteration(e: Engine, s: State, w: Schedule)
    requires Reachable(e, s) && s.sh.stop && Feasible(e, s, w)
    ensures MovesOf(WORKER, w) <= ITERATION
  {
    ReachableInv(e, s);
    StopsSoon(e, s, w);
    assert Fits(s.threads[WORKER].job, s.threads[WORKER].pc);
  }
}
