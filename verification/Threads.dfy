/** The interleavings of a `Session`: any number of foreground callers, the
    prefetch worker and the destructor, as one step relation.

    Every lock acquisition, every critical section, every update of the waiting
    counter and both ends of every engine call are separate steps, so all schedules
    are covered.  Steps act on the memory through the functions of `Candidates`. */
module Threads {
  import opened Proto
  import opened Candidates
  import opened HarnessProtocol

  type Tid = nat

  const WORKER: Tid := 0
  const DESTRUCTOR: Tid := 1

  /** The engine as the answers it may give for a reading. */
  datatype Engine = Engine(top: (string, Answer) -> bool, conv: (string, Answer) -> bool)

  datatype Owner = Free | By(t: Tid)

  /** What a thread is executing. */
  datatype Job = Top(r: string) | Cands(r: string, max: int) | Prefetch(r: string) | Destroy

  /** The critical sections under `cache_mu_`, in the places they occur. */
  datatype Op = Probe | Reprobe | Take | Store | Note | Check

  /** What follows the release of the engine. */
  datatype After = Give(ok: bool) | StoreIt | NoteIt | Again

  datatype Pc =
    | Idle                                     // no call in progress
    | Raise                                    // about to count itself as waiting
    | WantEngine                               // about to lock the engine
    | Lower                                    // holds the engine, about to uncount itself
    | WantCache(op: Op)                        // about to lock the cache
    | InCache(op: Op)                          // holds the cache lock
    | CallTop(hint: string)                    // holds the engine, about to call topOne
    | InTop(hint: string)                      // inside topOne
    | CallConvert(hint: string, top: Answer)   // holds the engine, about to call convert
    | InConvert(hint: string, top: Answer)     // inside convert
    | FreeEngine(next: After)                  // about to unlock the engine
    | WantQueue                                // about to lock the queue
    | InQueue                                  // holds the queue lock
    | Notify                                   // about to notify the condition variable
    | Asleep(notified: bool)                   // the worker in its wait
    | Courtesy(i: nat)                         // the worker letting callers go first
    | Join                                     // the destructor waiting for the worker
    | Exited
    | Returned(ok: bool)

  datatype Thread = Thread(job: Job, pc: Pc, out: ConvertResult)

  /** What the threads share.  `entered` and `puts` record, for the statements,
      every reading that entered the cache anew and every value stored. */
  datatype Shared = Shared(
    engine: Owner, cacheMu: Owner, queueMu: Owner,
    waiting: int, mem: Mem, pending: string, stop: bool,
    entered: seq<string>, puts: seq<(string, ConvertResult)>)

  datatype State = State(threads: map<Tid, Thread>, sh: Shared)

  const COURTESY_MAX := 200

  predicate Init(s: State) {
    && s.threads.Keys == {WORKER, DESTRUCTOR}
    && s.threads[WORKER] == Thread(Prefetch(""), WantQueue, EMPTY_RESULT)
    && s.threads[DESTRUCTOR] == Thread(Destroy, Idle, EMPTY_RESULT)
    && s.sh == Shared(Free, Free, Free, 0, EMPTY_MEM, "", false, [], [])
  }

  /** What the scheduler and the environment decide: an ordinary step, a new call,
      the answer of an engine call, or a spurious wake-up. */
  datatype Choice = Tick | Start(job: Job) | Answered(a: Answer) | Spurious

  predicate MayStart(s: State, t: Tid, job: Job) {
    if t == DESTRUCTOR then job.Destroy? && t in s.threads && s.threads[t].pc.Idle?
    else t != WORKER && (job.Top? || job.Cands?) && (t in s.threads ==> s.threads[t].pc.Returned?)
  }

  /** Whether thread t can make this move: locks are free, events have happened. */
  predicate Enabled(s: State, t: Tid, c: Choice) {
    if c.Start? then MayStart(s, t, c.job)
    else if t !in s.threads then false
    else
      match s.threads[t].pc
      case Idle => false
      case Returned(_) => false
      case Exited => false
      case WantEngine => c.Tick? && s.sh.engine.Free?
      case WantCache(_) => c.Tick? && s.sh.cacheMu.Free?
      case WantQueue => c.Tick? && s.sh.queueMu.Free?
      case Asleep(notified) => s.sh.queueMu.Free? && (if notified then c.Tick? else c.Spurious?)
      case InTop(_) => c.Answered?
      case InConvert(_, _) => c.Answered?
      case Join => c.Tick? && WORKER in s.threads && s.threads[WORKER].pc.Exited?
      case _ => c.Tick?
  }

  /** A move with an answer the engine may give. */
  predicate Can(e: Engine, s: State, t: Tid, c: Choice) {
    && Enabled(s, t, c)
    && (c.Answered? && !s.threads[t].job.Destroy? ==>
          var r := s.threads[t].job.r;
          if s.threads[t].pc.InTop? then e.top(r, c.a) else e.conv(r, c.a))
  }

  function StartPc(job: Job): Pc {
    match job
    case Top(_) => Raise
    case Cands(_, _) => WantCache(Probe)
    case _ => WantQueue
  }

  /** One critical section under `cache_mu_`, by a thread that looks up reading r;
      it releases the lock. */
  function CacheStep(th: Thread, sh0: Shared, op: Op, r: string): (Thread, Shared) {
    var sh := sh0.(cacheMu := Free);
    var hit := r in sh.mem.cache;
    match op
    case Probe =>
      (if !hit then th.(pc := if th.job.Prefetch? then Courtesy(0) else Raise)
       else if th.job.Cands? then th.(pc := Returned(true), out := Capped(sh.mem.cache[r], th.job.max))
       else th.(pc := WantQueue), sh)
    case Reprobe =>
      (if !hit then th.(pc := WantCache(Take))
       else if th.job.Cands? then th.(pc := FreeEngine(Give(true)), out := Capped(sh.mem.cache[r], th.job.max))
       else th.(pc := FreeEngine(Again)), sh)
    case Take => (th.(pc := CallTop(HintFor(sh.mem, r))), sh.(mem := TakeHint(sh.mem, r)))
    case Store =>
      (if th.job.Cands? then th.(pc := Returned(true), out := Capped(th.out, th.job.max)) else th.(pc := WantQueue),
       sh.(mem := Put(sh.mem, r, th.out), puts := sh.puts + [(r, th.out)],
           entered := if hit then sh.entered else sh.entered + [r]))
    case Note => (th.(pc := WantCache(Check)), sh.(mem := Remember(sh.mem, r, th.out.commit)))
    case Check => (th.(pc := if hit then Returned(true) else WantQueue), sh)
  }

  /** The critical section under `q_mu_`; it releases the lock. */
  function QueueStep(th: Thread, sh0: Shared): (Thread, Shared) {
    var sh := sh0.(queueMu := Free);
    match th.job
    case Top(r) => (th.(pc := Notify), sh.(pending := r))
    case Destroy => (th.(pc := Notify), sh.(stop := true))
    case _ =>
      if sh.stop then (th.(pc := Exited), sh)
      else if sh.pending == "" then (th.(pc := Asleep(false)), sh)
      else (th.(pc := WantCache(Probe), job := Prefetch(sh.pending)), sh.(pending := ""))
  }

  /** What one move does to the moving thread and to what is shared. */
  function Local(t: Tid, th: Thread, sh: Shared, c: Choice): (Thread, Shared) {
    match th.pc
    case Raise => (th.(pc := WantEngine), sh.(waiting := sh.waiting + 1))
    case WantEngine => (th.(pc := if th.job.Prefetch? then WantCache(Reprobe) else Lower), sh.(engine := By(t)))
    case Lower =>
      (th.(pc := if th.job.Top? then CallTop("") else WantCache(Reprobe)), sh.(waiting := sh.waiting - 1))
    case WantCache(op) => (th.(pc := InCache(op)), sh.(cacheMu := By(t)))
    case InCache(op) => if th.job.Destroy? then (th, sh) else CacheStep(th, sh, op, th.job.r)
    case CallTop(hint) => (th.(pc := InTop(hint)), sh)
    case InTop(hint) =>
      if !c.Answered? then (th, sh)
      else if th.job.Top? then (th.(pc := FreeEngine(if c.a.ok then NoteIt else Give(false)), out := c.a.res), sh)
      else (th.(pc := CallConvert(hint, c.a)), sh)
    case CallConvert(hint, top) => (th.(pc := InConvert(hint, top)), sh)
    case InConvert(hint, top) =>
      if !c.Answered? then (th, sh)
      else if c.a.ok then (th.(pc := FreeEngine(StoreIt), out := BuildResult(hint, top, c.a.res)), sh)
      else (th.(pc := FreeEngine(if th.job.Prefetch? then Again else Give(false))), sh)
    case FreeEngine(next) => (th.(pc := AfterEngine(next)), sh.(engine := Free))
    case WantQueue => (th.(pc := InQueue), sh.(queueMu := By(t)))
    case InQueue => QueueStep(th, sh)
    case Notify => (th.(pc := if th.job.Destroy? then Join else Returned(true)), sh)
    case Asleep(_) => (th.(pc := InQueue), sh.(queueMu := By(t)))
    case Courtesy(i) => (th.(pc := if i < COURTESY_MAX && sh.waiting > 0 then Courtesy(i + 1) else WantEngine), sh)
    case Join => (th.(pc := Exited), sh)
    case _ => (th, sh)
  }

  function AfterEngine(next: After): Pc {
    match next
    case Give(ok) => Returned(ok)
    case StoreIt => WantCache(Store)
    case NoteIt => WantCache(Note)
    case Again => WantQueue
  }

  /** The effect of a notification: it reaches the worker when it is asleep. */
  function Woken(threads: map<Tid, Thread>): map<Tid, Thread> {
    if WORKER in threads && threads[WORKER].pc == Asleep(false)
    then threads[WORKER := threads[WORKER].(pc := Asleep(true))]
    else threads
  }

  function Next(s: State, t: Tid, c: Choice): State
    requires Enabled(s, t, c)
  {
    if c.Start? then s.(threads := s.threads[t := Thread(c.job, StartPc(c.job), EMPTY_RESULT)])
    else
      var (th, sh) := Local(t, s.threads[t], s.sh, c);
      var threads := s.threads[t := th];
      State(if s.threads[t].pc.Notify? then Woken(threads) else threads, sh)
  }

  // ----- runs -----

  /** A schedule: who moves, and how, at each step. */
  type Schedule = seq<(Tid, Choice)>

  predicate Feasible(e: Engine, s: State, w: Schedule)
    decreases |w|
  {
    w == [] || (Can(e, s, w[0].0, w[0].1) && Feasible(e, Next(s, w[0].0, w[0].1), w[1..]))
  }

  function Run(e: Engine, s: State, w: Schedule): State
    requires Feasible(e, s, w)
    decreases |w|
  {
    if w == [] then s else Run(e, Next(s, w[0].0, w[0].1), w[1..])
  }

  ghost predicate Reachable(e: Engine, s: State) {
    exists s0, w :: Init(s0) && Feasible(e, s0, w) && Run(e, s0, w) == s
  }
}
