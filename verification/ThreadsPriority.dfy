/** How far foreground calls go before the prefetch: not strictly.  The exact moment at
    which the worker stops letting them, and a run in which it overtakes one. */
module ThreadsPriority {
  import opened Proto
  import opened Candidates
  import P = HarnessProtocol
  import opened Threads
  import opened ThreadsLocks
  import opened ThreadsSolo

  /** One look: the worker goes for the engine exactly when no caller is counted or its
      200 looks are used up; otherwise it looks once more. */
  lemma CourtesyEndsExactly(e: Engine, s: State)
    requires Reachable(e, s) && WORKER in s.threads && s.threads[WORKER].pc.Courtesy?
    ensures var i := s.threads[WORKER].pc.i;
      && Enabled(s, WORKER, Tick) && i <= 200
      && var s' := Next(s, WORKER, Tick);
         && s'.sh == s.sh && s'.threads.Keys == s.threads.Keys
         && (s'.threads[WORKER].pc == WantEngine <==> s.sh.waiting == 0 || i == 200)
         && (s'.threads[WORKER].pc != WantEngine ==> s'.threads[WORKER].pc == Courtesy(i + 1))
  {
    ReachableInv(e, s);
    assert Fits(s.threads[WORKER].job, s.threads[WORKER].pc);
  }

  /** Callers that count themselves as waiting during a run. */
  function Raises(e: Engine, s: State, w: Schedule): nat
    requires Feasible(e, s, w)
    decreases |w|
  {
    if w == [] then 0
    else
      var (t, c) := w[0];
      (if !c.Start? && s.threads[t].pc.Raise? then 1 else 0) + Raises(e, Next(s, t, c), w[1..])
  }

  lemma StepRaises(s: State, t: Tid, c: Choice)
    requires Typed(s) && Enabled(s, t, c)
    ensures Next(s, t, c).sh.waiting <= s.sh.waiting + if !c.Start? && s.threads[t].pc.Raise? then 1 else 0
  {
    OneThreadMoves(s, t, c);
    if !c.Start? {
      LocalCount(t, s.threads[t], s.sh, c);
    }
  }

  lemma {:induction false} WaitingGrowsByRaises(e: Engine, s: State, w: Schedule)
    requires Typed(s) && Feasible(e, s, w)
    ensures Run(e, s, w).sh.waiting <= s.sh.waiting + Raises(e, s, w)
    decreases |w|
  {
    if w != [] {
      var (t, c) := w[0];
      StepRaises(s, t, c);
      StepKeepsTyped(s, t, c);
      WaitingGrowsByRaises(e, Next(s, t, c), w[1..]);
    }
  }

  /** The only two ways: if a caller is counted when the worker, some steps after its last
      look, takes the engine, then the looks were used up with a caller counted, or a
      caller counted itself after that look.  Neither is enough, since a counted caller may
      still come before the worker. */
  lemma OvertakenOnlyThen(e: Engine, s: State, w: Schedule)
    requires Reachable(e, s) && WORKER in s.threads && s.threads[WORKER].pc.Courtesy?
    requires Enabled(s, WORKER, Tick) && Next(s, WORKER, Tick).threads[WORKER].pc == WantEngine
    requires Feasible(e, Next(s, WORKER, Tick), w)
    ensures var s' := Next(s, WORKER, Tick);
      Run(e, s', w).sh.waiting > 0 ==>
        (s.sh.waiting > 0 && s.threads[WORKER].pc.i == 200) || Raises(e, s', w) > 0
  {
    ReachableInv(e, s);
    CourtesyEndsExactly(e, s);
    StepKeepsInv(s, WORKER, Tick);
    WaitingGrowsByRaises(e, Next(s, WORKER, Tick), w);
  }

  // ----- a run in which the worker overtakes a caller -----

  /** The looks of the worker while a caller is counted all the time; then it enters. */
  lemma {:induction false} LooksAndEnters(e: Engine, s: State, th: Thread, sh: Shared, i: nat) returns (cs: seq<Choice>)
    requires th.job.Prefetch? && i <= COURTESY_MAX && sh.waiting > 0 && sh.engine.Free?
    ensures Leads(e, s, WORKER, th.(pc := Courtesy(i)), sh, cs, th.(pc := WantCache(Reprobe)), sh.(engine := By(WORKER)))
    decreases COURTESY_MAX - i
  {
    var done, end := th.(pc := WantCache(Reprobe)), sh.(engine := By(WORKER));
    if i == COURTESY_MAX {
      Stay(e, s, WORKER, done, end);
      Move(e, s, WORKER, th.(pc := WantEngine), sh, Tick, done, end, [], done, end);
      cs := [Tick] + [];
      Move(e, s, WORKER, th.(pc := Courtesy(i)), sh, Tick, th.(pc := WantEngine), sh, cs, done, end);
    } else {
      cs := LooksAndEnters(e, s, th, sh, i + 1);
      Move(e, s, WORKER, th.(pc := Courtesy(i)), sh, Tick, th.(pc := Courtesy(i + 1)), sh, cs, done, end);
    }
    cs := [Tick] + cs;
  }

  const START_SHARED := Shared(Free, Free, Free, 0, EMPTY_MEM, "", false, [], [])

  const START_STATE := State(
    map[WORKER := Thread(Prefetch(""), WantQueue, EMPTY_RESULT), DESTRUCTOR := Thread(Destroy, Idle, EMPTY_RESULT)],
    START_SHARED)

  /** The worker takes a pending uncached reading and begins to look. */
  lemma WorkerBeginsToLook(e: Engine, s: State, th: Thread) returns (cs: seq<Choice>)
    requires Unlocked(s.sh) && !s.sh.stop && s.sh.pending != "" && s.sh.pending !in s.sh.mem.cache
    requires th.job.Prefetch?
    ensures Leads(e, s, WORKER, th.(pc := WantQueue), s.sh, cs,
                  th.(pc := Courtesy(0), job := Prefetch(s.sh.pending)), s.sh.(pending := ""))
  {
    var r := s.sh.pending;
    var sh, work := s.sh.(pending := ""), th.(pc := WantCache(Probe), job := Prefetch(r));
    var done := work.(pc := Courtesy(0));
    Stay(e, s, WORKER, done, sh);
    assert CacheStep(work.(pc := InCache(Probe)), sh, Probe, r) == (done, sh);
    SectionAlone(e, s, WORKER, work, sh, Probe, [], done, sh);
    cs := [Tick] + ([Tick] + []);
    assert QueueStep(th.(pc := InQueue), s.sh) == (work, sh);
    cs := QueueAlone(e, s, WORKER, th, s.sh, cs, done, sh);
  }

  /** A caller counts itself and waits. */
  lemma CallerWaits(e: Engine, s: State, u: Tid, r: string) returns (w: Schedule)
    requires MayStart(s, u, Top(r))
    ensures Goes(e, s, w, At(s, u, Thread(Top(r), WantEngine, EMPTY_RESULT), s.sh.(waiting := s.sh.waiting + 1)))
  {
    var th, sh := Thread(Top(r), Raise, EMPTY_RESULT), s.sh.(waiting := s.sh.waiting + 1);
    var done := th.(pc := WantEngine);
    Stay(e, s, u, done, sh);
    Move(e, s, u, th, s.sh, Tick, done, sh, [], done, sh);
    w := StartThen(e, s, u, Top(r), [Tick] + [], done, sh);
  }

  /** From the start: a `top1` leaves a reading for the worker, which begins to look. */
  lemma FirstLook(e: Engine, r: string, top: P.Answer) returns (w: Schedule, s: State)
    requires e.top(r, top) && top.ok && r != ""
    ensures Goes(e, START_STATE, w, s)
    ensures s.threads.Keys == {WORKER, DESTRUCTOR, 2} && s.sh.waiting == 0 && s.sh.engine.Free?
    ensures s.threads[WORKER] == Thread(Prefetch(r), Courtesy(0), EMPTY_RESULT)
  {
    var s0 := START_STATE;
    var cs := Top1Alone(e, s0, 2, r, top);
    var left, sh1 := Thread(Top(r), Notify, top.res), AfterTop1(START_SHARED, r, top);
    var w1 := StartThen(e, s0, 2, Top(r), cs, left, sh1);
    var s1 := At(s0, 2, left, sh1);
    var looking, w2 := LookingGoes(e, s1);
    s := At(s1, WORKER, looking, sh1.(pending := ""));
    Then(e, s0, w1, s1, w2, s);
    w := w1 + w2;
  }

  /** A second caller counts itself before the first look, and still the worker gets the
      engine first. */
  lemma PrefetchOvertakes(e: Engine, r: string, top: P.Answer) returns (w: Schedule, end: State)
    requires e.top(r, top) && top.ok && r != ""
    ensures Goes(e, START_STATE, w, end) && Reachable(e, end)
    ensures end.sh.engine == By(WORKER) && end.sh.waiting == 1
    ensures 3 in end.threads && end.threads[3].pc == WantEngine
  {
    var w0, s2 := FirstLook(e, r, top);
    var w3 := CallerWaits(e, s2, 3, r);
    var s3 := At(s2, 3, Thread(Top(r), WantEngine, EMPTY_RESULT), s2.sh.(waiting := 1));
    Then(e, START_STATE, w0, s2, w3, s3);
    var w4 := EnteringGoes(e, s3);
    end := At(s3, WORKER, s3.threads[WORKER].(pc := WantCache(Reprobe)), s3.sh.(engine := By(WORKER)));
    Then(e, START_STATE, w0 + w3, s3, w4, end);
    w := w0 + w3 + w4;
    assert Init(START_STATE);
  }

  lemma LookingGoes(e: Engine, s: State) returns (looking: Thread, w: Schedule)
    requires WORKER in s.threads && s.threads[WORKER] == Thread(Prefetch(""), WantQueue, EMPTY_RESULT)
    requires Unlocked(s.sh) && !s.sh.stop && s.sh.pending != "" && s.sh.pending !in s.sh.mem.cache
    ensures looking == Thread(Prefetch(s.sh.pending), Courtesy(0), EMPTY_RESULT)
    ensures Goes(e, s, w, At(s, WORKER, looking, s.sh.(pending := "")))
  {
    var th := s.threads[WORKER];
    var cs := WorkerBeginsToLook(e, s, th);
    looking, w := Thread(Prefetch(s.sh.pending), Courtesy(0), EMPTY_RESULT), Steps(WORKER, cs);
    assert At(s, WORKER, th, s.sh) == s;
  }

  lemma EnteringGoes(e: Engine, s: State) returns (w: Schedule)
    requires WORKER in s.threads && s.threads[WORKER].job.Prefetch? && s.threads[WORKER].pc == Courtesy(0)
    requires s.sh.waiting > 0 && s.sh.engine.Free?
    ensures Goes(e, s, w, At(s, WORKER, s.threads[WORKER].(pc := WantCache(Reprobe)), s.sh.(engine := By(WORKER))))
  {
    var th := s.threads[WORKER];
    var cs := LooksAndEnters(e, s, th, s.sh, 0);
    w := Steps(WORKER, cs);
    assert At(s, WORKER, th, s.sh) == s;
  }
}
