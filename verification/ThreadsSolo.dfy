/** A call that nobody interferes with: its steps in the interleaving model come to
    exactly what the methods of the class `Session` do in one call. */
module ThreadsSolo {
  import opened Proto
  import opened Candidates
  import P = HarnessProtocol
  import opened Threads

  /** The state with thread t as given. */
  function At(s: State, t: Tid, th: Thread, sh: Shared): State {
    State(s.threads[t := th], sh)
  }

  predicate Unlocked(sh: Shared) {
    sh.engine.Free? && sh.cacheMu.Free? && sh.queueMu.Free?
  }

  function Steps(t: Tid, cs: seq<Choice>): Schedule {
    if cs == [] then [] else [(t, cs[0])] + Steps(t, cs[1..])
  }

  /** From (th, sh) the choices cs can be taken by thread t alone, ending in (th', sh'). */
  ghost predicate Leads(e: Engine, s: State, t: Tid, th: Thread, sh: Shared, cs: seq<Choice>, th': Thread, sh': Shared) {
    && Feasible(e, At(s, t, th, sh), Steps(t, cs))
    && Run(e, At(s, t, th, sh), Steps(t, cs)) == At(s, t, th', sh')
  }

  lemma Stay(e: Engine, s: State, t: Tid, th: Thread, sh: Shared)
    ensures Leads(e, s, t, th, sh, [], th, sh)
  {
  }

  /** One move, then the rest. */
  lemma Move(e: Engine, s: State, t: Tid, th: Thread, sh: Shared, c: Choice, mid: Thread, midSh: Shared,
             cs: seq<Choice>, th': Thread, sh': Shared)
    requires !c.Start? && !th.pc.Notify? && Can(e, At(s, t, th, sh), t, c)
    requires Local(t, th, sh, c) == (mid, midSh)
    requires Leads(e, s, t, mid, midSh, cs, th', sh')
    ensures Leads(e, s, t, th, sh, [c] + cs, th', sh')
  {
    var from := At(s, t, th, sh);
    assert from.threads[t := mid] == s.threads[t := mid];
    assert Next(from, t, c) == At(s, t, mid, midSh);
    assert ([c] + cs)[1..] == cs;
  }

  /** What `convert` leaves to do for a caller that builds the list. */
  function Converted(th: Thread, hint: string, top: P.Answer, conv: P.Answer): Thread {
    if conv.ok then th.(pc := FreeEngine(StoreIt), out := BuildResult(hint, top, conv.res))
    else th.(pc := FreeEngine(if th.job.Prefetch? then Again else Give(false)))
  }

  /** The two engine calls. */
  lemma CallsAlone(e: Engine, s: State, t: Tid, th: Thread, sh: Shared, hint: string, top: P.Answer, conv: P.Answer,
                   cs: seq<Choice>, th': Thread, sh': Shared)
    requires th.job.Cands? || th.job.Prefetch?
    requires e.top(th.job.r, top) && e.conv(th.job.r, conv)
    requires Leads(e, s, t, Converted(th, hint, top, conv), sh, cs, th', sh')
    ensures Leads(e, s, t, th.(pc := InTop(hint)), sh, [Answered(top)] + ([Tick] + ([Answered(conv)] + cs)), th', sh')
  {
    var calling, called := th.(pc := CallConvert(hint, top)), th.(pc := InConvert(hint, top));
    Move(e, s, t, called, sh, Answered(conv), Converted(th, hint, top, conv), sh, cs, th', sh');
    Move(e, s, t, calling, sh, Tick, called, sh, [Answered(conv)] + cs, th', sh');
    Move(e, s, t, th.(pc := InTop(hint)), sh, Answered(top), calling, sh, [Tick] + ([Answered(conv)] + cs), th', sh');
  }

  /** One critical section under the cache lock. */
  lemma SectionAlone(e: Engine, s: State, t: Tid, th: Thread, sh: Shared, op: Op, cs: seq<Choice>, th': Thread, sh': Shared)
    requires !th.job.Destroy? && sh.cacheMu.Free?
    requires var (mid, midSh) := CacheStep(th.(pc := InCache(op)), sh, op, th.job.r);
      Leads(e, s, t, mid, midSh, cs, th', sh')
    ensures Leads(e, s, t, th.(pc := WantCache(op)), sh, [Tick] + ([Tick] + cs), th', sh')
  {
    var inside, locked := th.(pc := InCache(op)), sh.(cacheMu := By(t));
    var (mid, midSh) := CacheStep(inside, sh, op, th.job.r);
    assert locked.(cacheMu := Free) == sh;
    Move(e, s, t, inside, locked, Tick, mid, midSh, cs, th', sh');
    Move(e, s, t, th.(pc := WantCache(op)), sh, Tick, inside, locked, [Tick] + cs, th', sh');
  }

  /** A foreground call gets the engine: it counts itself, locks, uncounts itself. */
  lemma EnterAlone(e: Engine, s: State, t: Tid, th: Thread, sh: Shared, cs: seq<Choice>, th': Thread, sh': Shared)
    requires th.job.Cands? || th.job.Top?
    requires sh.engine.Free?
    requires Leads(e, s, t, th.(pc := if th.job.Top? then CallTop("") else WantCache(Reprobe)), sh.(engine := By(t)),
                   cs, th', sh')
    ensures Leads(e, s, t, th.(pc := Raise), sh, [Tick] + ([Tick] + ([Tick] + cs)), th', sh')
  {
    var counted := sh.(waiting := sh.waiting + 1);
    var inside := counted.(engine := By(t));
    var next := th.(pc := if th.job.Top? then CallTop("") else WantCache(Reprobe));
    assert inside.(waiting := inside.waiting - 1) == sh.(engine := By(t));
    Move(e, s, t, th.(pc := Lower), inside, Tick, next, sh.(engine := By(t)), cs, th', sh');
    Move(e, s, t, th.(pc := WantEngine), counted, Tick, th.(pc := Lower), inside, [Tick] + cs, th', sh');
    Move(e, s, t, th.(pc := Raise), sh, Tick, th.(pc := WantEngine), counted, [Tick] + ([Tick] + cs), th', sh');
  }

  /** Behind the engine lock: a second look at the cache, the hint, the engine calls. */
  lemma BuildAlone(e: Engine, s: State, t: Tid, th: Thread, sh: Shared, top: P.Answer, conv: P.Answer,
                   cs: seq<Choice>, th': Thread, sh': Shared) returns (all: seq<Choice>)
    requires th.job.Cands? || th.job.Prefetch?
    requires sh.cacheMu.Free? && th.job.r !in sh.mem.cache
    requires e.top(th.job.r, top) && e.conv(th.job.r, conv)
    requires Leads(e, s, t, Converted(th, HintFor(sh.mem, th.job.r), top, conv),
                   sh.(mem := TakeHint(sh.mem, th.job.r)), cs, th', sh')
    ensures Leads(e, s, t, th.(pc := WantCache(Reprobe)), sh, all, th', sh')
  {
    var r := th.job.r;
    var hint, taken := HintFor(sh.mem, r), sh.(mem := TakeHint(sh.mem, r));
    CallsAlone(e, s, t, th, taken, hint, top, conv, cs, th', sh');
    all := [Answered(top)] + ([Tick] + ([Answered(conv)] + cs));
    Move(e, s, t, th.(pc := CallTop(hint)), taken, Tick, th.(pc := InTop(hint)), taken, all, th', sh');
    all := [Tick] + all;
    assert CacheStep(th.(pc := InCache(Take)), sh, Take, r) == (th.(pc := CallTop(hint)), taken);
    SectionAlone(e, s, t, th, sh, Take, all, th', sh');
    all := [Tick] + ([Tick] + all);
    assert CacheStep(th.(pc := InCache(Reprobe)), sh, Reprobe, r) == (th.(pc := WantCache(Take)), sh);
    SectionAlone(e, s, t, th, sh, Reprobe, all, th', sh');
    all := [Tick] + ([Tick] + all);
  }

  /** The shared state after a value was stored for a reading. */
  function Stored(sh: Shared, r: string, v: ConvertResult): Shared {
    Recorded(sh.(mem := Put(sh.mem, r, v)), r !in sh.mem.cache, r, v)
  }

  /** The records of a store. */
  function Recorded(sh: Shared, anew: bool, r: string, v: ConvertResult): Shared {
    sh.(puts := sh.puts + [(r, v)], entered := if anew then sh.entered + [r] else sh.entered)
  }

  /** Letting go of the engine and storing the list. */
  lemma StoreAlone(e: Engine, s: State, t: Tid, th: Thread, sh: Shared) returns (cs: seq<Choice>)
    requires th.job.Cands? && sh.cacheMu.Free?
    ensures Leads(e, s, t, th.(pc := FreeEngine(StoreIt)), sh, cs,
                  th.(pc := Returned(true), out := Capped(th.out, th.job.max)),
                  Stored(sh.(engine := Free), th.job.r, th.out))
  {
    var open, done := sh.(engine := Free), th.(pc := Returned(true), out := Capped(th.out, th.job.max));
    var end := Stored(open, th.job.r, th.out);
    Stay(e, s, t, done, end);
    assert CacheStep(th.(pc := InCache(Store)), open, Store, th.job.r) == (done, end);
    SectionAlone(e, s, t, th, open, Store, [], done, end);
    cs := [Tick] + ([Tick] + []);
    Move(e, s, t, th.(pc := FreeEngine(StoreIt)), sh, Tick, th.(pc := WantCache(Store)), open, cs, done, end);
    cs := [Tick] + cs;
  }

  /** The shared state when the memory has become m: a list that was built is recorded. */
  function Leaving(sh: Shared, m: Mem, r: string, top: P.Answer, conv: P.Answer): Shared {
    if r in sh.mem.cache || !conv.ok then sh.(mem := m)
    else Recorded(sh.(mem := m), true, r, BuildResult(HintFor(sh.mem, r), top, conv.res))
  }

  /** A lone `candidates` call: hit, miss or failure, it returns what the method of the
      class returns and leaves the memory as the method does, all locks free. */
  lemma CandidatesAlone(e: Engine, s: State, t: Tid, r: string, max: int, top: P.Answer, conv: P.Answer)
      returns (cs: seq<Choice>)
    requires Unlocked(s.sh) && e.top(r, top) && e.conv(r, conv)
    ensures var (ok, out, m) := CandidatesCall(s.sh.mem, r, max, top, conv);
      Leads(e, s, t, Thread(Cands(r, max), StartPc(Cands(r, max)), EMPTY_RESULT), s.sh, cs,
            Thread(Cands(r, max), Returned(ok), out), Leaving(s.sh, m, r, top, conv))
  {
    var sh, th := s.sh, Thread(Cands(r, max), WantCache(Probe), EMPTY_RESULT);
    if r in sh.mem.cache {
      var hit := th.(pc := Returned(true), out := Capped(sh.mem.cache[r], max));
      Stay(e, s, t, hit, sh);
      cs := [];
      assert CacheStep(th.(pc := InCache(Probe)), sh, Probe, r) == (hit, sh);
      SectionAlone(e, s, t, th, sh, Probe, cs, hit, sh);
    } else {
      var done, end;
      cs, done, end := MissAlone(e, s, t, th, sh, top, conv);
      assert CacheStep(th.(pc := InCache(Probe)), sh, Probe, r) == (th.(pc := Raise), sh);
      SectionAlone(e, s, t, th, sh, Probe, cs, done, end);
    }
    cs := [Tick] + ([Tick] + cs);
  }

  lemma MissAlone(e: Engine, s: State, t: Tid, th: Thread, sh: Shared, top: P.Answer, conv: P.Answer)
      returns (cs: seq<Choice>, done: Thread, end: Shared)
    requires Unlocked(sh) && th.job.Cands? && th.out == EMPTY_RESULT && th.job.r !in sh.mem.cache
    requires e.top(th.job.r, top) && e.conv(th.job.r, conv)
    ensures var (ok, out, m) := CandidatesCall(sh.mem, th.job.r, th.job.max, top, conv);
      done == Thread(th.job, Returned(ok), out) && end == Leaving(sh, m, th.job.r, top, conv)
    ensures Leads(e, s, t, th.(pc := Raise), sh, cs, done, end)
  {
    var r, inside := th.job.r, sh.(engine := By(t));
    var hint, taken := HintFor(sh.mem, r), inside.(mem := TakeHint(sh.mem, r));
    var built := Converted(th, hint, top, conv);
    if conv.ok {
      cs := StoreAlone(e, s, t, built, taken);
      done, end := built.(pc := Returned(true), out := Capped(built.out, th.job.max)), Stored(taken.(engine := Free), r, built.out);
    } else {
      done, end := built.(pc := Returned(false)), taken.(engine := Free);
      Stay(e, s, t, done, end);
      Move(e, s, t, built, taken, Tick, done, end, [], done, end);
      cs := [Tick] + [];
    }
    assert taken.(engine := Free) == sh.(mem := TakeHint(sh.mem, r));
    cs := BuildAlone(e, s, t, th, inside, top, conv, cs, done, end);
    EnterAlone(e, s, t, th, sh, cs, done, end);
    cs := [Tick] + ([Tick] + ([Tick] + cs));
  }

  /** A lone `top1` call: the answer, the remembered hint, and the reading left for the
      worker if it is not cached; then only the notification is still to come. */
  lemma Top1Alone(e: Engine, s: State, t: Tid, r: string, top: P.Answer) returns (cs: seq<Choice>)
    requires Unlocked(s.sh) && e.top(r, top)
    ensures var pc := if !top.ok then Returned(false) else if r in s.sh.mem.cache then Returned(true) else Notify;
      Leads(e, s, t, Thread(Top(r), StartPc(Top(r)), EMPTY_RESULT), s.sh, cs, Thread(Top(r), pc, top.res),
            AfterTop1(s.sh, r, top))
  {
    var sh, th := s.sh, Thread(Top(r), Raise, EMPTY_RESULT);
    var inside, said := sh.(engine := By(t)), th.(out := top.res);
    var next := if top.ok then NoteIt else Give(false);
    var done, end;
    if top.ok {
      cs, done, end := NoteAlone(e, s, t, said, sh, r);
    } else {
      cs, done, end := [], said.(pc := Returned(false)), sh;
      Stay(e, s, t, done, end);
    }
    assert inside.(engine := Free) == sh;
    Move(e, s, t, said.(pc := FreeEngine(next)), inside, Tick, said.(pc := AfterEngine(next)), sh, cs, done, end);
    cs := [Tick] + cs;
    Move(e, s, t, th.(pc := InTop("")), inside, Answered(top), said.(pc := FreeEngine(next)), inside, cs, done, end);
    cs := [Answered(top)] + cs;
    Move(e, s, t, th.(pc := CallTop("")), inside, Tick, th.(pc := InTop("")), inside, cs, done, end);
    cs := [Tick] + cs;
    EnterAlone(e, s, t, th, sh, cs, done, end);
    cs := [Tick] + ([Tick] + ([Tick] + cs));
  }

  function AfterTop1(sh: Shared, r: string, top: P.Answer): Shared {
    var (m, pending) := Top1Call(sh.mem, sh.pending, r, top);
    sh.(mem := m, pending := pending)
  }

  /** The critical section under the queue lock. */
  lemma QueueAlone(e: Engine, s: State, t: Tid, th: Thread, sh: Shared, rest: seq<Choice>, done: Thread, end: Shared)
      returns (cs: seq<Choice>)
    requires sh.queueMu.Free?
    requires Leads(e, s, t, QueueStep(th.(pc := InQueue), sh).0, QueueStep(th.(pc := InQueue), sh).1, rest, done, end)
    ensures Leads(e, s, t, th.(pc := WantQueue), sh, cs, done, end)
  {
    var inside, locked := th.(pc := InQueue), sh.(queueMu := By(t));
    var (mid, midSh) := QueueStep(inside, sh);
    assert locked.(queueMu := Free) == sh == sh.(queueMu := Free);
    Move(e, s, t, inside, locked, Tick, mid, midSh, rest, done, end);
    Move(e, s, t, th.(pc := WantQueue), sh, Tick, inside, locked, [Tick] + rest, done, end);
    cs := [Tick] + ([Tick] + rest);
  }

  lemma NoteAlone(e: Engine, s: State, t: Tid, th: Thread, sh: Shared, r: string)
      returns (cs: seq<Choice>, done: Thread, end: Shared)
    requires Unlocked(sh) && th.job == Top(r)
    ensures done == th.(pc := if r in sh.mem.cache then Returned(true) else Notify)
    ensures end == AfterTop1(sh, r, P.Answer(true, th.out, ""))
    ensures Leads(e, s, t, th.(pc := WantCache(Note)), sh, cs, done, end)
  {
    var noted := sh.(mem := Remember(sh.mem, r, th.out.commit));
    if r in sh.mem.cache {
      cs, done, end := [], th.(pc := Returned(true)), noted;
      Stay(e, s, t, done, end);
    } else {
      done, end := th.(pc := Notify), noted.(pending := r);
      Stay(e, s, t, done, end);
      cs := QueueAlone(e, s, t, th, noted, [], done, end);
    }
    var checked := th.(pc := if r in sh.mem.cache then Returned(true) else WantQueue);
    assert CacheStep(th.(pc := InCache(Check)), noted, Check, r) == (checked, noted);
    SectionAlone(e, s, t, th, noted, Check, cs, done, end);
    cs := [Tick] + ([Tick] + cs);
    assert CacheStep(th.(pc := InCache(Note)), sh, Note, r) == (th.(pc := WantCache(Check)), noted);
    SectionAlone(e, s, t, th, sh, Note, cs, done, end);
    cs := [Tick] + ([Tick] + cs);
  }

  /** The shared state after one turn of the worker for a reading that was pending. */
  function AfterPrefetch(sh: Shared, r: string, top: P.Answer, conv: P.Answer): Shared {
    Leaving(sh.(pending := ""), PrefetchCall(sh.mem, r, top, conv), r, top, conv)
  }

  /** A lone turn of the worker: it takes the pending reading, skips it if it is cached,
      and otherwise builds and stores its list, as the method of the class does. */
  lemma PrefetchAlone(e: Engine, s: State, th: Thread, top: P.Answer, conv: P.Answer)
      returns (cs: seq<Choice>, done: Thread)
    requires Unlocked(s.sh) && !s.sh.stop && s.sh.pending != "" && s.sh.waiting == 0
    requires th.job.Prefetch? && e.top(s.sh.pending, top) && e.conv(s.sh.pending, conv)
    ensures done.job == Prefetch(s.sh.pending) && done.pc == WantQueue
    ensures Leads(e, s, WORKER, th.(pc := WantQueue), s.sh, cs, done, AfterPrefetch(s.sh, s.sh.pending, top, conv))
  {
    var r := s.sh.pending;
    var sh, work := s.sh.(pending := ""), th.(pc := WantCache(Probe), job := Prefetch(r));
    var end := AfterPrefetch(s.sh, r, top, conv);
    if r in sh.mem.cache {
      cs, done := [], work.(pc := WantQueue);
      Stay(e, s, WORKER, done, end);
      assert CacheStep(work.(pc := InCache(Probe)), sh, Probe, r) == (done, sh);
    } else {
      cs, done := FetchAlone(e, s, work, sh, top, conv);
      assert CacheStep(work.(pc := InCache(Probe)), sh, Probe, r) == (work.(pc := Courtesy(0)), sh);
    }
    SectionAlone(e, s, WORKER, work, sh, Probe, cs, done, end);
    cs := [Tick] + ([Tick] + cs);
    assert QueueStep(th.(pc := InQueue), s.sh) == (work, sh);
    cs := QueueAlone(e, s, WORKER, th, s.sh, cs, done, end);
  }

  lemma FetchAlone(e: Engine, s: State, th: Thread, sh: Shared, top: P.Answer, conv: P.Answer)
      returns (cs: seq<Choice>, done: Thread)
    requires Unlocked(sh) && sh.waiting == 0 && th.job.Prefetch? && th.job.r !in sh.mem.cache
    requires e.top(th.job.r, top) && e.conv(th.job.r, conv)
    ensures done.job == th.job && done.pc == WantQueue
    ensures var r := th.job.r;
      var taken := sh.(mem := TakeHint(sh.mem, r));
      Leads(e, s, WORKER, th.(pc := Courtesy(0)), sh, cs, done,
            if conv.ok then Stored(taken, r, BuildResult(HintFor(sh.mem, r), top, conv.res)) else taken)
  {
    var r, inside := th.job.r, sh.(engine := By(WORKER));
    var taken, open := inside.(mem := TakeHint(sh.mem, r)), sh.(mem := TakeHint(sh.mem, r));
    var built := Converted(th, HintFor(sh.mem, r), top, conv);
    assert taken.(engine := Free) == open;
    done := built.(pc := WantQueue);
    var end := if conv.ok then Stored(open, r, built.out) else open;
    Stay(e, s, WORKER, done, end);
    cs := [];
    if conv.ok {
      assert CacheStep(built.(pc := InCache(Store)), open, Store, r) == (done, end);
      SectionAlone(e, s, WORKER, built, open, Store, cs, done, end);
      cs := [Tick] + ([Tick] + cs);
    }
    Move(e, s, WORKER, built, taken, Tick, built.(pc := AfterEngine(built.pc.next)), open, cs, done, end);
    cs := [Tick] + cs;
    cs := BuildAlone(e, s, WORKER, th, inside, top, conv, cs, done, end);
    Move(e, s, WORKER, th.(pc := WantEngine), sh, Tick, th.(pc := WantCache(Reprobe)), inside, cs, done, end);
    cs := [Tick] + cs;
    Move(e, s, WORKER, th.(pc := Courtesy(0)), sh, Tick, th.(pc := WantEngine), sh, cs, done, end);
    cs := [Tick] + cs;
  }

  // ----- a reading can be built twice -----

  ghost predicate Goes(e: Engine, s: State, w: Schedule, end: State) {
    Feasible(e, s, w) && Run(e, s, w) == end
  }

  lemma {:induction false} Then(e: Engine, s: State, w: Schedule, mid: State, v: Schedule, end: State)
    requires Goes(e, s, w, mid) && Goes(e, mid, v, end)
    ensures Goes(e, s, w + v, end)
    decreases |w|
  {
    if w == [] {
      assert w + v == v;
    } else {
      assert (w + v)[1..] == w[1..] + v;
      Then(e, Next(s, w[0].0, w[0].1), w[1..], mid, v, end);
    }
  }

  /** A new call, then moves of that call alone. */
  lemma StartThen(e: Engine, s: State, t: Tid, job: Job, cs: seq<Choice>, th': Thread, sh': Shared) returns (w: Schedule)
    requires MayStart(s, t, job)
    requires Leads(e, s, t, Thread(job, StartPc(job), EMPTY_RESULT), s.sh, cs, th', sh')
    ensures Goes(e, s, w, At(s, t, th', sh'))
  {
    var rest := Steps(t, cs);
    w := [(t, Start(job))] + rest;
    assert w[1..] == rest;
    assert Next(s, t, Start(job)) == At(s, t, Thread(job, StartPc(job), EMPTY_RESULT), s.sh);
  }

  /** A call that has built its list and let go of the engine, but not stored it yet. */
  lemma BuiltNotStored(e: Engine, s: State, t: Tid, r: string, top: P.Answer, conv: P.Answer) returns (cs: seq<Choice>)
    requires Unlocked(s.sh) && r !in s.sh.mem.cache && e.top(r, top) && e.conv(r, conv) && conv.ok
    ensures Leads(e, s, t, Thread(Cands(r, 0), WantCache(Probe), EMPTY_RESULT), s.sh, cs,
                  Thread(Cands(r, 0), WantCache(Store), BuildResult(HintFor(s.sh.mem, r), top, conv.res)),
                  s.sh.(mem := TakeHint(s.sh.mem, r)))
  {
    var sh, th := s.sh, Thread(Cands(r, 0), WantCache(Probe), EMPTY_RESULT);
    var inside, open := sh.(engine := By(t)), sh.(mem := TakeHint(sh.mem, r));
    var built := Converted(th, HintFor(sh.mem, r), top, conv);
    var done := built.(pc := WantCache(Store));
    Stay(e, s, t, done, open);
    Move(e, s, t, built, inside.(mem := open.mem), Tick, done, open, [], done, open);
    cs := BuildAlone(e, s, t, th, inside, top, conv, [Tick] + [], done, open);
    EnterAlone(e, s, t, th, sh, cs, done, open);
    cs := [Tick] + ([Tick] + ([Tick] + cs));
    assert CacheStep(th.(pc := InCache(Probe)), sh, Probe, r) == (th.(pc := Raise), sh);
    SectionAlone(e, s, t, th, sh, Probe, cs, done, open);
    cs := [Tick] + ([Tick] + cs);
  }

  /** The store of a call that was about to store, in whatever state it is by then. */
  lemma StoredLater(e: Engine, s: State, t: Tid, v: ConvertResult) returns (w: Schedule)
    requires s.sh.cacheMu.Free? && t in s.threads && s.threads[t].job.Cands? && s.threads[t].job.max == 0
    requires s.threads[t] == Thread(s.threads[t].job, WantCache(Store), v)
    ensures Goes(e, s, w, At(s, t, s.threads[t].(pc := Returned(true)), Stored(s.sh, s.threads[t].job.r, v)))
  {
    var th, end := s.threads[t], Stored(s.sh, s.threads[t].job.r, v);
    var done := th.(pc := Returned(true));
    Stay(e, s, t, done, end);
    assert CacheStep(th.(pc := InCache(Store)), s.sh, Store, th.job.r) == (done, end);
    SectionAlone(e, s, t, th, s.sh, Store, [], done, end);
    w := Steps(t, [Tick] + ([Tick] + []));
    assert At(s, t, th, s.sh) == s;
  }

  /** Since a list is stored after the engine is free again, a second caller can come in
      between, miss the cache and build the same reading once more. */
  lemma AReadingCanBeBuiltTwice(e: Engine, s: State, t: Tid, u: Tid, r: string, top: P.Answer, conv: P.Answer)
      returns (w: Schedule, end: State)
    requires Unlocked(s.sh) && r !in s.sh.mem.cache && e.top(r, top) && e.conv(r, conv) && conv.ok
    requires t != u && MayStart(s, t, Cands(r, 0)) && MayStart(s, u, Cands(r, 0))
    ensures Goes(e, s, w, end) && t in end.threads && u in end.threads
    ensures end.sh.puts == s.sh.puts + [(r, end.threads[u].out), (r, end.threads[t].out)]
    ensures end.threads[t].pc == end.threads[u].pc == Returned(true)
  {
    var first := BuildResult(HintFor(s.sh.mem, r), top, conv.res);
    var th, taken := Thread(Cands(r, 0), WantCache(Store), first), s.sh.(mem := TakeHint(s.sh.mem, r));
    var cs := BuiltNotStored(e, s, t, r, top, conv);
    var w1 := StartThen(e, s, t, Cands(r, 0), cs, th, taken);
    var s1 := At(s, t, th, taken);
    var w2, second, sh2 := SecondBuild(e, s1, u, r, top, conv);
    var s2 := At(s1, u, second, sh2);
    Then(e, s, w1, s1, w2, s2);
    assert s2.threads[t] == th;
    var w3 := StoredLater(e, s2, t, first);
    end := At(s2, t, th.(pc := Returned(true)), Stored(sh2, r, first));
    Then(e, s, w1 + w2, s2, w3, end);
    w := w1 + w2 + w3;
    assert s.sh.puts + [(r, second.out)] + [(r, first)] == s.sh.puts + [(r, second.out), (r, first)];
  }

  lemma SecondBuild(e: Engine, s: State, u: Tid, r: string, top: P.Answer, conv: P.Answer)
      returns (w: Schedule, th: Thread, sh: Shared)
    requires Unlocked(s.sh) && r !in s.sh.mem.cache && e.top(r, top) && e.conv(r, conv) && conv.ok
    requires MayStart(s, u, Cands(r, 0))
    ensures Goes(e, s, w, At(s, u, th, sh)) && th.job == Cands(r, 0) && th.pc == Returned(true)
    ensures sh.cacheMu.Free? && sh.puts == s.sh.puts + [(r, th.out)]
  {
    var cs := CandidatesAlone(e, s, u, r, 0, top, conv);
    var (ok, out, m) := CandidatesCall(s.sh.mem, r, 0, top, conv);
    th, sh := Thread(Cands(r, 0), Returned(ok), out), Leaving(s.sh, m, r, top, conv);
    w := StartThen(e, s, u, Cands(r, 0), cs, th, sh);
  }
}
