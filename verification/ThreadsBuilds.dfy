/** When a reading is built only once: if no two calls or prefetches of one reading overlap
    between their second look at the cache and their store; and only then, for from any
    such overlap some schedule stores the reading while it is cached. */
module ThreadsBuilds {
  import opened Proto
  import opened Candidates
  import opened Threads
  import opened ThreadsLocks
  import opened ThreadsSolo
  import P = HarnessProtocol

  /** Past the second look, which missed, and not yet past the store. */
  predicate Building(th: Thread) {
    && (th.job.Cands? || th.job.Prefetch?)
    && match th.pc
       case WantCache(op) => op.Take? || op.Store?
       case InCache(op) => op.Take? || op.Store?
       case CallTop(_) => true
       case InTop(_) => true
       case CallConvert(_, _) => true
       case InConvert(_, _) => true
       case FreeEngine(next) => next.StoreIt?
       case _ => false
  }

  predicate Apart(s: State) {
    forall t <- s.threads, u <- s.threads ::
      t != u && Building(s.threads[t]) && Building(s.threads[u]) ==> s.threads[t].job.r != s.threads[u].job.r
  }

  /** Whoever builds finds its reading uncached. */
  predicate BuildersMiss(s: State) {
    forall t <- s.threads :: Building(s.threads[t]) ==> s.threads[t].job.r !in s.sh.mem.cache
  }

  function Readings(puts: seq<(string, ConvertResult)>): seq<string> {
    if puts == [] then [] else Readings(puts[..|puts| - 1]) + [puts[|puts| - 1].0]
  }

  lemma PutKeepsUncached(m: Mem, r: string, v: ConvertResult, x: string)
    requires x !in m.cache && x != r
    ensures x !in Put(m, r, v).cache
  {
  }

  /** What a move may do to the cache: the store of a builder, or nothing. */
  predicate StoresOrNothing(th: Thread, sh: Shared, sh': Shared) {
    if th.pc == InCache(Store) && Building(th)
    then sh'.mem == Put(sh.mem, th.job.r, th.out)
         && sh'.entered == sh.entered + [th.job.r] && sh'.puts == sh.puts + [(th.job.r, th.out)]
    else sh'.mem.cache == sh.mem.cache && sh'.entered == sh.entered && sh'.puts == sh.puts
  }

  predicate StillMisses(th: Thread, th': Thread, sh': Shared) {
    Building(th') ==> th'.job == th.job && th'.job.r !in sh'.mem.cache
  }

  lemma CacheStepBuilds(th: Thread, sh: Shared, op: Op)
    requires th.pc == InCache(op) && FitsOp(th.job, op) && !th.job.Destroy?
    requires Building(th) ==> th.job.r !in sh.mem.cache
    ensures var (th', sh') := CacheStep(th, sh, op, th.job.r); StoresOrNothing(th, sh, sh') && StillMisses(th, th', sh')
  {
  }

  lemma LocalBuilds(t: Tid, th: Thread, sh: Shared, c: Choice)
    requires RightJob(t, th.job) && Fits(th.job, th.pc)
    requires Building(th) ==> th.job.r !in sh.mem.cache
    ensures var (th', sh') := Local(t, th, sh, c); StoresOrNothing(th, sh, sh') && StillMisses(th, th', sh')
  {
    if th.pc.InCache? {
      CacheStepBuilds(th, sh, th.pc.op);
    }
  }

  lemma StepKeepsMiss(s: State, t: Tid, c: Choice)
    requires Typed(s) && Apart(s) && BuildersMiss(s) && Readings(s.sh.puts) == s.sh.entered && Enabled(s, t, c)
    ensures var s' := Next(s, t, c); BuildersMiss(s') && Readings(s'.sh.puts) == s'.sh.entered
  {
    var s' := Next(s, t, c);
    OneThreadMoves(s, t, c);
    if c.Start? {
      assert s'.sh == s.sh;
    } else {
      LocalBuilds(t, s.threads[t], s.sh, c);
      if s'.sh.puts != s.sh.puts {
        assert s'.sh.puts[..|s.sh.puts|] == s.sh.puts;
      }
    }
    forall u <- s'.threads | Building(s'.threads[u]) ensures s'.threads[u].job.r !in s'.sh.mem.cache {
      if u != t {
        assert Building(s.threads[u]) && s.threads[u] == s'.threads[u];
        if !c.Start? && s.threads[t].pc == InCache(Store) && Building(s.threads[t]) {
          PutKeepsUncached(s.sh.mem, s.threads[t].job.r, s.threads[t].out, s.threads[u].job.r);
        }
      }
    }
  }

  /** In no state of the run do two builders share a reading. */
  predicate ApartThroughout(e: Engine, s: State, w: Schedule)
    requires Feasible(e, s, w)
    decreases |w|
  {
    Apart(s) && (w == [] || ApartThroughout(e, Next(s, w[0].0, w[0].1), w[1..]))
  }

  lemma {:induction false} RunKeepsMiss(e: Engine, s: State, w: Schedule)
    requires Typed(s) && BuildersMiss(s) && Readings(s.sh.puts) == s.sh.entered
    requires Feasible(e, s, w) && ApartThroughout(e, s, w)
    ensures BuildersMiss(Run(e, s, w)) && Readings(Run(e, s, w).sh.puts) == Run(e, s, w).sh.entered
    decreases |w|
  {
    if w != [] {
      StepKeepsMiss(s, w[0].0, w[0].1);
      StepKeepsTyped(s, w[0].0, w[0].1);
      RunKeepsMiss(e, Next(s, w[0].0, w[0].1), w[1..]);
    }
  }

  /** Without such an overlap every store finds its reading uncached: whoever is about to
      store does so now, and every value stored so far entered its reading anew. */
  lemma NoOverlapNoSecondBuild(e: Engine, s: State, w: Schedule)
    requires Init(s) && Feasible(e, s, w) && ApartThroughout(e, s, w)
    ensures BuildersMiss(Run(e, s, w)) && Readings(Run(e, s, w).sh.puts) == Run(e, s, w).sh.entered
  {
    InitInv(s);
    RunKeepsMiss(e, s, w);
  }

  // ----- an overlap, and what can come of it -----

  lemma OneStep(e: Engine, s: State, x: Tid, c: Choice) returns (w: Schedule)
    requires Can(e, s, x, c) && !c.Start? && !s.threads[x].pc.Notify?
    ensures var (th, sh) := Local(x, s.threads[x], s.sh, c); Goes(e, s, w, At(s, x, th, sh))
  {
    w := [(x, c)];
    assert w[1..] == [];
  }

  lemma AgainAt(s: State, x: Tid, th: Thread, sh: Shared, th': Thread, sh': Shared)
    ensures At(At(s, x, th, sh), x, th', sh') == At(s, x, th', sh')
  {
    assert s.threads[x := th][x := th'] == s.threads[x := th'];
  }

  /** How far a builder is from its store. */
  function Ahead(pc: Pc): nat {
    match pc
    case WantCache(op) => if op.Take? then 7 else 0
    case CallTop(_) => 5
    case InTop(_) => 4
    case CallConvert(_, _) => 3
    case InConvert(_, _) => 2
    case FreeEngine(_) => 1
    case _ => 0
  }

  /** While the cache lock is free, a builder can go on until it is about to store. */
  lemma {:induction false} GoesToStore(e: Engine, s: State, x: Tid, top: P.Answer, conv: P.Answer)
      returns (w: Schedule, th: Thread, sh: Shared)
    requires x in s.threads && Building(s.threads[x]) && !s.threads[x].pc.InCache? && s.sh.cacheMu.Free?
    requires e.top(s.threads[x].job.r, top) && e.conv(s.threads[x].job.r, conv) && conv.ok
    ensures Goes(e, s, w, At(s, x, th, sh)) && th.job == s.threads[x].job && th.pc == WantCache(Store)
    ensures sh.mem.cache == s.sh.mem.cache && sh.cacheMu.Free?
    decreases Ahead(s.threads[x].pc)
  {
    var before := s.threads[x];
    if before.pc == WantCache(Store) {
      w, th, sh := [], before, s.sh;
      assert At(s, x, th, sh) == s;
    } else {
      var w1, mid := BuilderStep(e, s, x, top, conv);
      var w2;
      w2, th, sh := GoesToStore(e, mid, x, top, conv);
      AgainAt(s, x, mid.threads[x], mid.sh, th, sh);
      Then(e, s, w1, mid, w2, At(s, x, th, sh));
      w := w1 + w2;
    }
  }

  /** One step towards the store, or the whole critical section that takes the hint. */
  lemma BuilderStep(e: Engine, s: State, x: Tid, top: P.Answer, conv: P.Answer) returns (w: Schedule, mid: State)
    requires x in s.threads && Building(s.threads[x]) && !s.threads[x].pc.InCache? && s.sh.cacheMu.Free?
    requires s.threads[x].pc != WantCache(Store)
    requires e.top(s.threads[x].job.r, top) && e.conv(s.threads[x].job.r, conv) && conv.ok
    ensures Goes(e, s, w, mid) && x in mid.threads && mid == At(s, x, mid.threads[x], mid.sh)
    ensures Building(mid.threads[x]) && !mid.threads[x].pc.InCache? && mid.threads[x].job == s.threads[x].job
    ensures mid.sh.cacheMu.Free? && mid.sh.mem.cache == s.sh.mem.cache
    ensures Ahead(mid.threads[x].pc) < Ahead(s.threads[x].pc)
  {
    var before := s.threads[x];
    if before.pc.WantCache? {
      var w1 := OneStep(e, s, x, Tick);
      var (th, sh) := Local(x, before, s.sh, Tick);
      var inside := At(s, x, th, sh);
      var w2 := OneStep(e, inside, x, Tick);
      var (th2, sh2) := Local(x, th, sh, Tick);
      mid := At(s, x, th2, sh2);
      AgainAt(s, x, th, sh, th2, sh2);
      Then(e, s, w1, inside, w2, mid);
      w := w1 + w2;
    } else {
      var c := if before.pc.InTop? then Answered(top) else if before.pc.InConvert? then Answered(conv) else Tick;
      w := OneStep(e, s, x, c);
      var (th, sh) := Local(x, before, s.sh, c);
      mid := At(s, x, th, sh);
    }
  }

  /** A thread about to store a reading that is cached already. */
  predicate StoresAgain(s: State, x: Tid, r: string) {
    && x in s.threads && s.threads[x].pc == InCache(Store) && (s.threads[x].job.Cands? || s.threads[x].job.Prefetch?)
    && s.threads[x].job.r == r && r in s.sh.mem.cache
  }

  /** One builder left, its reading cached meanwhile. */
  lemma LastBuilder(e: Engine, s: State, x: Tid, top: P.Answer, conv: P.Answer) returns (w: Schedule, end: State)
    requires x in s.threads && Building(s.threads[x]) && !s.threads[x].pc.InCache? && s.sh.cacheMu.Free?
    requires e.top(s.threads[x].job.r, top) && e.conv(s.threads[x].job.r, conv) && conv.ok
    requires s.threads[x].job.r in s.sh.mem.cache
    ensures Goes(e, s, w, end) && StoresAgain(end, x, s.threads[x].job.r)
  {
    var w1, th, sh := GoesToStore(e, s, x, top, conv);
    var mid := At(s, x, th, sh);
    var w2 := OneStep(e, mid, x, Tick);
    var (th2, sh2) := Local(x, th, sh, Tick);
    end := At(mid, x, th2, sh2);
    Then(e, s, w1, mid, w2, end);
    w := w1 + w2;
  }

  /** The store itself. */
  lemma StoreGoes(e: Engine, s: State, x: Tid) returns (w: Schedule, th: Thread, sh: Shared)
    requires x in s.threads && s.sh.cacheMu.Free? && s.threads[x].pc == WantCache(Store)
    requires s.threads[x].job.Cands? || s.threads[x].job.Prefetch?
    ensures Goes(e, s, w, At(s, x, th, sh)) && s.threads[x].job.r in sh.mem.cache && sh.cacheMu.Free?
  {
    var w1 := OneStep(e, s, x, Tick);
    var (th1, sh1) := Local(x, s.threads[x], s.sh, Tick);
    var inside := At(s, x, th1, sh1);
    var w2 := OneStep(e, inside, x, Tick);
    th, sh := Local(x, th1, sh1, Tick).0, Local(x, th1, sh1, Tick).1;
    AgainAt(s, x, th1, sh1, th, sh);
    Then(e, s, w1, inside, w2, At(s, x, th, sh));
    w := w1 + w2;
  }

  lemma TwoBuilders(e: Engine, s: State, t: Tid, u: Tid, top: P.Answer, conv: P.Answer) returns (w: Schedule, end: State)
    requires t != u && t in s.threads && u in s.threads && s.sh.cacheMu.Free?
    requires Building(s.threads[t]) && !s.threads[t].pc.InCache? && Building(s.threads[u]) && !s.threads[u].pc.InCache?
    requires s.threads[t].job.r == s.threads[u].job.r
    requires e.top(s.threads[u].job.r, top) && e.conv(s.threads[u].job.r, conv) && conv.ok
    ensures Goes(e, s, w, end) && StoresAgain(end, u, s.threads[u].job.r)
  {
    var w1, th1, sh1 := GoesToStore(e, s, t, top, conv);
    var s1 := At(s, t, th1, sh1);
    var w2, th2, sh2 := StoreGoes(e, s1, t);
    var s2 := At(s1, t, th2, sh2);
    Then(e, s, w1, s1, w2, s2);
    assert s2.threads[u] == s.threads[u];
    var w3;
    w3, end := LastBuilder(e, s2, u, top, conv);
    Then(e, s, w1 + w2, s2, w3, end);
    w := w1 + w2 + w3;
  }

  /** Whoever holds the cache lock leaves it in one step; a builder goes on building or has
      stored its reading. */
  lemma LockIsLeft(e: Engine, s: State, o: Tid) returns (w: Schedule, th: Thread, sh: Shared)
    requires Inv(s) && s.sh.cacheMu == By(o)
    ensures o in s.threads && s.threads[o].pc.InCache? && Goes(e, s, w, At(s, o, th, sh)) && sh.cacheMu.Free?
    ensures Building(s.threads[o]) ==>
      if s.threads[o].pc == InCache(Store) then s.threads[o].job.r in sh.mem.cache
      else Building(th) && !th.pc.InCache? && th.job == s.threads[o].job
  {
    assert LockMatches(s, CacheLock);
    w := OneStep(e, s, o, Tick);
    th, sh := Local(o, s.threads[o], s.sh, Tick).0, Local(o, s.threads[o], s.sh, Tick).1;
  }

  /** The other direction: from a reachable state in which two builders share a reading that
      the engine can convert, some schedule stores the reading while it is cached. */
  lemma OverlapCanBuildTwice(e: Engine, s: State, t: Tid, u: Tid, top: P.Answer, conv: P.Answer)
      returns (w: Schedule, end: State)
    requires Reachable(e, s) && t != u && t in s.threads && u in s.threads
    requires Building(s.threads[t]) && Building(s.threads[u]) && s.threads[t].job.r == s.threads[u].job.r
    requires e.top(s.threads[u].job.r, top) && e.conv(s.threads[u].job.r, conv) && conv.ok
    ensures Goes(e, s, w, end)
    ensures StoresAgain(end, t, s.threads[u].job.r) || StoresAgain(end, u, s.threads[u].job.r)
  {
    ReachableInv(e, s);
    assert LockMatches(s, CacheLock);
    if s.sh.cacheMu.Free? {
      w, end := TwoBuilders(e, s, t, u, top, conv);
    } else {
      var o := s.sh.cacheMu.t;
      var w1, th, sh := LockIsLeft(e, s, o);
      var mid := At(s, o, th, sh);
      var w2;
      if (o == t || o == u) && s.threads[o].pc == InCache(Store) {
        w2, end := LastBuilder(e, mid, if o == t then u else t, top, conv);
      } else {
        w2, end := TwoBuilders(e, mid, t, u, top, conv);
      }
      Then(e, s, w1, mid, w2, end);
      w := w1 + w2;
    }
  }
}
