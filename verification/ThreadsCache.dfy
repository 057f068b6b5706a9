/** The cache, the hints and the prefetch are invisible to callers.

    Over every schedule each stored or returned list is one that building it from
    the engine's own answers for that very reading gives; with an engine whose
    answers are functions of the reading that is one list, so hits, hints, double
    builds and evictions cannot be told apart from recomputation. */
module ThreadsCache {
  import opened Proto
  import opened Candidates
  import P = HarnessProtocol
  import opened Threads
  import opened ThreadsLocks

  // ----- the cache is a FIFO window -----

  function LastOf(xs: seq<string>, n: nat): seq<string> {
    if |xs| <= n then xs else xs[|xs| - n..]
  }

  datatype Found = Nothing | Value(v: ConvertResult)

  /** The value last stored for a reading. */
  function LastPut(puts: seq<(string, ConvertResult)>, r: string): Found {
    if puts == [] then Nothing
    else
      var (k, v) := puts[|puts| - 1];
      if k == r then Value(v) else LastPut(puts[..|puts| - 1], r)
  }

  /** The queue holds exactly the cached readings, once each: the last 64 that
      entered, in order.  Each value is the one last stored for its reading. */
  predicate Window(sh: Shared) {
    WindowOf(sh.mem, sh.entered, sh.puts)
  }

  predicate WindowOf(m: Mem, entered: seq<string>, puts: seq<(string, ConvertResult)>) {
    && NoRepeats(m.lru)
    && Elements(m.lru) == m.cache.Keys
    && m.lru == LastOf(entered, CACHE_MAX)
    && (forall r <- m.cache :: LastPut(puts, r) == Value(m.cache[r]))
  }

  lemma NewReadingEnters(lru: seq<string>, r: string)
    requires NoRepeats(lru) && r !in lru && |lru| <= CACHE_MAX
    ensures var all := lru + [r];
      var kept := all[Overflow(all)..];
      && NoRepeats(kept)
      && Elements(kept) == (Elements(lru) - Elements(all[..Overflow(all)])) + {r}
  {
    var all := lru + [r];
    var n := Overflow(all);
    assert all[|lru|] == r;
    SuffixIsTheRest(all, n);
    assert Elements(all) == Elements(lru) + {r};
    assert r !in Elements(all[..n]);
  }

  /** Without repeats, a suffix holds exactly what the prefix does not. */
  lemma SuffixIsTheRest(xs: seq<string>, n: nat)
    requires NoRepeats(xs) && n <= |xs|
    ensures NoRepeats(xs[n..]) && Elements(xs[n..]) == Elements(xs) - Elements(xs[..n])
  {
    assert xs == xs[..n] + xs[n..];
    forall x | x in xs[n..] ensures x !in xs[..n] {
      var i :| 0 <= i < |xs[n..]| && xs[n..][i] == x;
      assert xs[n + i] == x;
    }
  }

  lemma WindowSlides(entered: seq<string>, lru: seq<string>, r: string)
    requires lru == LastOf(entered, CACHE_MAX)
    ensures (lru + [r])[Overflow(lru + [r])..] == LastOf(entered + [r], CACHE_MAX)
  {
  }

  /** A store, as part of a critical section. */
  lemma StoreKeepsWindow(th: Thread, sh: Shared, r: string)
    requires Window(sh)
    ensures Window(CacheStep(th, sh, Store, r).1)
  {
    PutKeepsWindow(sh.mem, sh.entered, sh.puts, r, th.out);
  }

  lemma PutKeepsWindow(m: Mem, entered: seq<string>, puts: seq<(string, ConvertResult)>, r: string, v: ConvertResult)
    requires WindowOf(m, entered, puts)
    ensures WindowOf(Put(m, r, v), if r in m.cache then entered else entered + [r], puts + [(r, v)])
  {
    var n := Put(m, r, v);
    if r in m.cache {
      assert n.cache.Keys == m.cache.Keys;
    } else {
      NewReadingIsStored(m, r, v);
      WindowSlides(entered, m.lru, r);
    }
    forall x <- n.cache ensures LastPut(puts + [(r, v)], x) == Value(n.cache[x]) {
      LastPutAfter(puts, r, v, x);
    }
  }

  lemma NewReadingIsStored(m: Mem, r: string, v: ConvertResult)
    requires NoRepeats(m.lru) && Elements(m.lru) == m.cache.Keys && |m.lru| <= CACHE_MAX && r !in m.cache
    ensures var n := Put(m, r, v);
      NoRepeats(n.lru) && Elements(n.lru) == n.cache.Keys && n.lru == (m.lru + [r])[Overflow(m.lru + [r])..]
    ensures forall x <- Put(m, r, v).cache :: x == r || (x in m.cache && Put(m, r, v).cache[x] == m.cache[x])
  {
    assert r !in Elements(m.lru);
    NewReadingEnters(m.lru, r);
    var all := m.lru + [r];
    assert Put(m, r, v).cache.Keys == (m.cache.Keys - Elements(all[..Overflow(all)])) + {r};
  }

  lemma LastPutAfter(puts: seq<(string, ConvertResult)>, r: string, v: ConvertResult, x: string)
    ensures LastPut(puts + [(r, v)], x) == if x == r then Value(v) else LastPut(puts, x)
  {
    assert (puts + [(r, v)])[..|puts|] == puts;
  }

  /** No other step touches the cache. */
  lemma OnlyStoresChangeTheCache(t: Tid, th: Thread, sh: Shared, c: Choice)
    requires th.pc != InCache(Store) || th.job.Destroy?
    ensures var sh' := Local(t, th, sh, c).1;
      && sh'.mem.cache == sh.mem.cache && sh'.mem.lru == sh.mem.lru
      && sh'.entered == sh.entered && sh'.puts == sh.puts
  {
  }

  lemma LocalKeepsWindow(t: Tid, th: Thread, sh: Shared, c: Choice)
    requires Window(sh)
    ensures Window(Local(t, th, sh, c).1)
  {
    if th.pc == InCache(Store) && !th.job.Destroy? {
      StoreKeepsWindow(th, sh, th.job.r);
    } else {
      OnlyStoresChangeTheCache(t, th, sh, c);
    }
  }

  // ----- where values come from -----

  /** A hint is empty or the commit of a top-1 the engine gave for the reading. */
  ghost predicate HintOk(e: Engine, r: string, hint: string) {
    hint == "" || exists a :: e.top(r, a) && a.ok && a.res.commit == hint
  }

  /** A list built from answers the engine gave for the reading. */
  ghost predicate Built(e: Engine, r: string, v: ConvertResult) {
    exists hint, top, conv :: BuiltFrom(e, r, v, hint, top, conv)
  }

  ghost predicate BuiltFrom(e: Engine, r: string, v: ConvertResult, hint: string, top: P.Answer, conv: P.Answer) {
    HintOk(e, r, hint) && e.top(r, top) && e.conv(r, conv) && conv.ok && v == BuildResult(hint, top, conv.res)
  }

  /** A built list cut to the caller's maximum. */
  ghost predicate Served(e: Engine, r: string, max: int, out: ConvertResult) {
    exists v :: Built(e, r, v) && out == Capped(v, max)
  }

  ghost predicate TopGave(e: Engine, r: string, ok: bool, out: ConvertResult) {
    exists a :: e.top(r, a) && a.ok == ok && a.res == out
  }

  ghost predicate ConvFailed(e: Engine, r: string) {
    exists a :: e.conv(r, a) && !a.ok
  }

  ghost predicate SharedOk(e: Engine, sh: Shared) {
    && (forall r <- sh.mem.cache :: Built(e, r, sh.mem.cache[r]))
    && (forall r <- sh.mem.hints :: HintOk(e, r, sh.mem.hints[r]))
    && (forall i :: 0 <= i < |sh.puts| ==> Built(e, sh.puts[i].0, sh.puts[i].1))
  }

  /** What a call has returned, or is about to once it has unlocked the engine. */
  ghost predicate ResultOk(e: Engine, th: Thread, ok: bool) {
    match th.job
    case Top(r) => TopGave(e, r, ok, th.out)
    case Cands(r, max) => if ok then Served(e, r, max, th.out) else ConvFailed(e, r)
    case _ => true
  }

  ghost predicate AfterOk(e: Engine, th: Thread, next: After) {
    match next
    case Give(ok) => ResultOk(e, th, ok)
    case StoreIt => !th.job.Destroy? && Built(e, th.job.r, th.out)
    case NoteIt => ResultOk(e, th, true)
    case Again => true
  }

  ghost predicate ThreadOk(e: Engine, th: Thread) {
    Fits(th.job, th.pc) &&
    match th.pc
    case CallTop(hint) => HintOk(e, th.job.r, hint)
    case InTop(hint) => HintOk(e, th.job.r, hint)
    case CallConvert(hint, top) => HintOk(e, th.job.r, hint) && e.top(th.job.r, top)
    case InConvert(hint, top) => HintOk(e, th.job.r, hint) && e.top(th.job.r, top)
    case FreeEngine(next) => AfterOk(e, th, next)
    case WantCache(op) => OpOk(e, th, op)
    case InCache(op) => OpOk(e, th, op)
    case WantQueue => th.job.Top? ==> ResultOk(e, th, true)
    case InQueue => th.job.Top? ==> ResultOk(e, th, true)
    case Notify => th.job.Top? ==> ResultOk(e, th, true)
    case Returned(ok) => ResultOk(e, th, ok)
    case _ => true
  }

  ghost predicate OpOk(e: Engine, th: Thread, op: Op)
    requires FitsOp(th.job, op)
  {
    match op
    case Store => Built(e, th.job.r, th.out)
    case Note => ResultOk(e, th, true)
    case Check => ResultOk(e, th, true)
    case _ => true
  }

  ghost predicate CacheInv(e: Engine, s: State) {
    && Typed(s) && Window(s.sh) && SharedOk(e, s.sh)
    && forall t <- s.threads :: ThreadOk(e, s.threads[t])
  }

  lemma CacheStepOk(e: Engine, th: Thread, sh: Shared, op: Op)
    requires !th.job.Destroy? && th.pc == InCache(op) && ThreadOk(e, th) && SharedOk(e, sh)
    ensures var (th', sh') := CacheStep(th, sh, op, th.job.r); ThreadOk(e, th') && SharedOk(e, sh')
  {
    var r := th.job.r;
    if op.Note? {
      var a :| e.top(r, a) && a.ok && a.res == th.out;
      assert HintOk(e, r, th.out.commit);
    } else if op.Store? {
      StoreOk(e, th, sh, r);
    } else if r in sh.mem.cache && th.job.Cands? {
      assert Served(e, r, th.job.max, Capped(sh.mem.cache[r], th.job.max));
    }
  }

  lemma StoreOk(e: Engine, th: Thread, sh: Shared, r: string)
    requires Built(e, r, th.out) && SharedOk(e, sh)
    ensures SharedOk(e, CacheStep(th, sh, Store, r).1)
    ensures th.job.Cands? && th.job.r == r ==> Served(e, r, th.job.max, Capped(th.out, th.job.max))
  {
  }

  lemma LocalOk(e: Engine, s: State, t: Tid, c: Choice)
    requires Typed(s) && Can(e, s, t, c) && !c.Start?
    requires ThreadOk(e, s.threads[t]) && SharedOk(e, s.sh)
    ensures var (th', sh') := Local(t, s.threads[t], s.sh, c); ThreadOk(e, th') && SharedOk(e, sh')
  {
    var th := s.threads[t];
    assert RightJob(t, th.job);
    LocalKeepsTyped(t, th, s.sh, c);
    if th.pc.InCache? {
      CacheStepOk(e, th, s.sh, th.pc.op);
    } else if th.pc.InTop? {
      assert th.job.Top? ==> TopGave(e, th.job.r, c.a.ok, c.a.res);
    } else if th.pc.InConvert? {
      if c.a.ok {
        assert BuiltFrom(e, th.job.r, BuildResult(th.pc.hint, th.pc.top, c.a.res), th.pc.hint, th.pc.top, c.a);
      }
    }
  }

  lemma StepKeepsCacheInv(e: Engine, s: State, t: Tid, c: Choice)
    requires CacheInv(e, s) && Can(e, s, t, c)
    ensures CacheInv(e, Next(s, t, c))
  {
    StepKeepsTyped(s, t, c);
    OneThreadMoves(s, t, c);
    if !c.Start? {
      LocalKeepsWindow(t, s.threads[t], s.sh, c);
      LocalOk(e, s, t, c);
    }
  }

  lemma {:induction false} RunKeepsCacheInv(e: Engine, s: State, w: Schedule)
    requires CacheInv(e, s) && Feasible(e, s, w)
    ensures CacheInv(e, Run(e, s, w))
    decreases |w|
  {
    if w != [] {
      StepKeepsCacheInv(e, s, w[0].0, w[0].1);
      RunKeepsCacheInv(e, Next(s, w[0].0, w[0].1), w[1..]);
    }
  }

  lemma ReachableCacheInv(e: Engine, s: State)
    requires Reachable(e, s)
    ensures CacheInv(e, s)
  {
    var s0, w :| Init(s0) && Feasible(e, s0, w) && Run(e, s0, w) == s;
    RunKeepsCacheInv(e, s0, w);
  }

  // ----- the theorems -----

  /** Over every schedule the cache is a FIFO window of the readings that entered it,
      each with the value last stored, and everything ever stored is an uncut list
      built from the engine's answers for that reading. */
  lemma CacheIsAWindow(e: Engine, s: State)
    requires Reachable(e, s)
    ensures Window(s.sh) && |s.sh.mem.cache| <= 64 && s.sh.mem.lru == LastOf(s.sh.entered, 64)
    ensures forall i :: 0 <= i < |s.sh.puts| ==> Built(e, s.sh.puts[i].0, s.sh.puts[i].1)
  {
    ReachableCacheInv(e, s);
    SizeOfElements(s.sh.mem.lru);
  }

  lemma {:induction false} SizeOfElements(xs: seq<string>)
    ensures |Elements(xs)| <= |xs|
  {
    if xs != [] {
      SizeOfElements(xs[1..]);
      assert xs == [xs[0]] + xs[1..];
      assert Elements(xs) == {xs[0]} + Elements(xs[1..]);
    }
  }

  /** Any engine, any schedule: what `candidates` returns is a list built from the
      engine's answers for the reading asked for, cut to the maximum asked for; it
      fails only where `convert` may fail. */
  lemma CandidatesAreBuilt(e: Engine, s: State, t: Tid)
    requires Reachable(e, s) && t in s.threads && s.threads[t].job.Cands? && s.threads[t].pc.Returned?
    ensures var Thread(Cands(r, max), Returned(ok), out) := s.threads[t];
      if ok then Served(e, r, max, out) else ConvFailed(e, r)
  {
    ReachableCacheInv(e, s);
    assert ThreadOk(e, s.threads[t]);
  }

  /** What `top1` returns is an answer of `topOne` for the reading asked for. */
  lemma Top1IsTheAnswer(e: Engine, s: State, t: Tid)
    requires Reachable(e, s) && t in s.threads && s.threads[t].job.Top? && s.threads[t].pc.Returned?
    ensures var Thread(Top(r), Returned(ok), out) := s.threads[t]; TopGave(e, r, ok, out)
  {
    ReachableCacheInv(e, s);
    assert ThreadOk(e, s.threads[t]);
  }

  /** An engine whose answers, failures included, are functions of the reading. */
  function Fixed(top: string -> P.Answer, conv: string -> P.Answer): Engine {
    Engine((r, a) => a == top(r), (r, a) => a == conv(r))
  }

  /** The recomputation: no cache, no hint, no prefetch. */
  function Recomputed(top: string -> P.Answer, conv: string -> P.Answer, r: string): ConvertResult {
    BuildResult("", top(r), conv(r).res)
  }

  lemma OneBuildPerReading(top: string -> P.Answer, conv: string -> P.Answer, r: string, v: ConvertResult)
    ensures Built(Fixed(top, conv), r, v) <==> conv(r).ok && v == Recomputed(top, conv, r)
  {
    var e := Fixed(top, conv);
    if Built(e, r, v) {
      var hint, t, c :| BuiltFrom(e, r, v, hint, t, c);
      HintIsInvisible(hint, t, c.res);
    }
    if conv(r).ok && v == Recomputed(top, conv, r) {
      assert BuiltFrom(e, r, v, "", top(r), conv(r));
    }
  }

  /** The main theorem.  With an engine that answers each reading always the same
      way, every `candidates(r, max)` in every interleaving with other callers and
      the prefetch worker succeeds exactly when `convert(r)` does, and then returns
      exactly the recomputed list for r, cut to max. */
  lemma CacheIsInvisible(top: string -> P.Answer, conv: string -> P.Answer, s: State, t: Tid)
    requires Reachable(Fixed(top, conv), s)
    requires t in s.threads && s.threads[t].job.Cands? && s.threads[t].pc.Returned?
    ensures var Thread(Cands(r, max), Returned(ok), out) := s.threads[t];
      && ok == conv(r).ok
      && (ok ==> out == Capped(Recomputed(top, conv, r), max))
  {
    CandidatesAreBuilt(Fixed(top, conv), s, t);
    var Thread(Cands(r, max), Returned(ok), out) := s.threads[t];
    if ok {
      var v :| Built(Fixed(top, conv), r, v) && out == Capped(v, max);
      OneBuildPerReading(top, conv, r, v);
    }
  }

  /** The candidate window agrees with the inline conversion: with such an engine a
      list leads with the commit that `top1` returned for the reading. */
  lemma ListLeadsWithTop1(top: string -> P.Answer, conv: string -> P.Answer, s: State, t: Tid, u: Tid)
    requires Reachable(Fixed(top, conv), s)
    requires t in s.threads && s.threads[t].job.Cands? && s.threads[t].pc == Returned(true)
    requires u in s.threads && s.threads[u].job.Top? && s.threads[u].pc == Returned(true)
    requires s.threads[t].job.r == s.threads[u].job.r && s.threads[u].out.commit != ""
    ensures var list := s.threads[t].out;
      list.commit == s.threads[u].out.commit && list.candidates != [] && list.candidates[0] == list.commit
  {
    var r, max := s.threads[t].job.r, s.threads[t].job.max;
    CacheIsInvisible(top, conv, s, t);
    Top1IsTheAnswer(Fixed(top, conv), s, u);
    TopGaveFixed(top, conv, r, s.threads[u].out);
    RecomputedLeadsWithTop1(top, conv, r, max);
  }

  lemma TopGaveFixed(top: string -> P.Answer, conv: string -> P.Answer, r: string, out: ConvertResult)
    requires TopGave(Fixed(top, conv), r, true, out)
    ensures top(r).ok && out == top(r).res
  {
  }

  lemma RecomputedLeadsWithTop1(top: string -> P.Answer, conv: string -> P.Answer, r: string, max: int)
    requires top(r).ok && top(r).res.commit != ""
    ensures var list := Capped(Recomputed(top, conv, r), max);
      list.commit == top(r).res.commit && list.candidates != [] && list.candidates[0] == list.commit
  {
    BuiltCommit("", top(r), conv(r).res);
    BuiltListLeadsWithCommit("", top(r), conv(r).res);
  }
}
