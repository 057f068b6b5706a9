/** What a candidate list holds, said in terms of what the workers print: every candidate of
    the printed block and no other, behind the commit, and every enriched entry by the first
    of its surface.  Both for one call over the batch engine and for every interleaving. */
module ListMeaning {
  import opened Lines
  import opened Proto
  import opened HarnessProtocol
  import opened WorkerInput
  import opened HarnessReplies
  import opened BatchMeaning
  import opened Candidates
  import opened Session
  import T = Threads
  import C = ThreadsCache

  // ----- what is asked of the engine -----

  /** The list is built from the answer to `henkan` and the uncut answer to `convert`, asked in
      this order, once each. */
  lemma ConsultIsUncut(h: Harn, r: string)
    ensures var (h1, top) := RunCmd(h, HenkanLine(r), EMPTY_RESULT);
      var (h2, full) := RunCmd(h1, ConvertLine(r), EMPTY_RESULT);
      Consult(h, r) == (h2, top, full)
  {
  }

  lemma AttemptExtends(s: Harn, line: string, err: string)
    ensures s.trace <= Attempt(s, line, err).0.trace
  {
  }

  lemma {:induction false} WriteExtends(s: Harn, line: string, attempts: nat, err: string)
    ensures s.trace <= WriteCmd(s, line, attempts, err).0.trace
    decreases attempts
  {
    if attempts > 0 {
      var (t, outcome, e) := Attempt(s, line, err);
      AttemptExtends(s, line, err);
      if outcome.Lost? {
        WriteExtends(t, line, attempts - 1, e);
      }
    }
  }

  lemma CommandExtends(s: Harn, line: string, out: ConvertResult)
    ensures s.trace <= RunCmd(s, line, out).0.trace
  {
    WriteExtends(s, line, 2, "");
  }

  lemma FaithfulBefore(say: Answering, trace: seq<Event>, more: seq<Event>)
    requires trace <= more && AllPolite(more) && Faithful(say, more)
    ensures AllPolite(trace) && Faithful(say, trace)
  {
    forall i | 0 <= i < |trace| ensures Polite(trace[i]) && FaithfulAt(say, trace, i) {
      assert trace[i] == more[i] && Polite(more[i]) && FaithfulAt(say, more, i);
    }
  }

  /** Over faithful workers the two answers are what they have to say to the two questions. */
  lemma ConsultIsSaid(say: Answering, h: Harn, r: string)
    requires Inv(h) && Single(Commands(HenkanLine(r))) && Single(Commands(ConvertLine(r)))
    requires var h2 := Consult(h, r).0; AllPolite(h2.trace) && Faithful(say, h2.trace)
    ensures var (_, top, full) := Consult(h, r);
      && (top.ok ==> top.res == Said(say(Henkan(r))))
      && (full.ok ==> full.res == Said(say(FullList(r))))
  {
    ConsultIsUncut(h, r);
    WordsAreQuestions(r);
    var (h1, top) := RunCmd(h, HenkanLine(r), EMPTY_RESULT);
    var (h2, full) := RunCmd(h1, ConvertLine(r), EMPTY_RESULT);
    CommandExtends(h1, ConvertLine(r), EMPTY_RESULT);
    FaithfulBefore(say, h1.trace, h2.trace);
    RunCmdKeepsInv(h, HenkanLine(r), EMPTY_RESULT);
    if top.ok {
      CommandIsAnswered(say, h, HenkanLine(r), Henkan(r));
    }
    if full.ok {
      CommandIsAnswered(say, h1, ConvertLine(r), FullList(r));
    }
  }

  // ----- what a list holds -----

  /** A non-empty commit leads; besides it the list holds exactly the other printed values. */
  ghost predicate HoldsFlat(v: ConvertResult, printed: seq<string>) {
    && (v.commit != "" ==> v.candidates != [] && v.candidates[0] == v.commit)
    && forall x :: x in v.candidates <==> (x in printed && x != v.commit) || (x == v.commit && x != "")
  }

  /** One entry for each printed surface, the first that was printed. */
  ghost predicate HoldsRich(v: ConvertResult, printed: seq<Candidate>) {
    && (forall c :: c in v.candidatesEx ==> c in printed)
    && (forall i :: 0 <= i < |printed| && (forall j :: 0 <= j < i ==> printed[j].surface != printed[i].surface) ==>
          printed[i] in v.candidatesEx)
    && (forall i, j :: 0 <= i < j < |v.candidatesEx| ==> v.candidatesEx[i].surface != v.candidatesEx[j].surface)
  }

  lemma BuiltHoldsFlat(hint: string, top: Answer, full: ConvertResult)
    ensures HoldsFlat(BuildResult(hint, top, full), full.candidates)
  {
    var v := BuildResult(hint, top, full);
    var others := Without(full.candidates, v.commit);
    assert v.candidates == (if v.commit != "" then [v.commit] else []) + others;
    forall x ensures x in v.candidates <==> (x in full.candidates && x != v.commit) || (x == v.commit && x != "") {
      WithoutKeeps(full.candidates, v.commit, x);
    }
  }

  lemma BuiltHoldsRich(hint: string, top: Answer, full: ConvertResult)
    ensures HoldsRich(BuildResult(hint, top, full), top.res.candidatesEx + full.candidatesEx)
  {
    BuiltEnrichedList(hint, top, full);
    var all, ex := top.res.candidatesEx + full.candidatesEx, BuildResult(hint, top, full).candidatesEx;
    var idx :| Picks(all, ex, idx) && forall i :: 0 <= i < |all| ==> (i in idx <==> NewAt(all, i));
    forall c | c in ex ensures c in all {
      var k :| 0 <= k < |ex| && ex[k] == c;
      assert ex[k] == all[idx[k]];
    }
    forall i | 0 <= i < |all| && (forall j :: 0 <= j < i ==> all[j].surface != all[i].surface) ensures all[i] in ex {
      assert NewAt(all, i);
      var k :| 0 <= k < |idx| && idx[k] == i;
      assert ex[k] == all[i];
    }
  }

  /** The commit: a remembered one, else that of henkan, else that of the list. */
  function LeadingCommit(hint: string, henkan: string, full: string): string {
    if hint != "" then hint else if henkan != "" then henkan else full
  }

  /** One call that misses the cache, over faithful workers: the list holds every candidate
      printed for the reading, the enriched entries of both questions, and nothing else; the
      maximum only cuts what is returned, never what is kept. */
  lemma ListHoldsWhatIsPrinted(say: Answering, h: Harn, m: Mem, r: string, max: int)
    requires Inv(h) && Single(Commands(HenkanLine(r))) && Single(Commands(ConvertLine(r)))
    requires var (h2, top, full) := Consult(h, r); AllPolite(h2.trace) && Faithful(say, h2.trace) && top.ok && full.ok
    requires r !in m.cache
    ensures var (_, top, full) := Consult(h, r);
      var (ok, out, m') := CandidatesCall(m, r, max, top, full);
      && ok && r in m'.cache
      && var v := m'.cache[r];
      && v.commit == LeadingCommit(HintFor(m, r), LastCommit(say(Henkan(r))), LastCommit(say(FullList(r))))
      && HoldsFlat(v, Flats(say(FullList(r))))
      && HoldsRich(v, Entries(say(Henkan(r))) + Entries(say(FullList(r))))
      && out.commit == v.commit && IsCut(out.candidates, v.candidates, max) && IsCut(out.candidatesEx, v.candidatesEx, max)
  {
    ConsultIsSaid(say, h, r);
    var (_, top, full) := Consult(h, r);
    var hint := HintFor(m, r);
    var v := BuildResult(hint, top, full.res);
    BuiltCommit(hint, top, full.res);
    BuiltHoldsFlat(hint, top, full.res);
    BuiltHoldsRich(hint, top, full.res);
    assert CandidatesCall(m, r, max, top, full).2.cache[r] == v;
    CappedIsCut(v, max);
  }

  // ----- the same for every interleaving -----

  /** The engine of the interleavings, over faithful workers: a call can fail, and one that
      does not answers with what the worker has to say. */
  function EngineOf(say: Answering): T.Engine {
    T.Engine((r: string, a: Answer) => a.ok ==> a.res == Said(say(Henkan(r))),
             (r: string, a: Answer) => a.ok ==> a.res == Said(say(FullList(r))))
  }

  /** The batch engine is such an engine. */
  lemma BatchEngineAnswersSo(say: Answering, h: Harn, r: string)
    requires Inv(h) && Single(Commands(HenkanLine(r))) && Single(Commands(ConvertLine(r)))
    requires var h2 := Consult(h, r).0; AllPolite(h2.trace) && Faithful(say, h2.trace)
    ensures var (_, top, full) := Consult(h, r); EngineOf(say).top(r, top) && EngineOf(say).conv(r, full)
  {
    ConsultIsSaid(say, h, r);
  }

  /** Whatever callers, prefetch and destructor do: a list that is returned is a cut of one that
      holds every candidate printed for its reading and leads with a commit printed for it. */
  lemma ReturnedListHoldsWhatIsPrinted(say: Answering, s: T.State, t: T.Tid)
    requires T.Reachable(EngineOf(say), s) && t in s.threads
    requires s.threads[t].job.Cands? && s.threads[t].pc == T.Returned(true)
    ensures var r, max, out := s.threads[t].job.r, s.threads[t].job.max, s.threads[t].out;
      exists v :: HoldsFlat(v, Flats(say(FullList(r))))
        && v.commit in [LastCommit(say(Henkan(r))), LastCommit(say(FullList(r)))]
        && out.commit == v.commit && IsCut(out.candidates, v.candidates, max)
        && IsCut(out.candidatesEx, v.candidatesEx, max)
  {
    var e := EngineOf(say);
    C.CandidatesAreBuilt(e, s, t);
    var r, max, out := s.threads[t].job.r, s.threads[t].job.max, s.threads[t].out;
    var v :| C.Built(e, r, v) && out == Capped(v, max);
    var hint, top, full :| C.BuiltFrom(e, r, v, hint, top, full);
    BuiltHoldsFlat(hint, top, full.res);
    BuiltCommit(hint, top, full.res);
    CappedIsCut(v, max);
    if hint != "" {
      var a :| e.top(r, a) && a.ok && a.res.commit == hint;
    }
  }
}
