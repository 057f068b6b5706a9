/** When a conversation fits on lines: if the workers print clean lines, every text that the
    stack hands out is clean, whatever is asked and whatever goes wrong. */
module StackClean {
  import opened Lines
  import P = Process
  import opened Proto
  import opened Wrappers
  import opened Wire
  import opened Candidates
  import opened Tidy
  import opened TidyEngines
  import opened Relay
  import opened Stack
  import opened EndToEnd
  import opened Client
  import B = Session
  import H = HarnessProtocol
  import S = SessionProtocol

  predicate CleanMem(m: Mem) {
    && (forall r <- m.cache :: CleanResult(m.cache[r]))
    && forall r <- m.hints :: Clean(m.hints[r])
  }

  predicate CleanStack(b: Stack) {
    TidyHarn(b.harn) && TidySess(b.sess) && CleanMem(b.mem)
  }

  // ----- the memory and the built list -----

  lemma {:induction false} WithoutIsClean(xs: seq<string>, x: string)
    requires AllClean(xs)
    ensures AllClean(Without(xs, x))
  {
    if xs != [] {
      WithoutIsClean(xs[..|xs| - 1], x);
    }
  }

  lemma {:induction false} FirstBySurfaceIsClean(ex: seq<Candidate>)
    requires CleanEntries(ex)
    ensures CleanEntries(FirstBySurface(ex))
  {
    if ex != [] {
      FirstBySurfaceIsClean(ex[..|ex| - 1]);
    }
  }

  lemma BuiltIsClean(hint: string, top: H.Answer, conv: ConvertResult)
    requires Clean(hint) && CleanResult(top.res) && CleanResult(conv)
    ensures CleanResult(BuildResult(hint, top, conv))
  {
    var commit := BuildResult(hint, top, conv).commit;
    WithoutIsClean(conv.candidates, commit);
    FirstBySurfaceIsClean(top.res.candidatesEx + conv.candidatesEx);
  }

  lemma ListCallIsClean(m: Mem, r: string, max: int, top: H.Answer, conv: H.Answer)
    requires CleanMem(m) && CleanAnswer(top) && CleanAnswer(conv)
    ensures var (ok, res, m') := CandidatesCall(m, r, max, top, conv); CleanResult(res) && CleanMem(m')
  {
    if r in m.cache {
      CappedIsClean(m.cache[r], max);
    } else if conv.ok {
      var v := BuildResult(HintFor(m, r), top, conv.res);
      BuiltIsClean(HintFor(m, r), top, conv.res);
      CappedIsClean(v, max);
    }
  }

  // ----- one call -----

  lemma ConsultIsClean(h: H.Harn, r: string)
    requires TidyHarn(h)
    ensures var (h', top, conv) := B.Consult(h, r); TidyHarn(h') && CleanAnswer(top) && CleanAnswer(conv)
  {
    BatchCommandIsClean(h, H.HenkanLine(r), EMPTY_RESULT);
    var (h1, top) := H.TopOne(h, r, EMPTY_RESULT);
    BatchCommandIsClean(h1, H.ConvertLine(r), EMPTY_RESULT);
  }

  lemma RestIsClean(b: Stack)
    requires CleanStack(b)
    ensures CleanStack(Rested(b))
  {
    var (h, top, conv) := B.Consult(b.harn, b.pending);
    ConsultIsClean(b.harn, b.pending);
    ListCallIsClean(b.mem, b.pending, 0, top, conv);
  }

  predicate CleanText(o: Outcome) {
    match o case Failed(err) => Clean(err) case Done(res, text) => CleanResult(res) && Clean(text)
  }

  lemma NothingIsClean()
    ensures Clean("") && CleanResult(EMPTY_RESULT)
  {
  }

  lemma Top1IsClean(b: Stack, r: string)
    requires CleanStack(b)
    ensures var (b', o) := Top1On(b, r); CleanStack(b') && CleanText(o)
  {
    NothingIsClean();
    BatchCommandIsClean(b.harn, H.HenkanLine(r), EMPTY_RESULT);
  }

  lemma ListIsClean(b: Stack, r: string, max: int)
    requires CleanStack(b)
    ensures var (b', o) := ListOn(b, r, max); CleanStack(b') && CleanText(o)
  {
    NothingIsClean();
    ConsultIsClean(b.harn, r);
    var (h, top, conv) := B.Consult(b.harn, r);
    ListCallIsClean(b.mem, r, max, top, conv);
  }

  lemma SessionIsClean(b: Stack, c: S.Call)
    requires CleanStack(b) && !c.CStart? && !c.CStop?
    ensures var (b', o) := SessionOn(b, c); CleanStack(b') && CleanText(o)
  {
    NothingIsClean();
    SessionCallIsClean(b.sess, c);
  }

  /** Every call hands out clean text and leaves a clean stack. */
  lemma StepIsClean(b: Stack, c: Call)
    requires CleanStack(b)
    ensures var (b', o) := StackStep(b, c); CleanStack(b') && CleanText(o)
  {
    RestIsClean(b);
    match c
    case Top1(r) => Top1IsClean(Rested(b), r);
    case List(r, max) => ListIsClean(Rested(b), r, max);
    case _ => SessionIsClean(Rested(b), SessionCall(c));
  }

  lemma CleanTextFits(v: Verb, o: Outcome)
    requires CleanText(o)
    ensures CleanOutcome(v, o)
  {
    NothingIsClean();
  }

  // ----- conversations -----

  lemma {:induction false} TalkIsClean(b: Stack, qs: seq<Request>)
    requires CleanStack(b) && forall i :: 0 <= i < |qs| ==> CleanRequest(qs[i])
    ensures CleanTalk(StackStep, b, qs)
    decreases |qs|
  {
    if qs != [] {
      var q := qs[0];
      if !q.QPing? {
        StepIsClean(b, CallFor(q));
        CleanTextFits(VerbFor(q), StackStep(b, CallFor(q)).1);
      }
      TalkIsClean(DirectCall(StackStep, b, q).0, qs[1..]);
    }
  }

  /** A stack before its first call. */
  function FreshStack(batch: seq<P.Move>, session: seq<P.Move>, idle: seq<bool>): Stack {
    Stack(EMPTY_MEM, "", idle, H.Fresh(batch), S.Fresh(session))
  }

  lemma FreshIsClean(batch: seq<P.Move>, session: seq<P.Move>, idle: seq<bool>)
    requires TidyScript(batch, BatchLine) && TidyScript(session, SessionLine)
    ensures CleanStack(FreshStack(batch, session, idle))
  {
  }

  /** End to end over any environment whose workers print clean lines and whose errors are
      clean: for every series of clean requests and every division of both streams, the client
      gets the answers of direct calls. */
  lemma TidyWorkersMakeItDirect(batch: seq<P.Move>, session: seq<P.Move>, idle: seq<bool>, qs: seq<Request>,
                                up: seq<string>, down: seq<string>)
    requires TidyScript(batch, BatchLine) && TidyScript(session, SessionLine)
    requires forall i :: 0 <= i < |qs| ==> CleanRequest(qs[i])
    requires Concat(up) == Concat(Messages(qs))
    requires var b := FreshStack(batch, session, idle);
      Concat(down) == Concat(ServeLines(StackStep, b, LinesOf(Concat(up)), []).replies)
    ensures var b := FreshStack(batch, session, idle);
      && ServeLines(StackStep, b, LinesOf(Concat(up)), []).b == DirectCalls(StackStep, b, qs).0
      && AreDirect(Asked(qs, Up(Concat(down), [])), DirectCalls(StackStep, b, qs).1)
  {
    var b := FreshStack(batch, session, idle);
    FreshIsClean(batch, session, idle);
    TalkIsClean(b, qs);
    StackOverSocketIsDirect(b, qs, up, down);
  }
}
