/** Both engines over workers that print clean lines: every payload, every list and every
    error message that a call hands out is clean, also when the call fails halfway. */
module TidyEngines {
  import opened Lines
  import opened Process
  import opened Proto
  import opened Wrappers
  import opened Wire
  import opened Tidy
  import H = HarnessProtocol
  import S = SessionProtocol

  predicate CleanResult(res: ConvertResult) {
    Clean(res.commit) && AllClean(res.candidates) && CleanEntries(res.candidatesEx)
  }

  // ----- the batch engine -----

  /** A clean line, or an enriched entry, whose tabs divide its fields. */
  predicate BatchLine(line: string) {
    Clean(Chomp(line)) || StartsWith(Chomp(line), "ATD CANDX ")
  }

  predicate TidyHarn(s: H.Harn) {
    TidyProc(s.proc, s.rbuf, BatchLine)
  }

  lemma AppendedIsClean(xs: seq<string>, x: string)
    requires AllClean(xs) && Clean(x)
    ensures AllClean(xs + [x])
  {
  }

  lemma EntryIsClean(ex: seq<Candidate>, text: string)
    requires CleanEntries(ex)
    ensures CleanEntries(ex + [H.Enriched(text)])
  {
    var fs := Fields(text);
    assert Clean(fs[0]) && (|fs| > 1 ==> Clean(fs[1])) && (|fs| > 2 ==> Clean(fs[2]));
  }

  lemma BlockLineIsClean(out: ConvertResult, line: string)
    requires CleanResult(out) && BatchLine(line)
    ensures CleanResult(H.BlockLine(out, line).st)
  {
    var l := Chomp(line);
    if StartsWith(l, "ATD ") {
      var rest := l[4..];
      if StartsWith(l, "ATD CANDX ") {
        assert l[..10][4..] == rest[..6] == "CANDX ";
        assert rest[0] == 'C' && rest[1] == 'A' && rest[4] == 'X';
        assert "BEGIN"[0] == 'B' && "END"[0] == 'E' && "COMMIT "[1] == 'O' && "CAND "[4] == ' ';
        assert !StartsWith(rest, "COMMIT ") && !StartsWith(rest, "CAND ");
        EntryIsClean(out.candidatesEx, rest[6..]);
      } else {
        CleanSuffix(l, 4);
        TagsAreClean(out, rest);
      }
    }
  }

  lemma TagsAreClean(out: ConvertResult, rest: string)
    requires CleanResult(out) && Clean(rest)
    ensures |rest| >= 7 ==> Clean(rest[7..])
    ensures |rest| >= 5 ==> AllClean(out.candidates + [rest[5..]])
    ensures |rest| >= 6 ==> CleanEntries(out.candidatesEx + [H.Enriched(rest[6..])])
  {
    if |rest| >= 6 {
      EntryIsClean(out.candidatesEx, rest[6..]);
    }
  }

  lemma BlocksKeepClean()
    ensures Keeps(H.BlockLine, CleanResult, BatchLine)
  {
    forall st, line | CleanResult(st) && BatchLine(line) ensures CleanResult(H.BlockLine(st, line).st) {
      BlockLineIsClean(st, line);
    }
  }

  predicate Anything(u: ()) {
    true
  }

  lemma ReadyKeeps(tidy: string -> bool)
    ensures Keeps(ReadyLine, Anything, tidy)
  {
  }

  lemma WarmBlame(eof: bool, rerr: string, err: string)
    requires Clean(rerr) && Clean(err)
    ensures Clean(H.Blame(eof, rerr, err, "harness died during bring-up", "warm harness did not report ready"))
  {
    assert Clean("harness died during bring-up");
    assert Clean("warm harness did not report ready");
  }

  lemma BlockBlame(eof: bool, rerr: string, err: string)
    requires Clean(rerr) && Clean(err)
    ensures Clean(H.Blame(eof, rerr, err, "engine produced no result", "engine produced no result"))
  {
    assert Clean("engine produced no result");
  }

  lemma HarnWarmIsTidy(s: H.Harn, err: string)
    requires TidyHarn(s) && Clean(err)
    ensures var (t, ok, e) := H.EnsureWarm(s, err); TidyHarn(t) && Clean(e) && (ok ==> t.proc.running)
  {
    var p := AfterSpawn(s.proc);
    SpawnIsTidy(s.proc, BatchLine);
    if p.running {
      ReadyKeeps(BatchLine);
      ReadKeeps(ReadyLine, Anything, BatchLine, (), "", p, 0, READY_TIMEOUT_MS);
      ReadingKeepsTheWorker(ReadyLine, (), "", p, 0, READY_TIMEOUT_MS);
      match ReadUntil(ReadyLine, (), "", p, 0, READY_TIMEOUT_MS)
      case Hit(_, _, _) =>
      case Miss(_, _, _, eof, rerr) => WarmBlame(eof, rerr, err);
    }
  }

  lemma AttemptIsTidy(s: H.Harn, line: string, err: string)
    requires TidyHarn(s) && Clean(err)
    ensures var (t, outcome, e) := H.Attempt(s, line, err);
      TidyHarn(t) && Clean(e) && (outcome.Delivered? ==> t.proc.running)
  {
    if !s.proc.running {
      HarnWarmIsTidy(s, err);
    }
    var t := if s.proc.running then s else H.EnsureWarm(s, err).0;
    WriteIsTidy(t.proc, t.rbuf, BatchLine);
  }

  lemma GivenUpIsClean(s: H.Harn, line: string, err: string)
    ensures H.WriteCmd(s, line, 0, err).0 == s && !H.WriteCmd(s, line, 0, err).1 && Clean(H.WriteCmd(s, line, 0, err).2)
  {
    assert Clean("harness write failed (engine not responding)");
  }

  /** What an attempt, or a series of them, leaves. */
  predicate TidyAfter(t: H.Harn, sent: bool, err: string) {
    TidyHarn(t) && Clean(err) && (sent ==> t.proc.running)
  }

  /** The rest of a series, after its first attempt. */
  function Following(line: string, attempts: nat, t: H.Harn, outcome: H.Outcome, e: string): (H.Harn, bool, string)
    requires attempts > 0
  {
    match outcome
    case Cold => (t, false, e)
    case Delivered => (t, true, e)
    case Lost => H.WriteCmd(t, line, attempts - 1, e)
  }

  lemma WriteFollows(s: H.Harn, line: string, attempts: nat, err: string)
    requires attempts > 0
    ensures var (t, outcome, e) := H.Attempt(s, line, err);
      H.WriteCmd(s, line, attempts, err) == Following(line, attempts, t, outcome, e)
  {
  }

  lemma FollowingIsTidy(line: string, attempts: nat, t: H.Harn, outcome: H.Outcome, e: string)
    requires attempts > 0 && TidyAfter(t, outcome.Delivered?, e)
    ensures var (u, ok, e') := Following(line, attempts, t, outcome, e); TidyAfter(u, ok, e')
    decreases attempts, 0
  {
    if outcome.Lost? {
      HarnWriteIsTidy(t, line, attempts - 1, e);
    }
  }

  lemma HarnWriteIsTidy(s: H.Harn, line: string, attempts: nat, err: string)
    requires TidyHarn(s) && Clean(err)
    ensures var (t, ok, e) := H.WriteCmd(s, line, attempts, err); TidyAfter(t, ok, e)
    decreases attempts, 1
  {
    if attempts == 0 {
      GivenUpIsClean(s, line, err);
    } else {
      AttemptIsTidy(s, line, err);
      WriteFollows(s, line, attempts, err);
      var (t, outcome, e) := H.Attempt(s, line, err);
      FollowingIsTidy(line, attempts, t, outcome, e);
    }
  }

  predicate CleanAnswer(a: H.Answer) {
    CleanResult(a.res) && Clean(a.err)
  }

  lemma ReadBlockIsTidy(s: H.Harn, out: ConvertResult, err: string)
    requires TidyHarn(s) && s.proc.running && CleanResult(out) && Clean(err)
    ensures var (t, a) := H.ReadBlock(s, out, err); TidyHarn(t) && CleanAnswer(a)
  {
    BlocksKeepClean();
    ReadKeeps(H.BlockLine, CleanResult, BatchLine, out, s.rbuf, s.proc, 0, H.CONVERT_TIMEOUT_MS);
    match ReadUntil(H.BlockLine, out, s.rbuf, s.proc, 0, H.CONVERT_TIMEOUT_MS)
    case Hit(_, _, _) =>
    case Miss(_, _, _, eof, rerr) => BlockBlame(eof, rerr, err);
  }

  /** A batch command hands out clean text, whether it succeeds or not. */
  lemma BatchCommandIsClean(s: H.Harn, line: string, out: ConvertResult)
    requires TidyHarn(s) && CleanResult(out)
    ensures var (t, a) := H.RunCmd(s, line, out); TidyHarn(t) && CleanAnswer(a)
  {
    assert Clean("");
    HarnWriteIsTidy(s, line, 2, "");
    var (t, sent, err) := H.WriteCmd(s, line, 2, "");
    if sent {
      ReadBlockIsTidy(t, out, err);
    }
  }

  lemma CappedIsClean(res: ConvertResult, max: int)
    requires CleanResult(res)
    ensures CleanResult(Capped(res, max))
  {
  }

  // ----- the session engine -----

  predicate SessionLine(line: string) {
    Clean(Chomp(line))
  }

  predicate TidySess(s: S.Sess) {
    TidyProc(s.proc, s.rbuf, SessionLine)
  }

  predicate CleanReply(r: S.Reply) {
    match r case Ok(text) => Clean(text) case Err(msg) => Clean(msg)
  }

  lemma RepliesKeepClean(wantCommit: bool)
    ensures Keeps(S.ReplyHandler(wantCommit), Clean, SessionLine)
  {
    forall st, line | Clean(st) && SessionLine(line) ensures Clean(S.ReplyHandler(wantCommit)(st, line).st) {
      var l := Chomp(line);
      if |l| >= 11 { CleanSuffix(l, 11); }
      if |l| >= 8 { CleanSuffix(l, 8); }
    }
  }

  lemma ReadyBlame(eof: bool, err: string)
    requires Clean(err)
    ensures Clean(S.Blame(eof, err, "session harness died during bring-up", "session harness did not report ready"))
  {
    assert Clean("session harness died during bring-up");
    assert Clean("session harness did not report ready");
  }

  lemma ReplyBlame(eof: bool, err: string)
    requires Clean(err)
    ensures Clean(S.Blame(eof, err, "session harness produced no reply", "session harness produced no reply"))
  {
    assert Clean("session harness produced no reply");
  }

  lemma WriteBlame(err: string)
    requires Clean(err)
    ensures Clean(if err == "" then "session harness write failed" else err)
  {
    assert Clean("session harness write failed");
  }

  lemma SessWarmIsTidy(s: S.Sess)
    requires TidySess(s)
    ensures var (t, r) := S.EnsureWarm(s); TidySess(t) && CleanReply(r) && (r.Ok? ==> t.proc.running)
  {
    var p := AfterSpawn(s.proc);
    SpawnIsTidy(s.proc, SessionLine);
    if p.running {
      ReadyKeeps(SessionLine);
      ReadKeeps(ReadyLine, Anything, SessionLine, (), "", p, 0, READY_TIMEOUT_MS);
      ReadingKeepsTheWorker(ReadyLine, (), "", p, 0, READY_TIMEOUT_MS);
      match ReadUntil(ReadyLine, (), "", p, 0, READY_TIMEOUT_MS)
      case Hit(_, _, _) =>
      case Miss(_, _, _, eof, err) => ReadyBlame(eof, err);
    }
  }

  lemma SendIsTidy(s: S.Sess, line: string)
    requires TidySess(s) && s.proc.running
    ensures var (t, r) := S.Send(s, line); TidySess(t) && CleanReply(r) && (r.Ok? ==> t.proc.running)
  {
    WriteIsTidy(s.proc, s.rbuf, SessionLine);
    WriteBlame(NextMove(s.proc).err);
  }

  lemma ReadReplyIsTidy(s: S.Sess, wantCommit: bool)
    requires TidySess(s) && s.proc.running
    ensures var (t, r) := S.ReadReply(s, wantCommit); TidySess(t) && CleanReply(r)
  {
    RepliesKeepClean(wantCommit);
    ReadKeeps(S.ReplyHandler(wantCommit), Clean, SessionLine, "", s.rbuf, s.proc, 0, S.REPLY_TIMEOUT_MS);
    match ReadUntil(S.ReplyHandler(wantCommit), "", s.rbuf, s.proc, 0, S.REPLY_TIMEOUT_MS)
    case Hit(_, _, _) =>
    case Miss(_, _, _, eof, err) => ReplyBlame(eof, err);
  }

  lemma WarmCommandIsClean(w: S.Sess, line: string, wantCommit: bool)
    requires TidySess(w) && w.proc.running
    ensures var (t, r) := S.RunCmd(w, line, wantCommit); TidySess(t) && CleanReply(r)
  {
    SendIsTidy(w, line);
    var (sent, r) := S.Send(w, line);
    if r.Ok? {
      ReadReplyIsTidy(sent, wantCommit);
    }
  }

  lemma CommandOnWarmed(s: S.Sess, line: string, wantCommit: bool)
    requires !s.proc.running && S.EnsureWarm(s).1.Ok? && S.EnsureWarm(s).0.proc.running
    ensures S.RunCmd(s, line, wantCommit) == S.RunCmd(S.EnsureWarm(s).0, line, wantCommit)
  {
  }

  /** A session command hands out clean text, whether it succeeds or not. */
  lemma SessionCommandIsClean(s: S.Sess, line: string, wantCommit: bool)
    requires TidySess(s)
    ensures var (t, r) := S.RunCmd(s, line, wantCommit); TidySess(t) && CleanReply(r)
  {
    if s.proc.running {
      WarmCommandIsClean(s, line, wantCommit);
    } else {
      SessWarmIsTidy(s);
      if S.EnsureWarm(s).1.Ok? {
        CommandOnWarmed(s, line, wantCommit);
        WarmCommandIsClean(S.EnsureWarm(s).0, line, wantCommit);
      }
    }
  }

  lemma SessionCallIsClean(s: S.Sess, c: S.Call)
    requires TidySess(s) && !c.CStart? && !c.CStop?
    ensures var (t, r) := S.Apply(s, c); TidySess(t) && CleanReply(r)
  {
    assert Clean("") && Clean("convert: no active composition");
    match c
    case CBegin => SessionCommandIsClean(s, "sreset" + "\n", false);
    case CType(ascii) =>
      SessionCommandIsClean(s, "sreset" + "\n", false);
      SessionCommandIsClean(if s.active then s else S.Begin(s).0, S.TypeLine(ascii), false);
    case CBackspace => SessionCommandIsClean(s, "sback" + "\n", false);
    case CConvert => SessionCommandIsClean(s, "sconv" + "\n", false);
    case CPreedit => SessionCommandIsClean(s, "spre" + "\n", false);
    case CCommit => SessionCommandIsClean(s, "scommit" + "\n", true);
    case CCancel => SessionCommandIsClean(s, "scancel" + "\n", false);
  }
}
