/** No stale replies.  A worker is polite when it prints whole lines, at most one reply
    line for each command it reads among any noise, and no reply line before its
    first command.  A write can be several commands; while every write is one, each
    accepted reply is the one printed for the command just sent, across timeouts,
    kills and respawns, and only then. */
module SessionReplies {
  import opened Lines
  import opened Process
  import opened Wrappers
  import opened SessionProtocol
  import opened WorkerInput

  /** A line some command could take for its reply. */
  predicate ReplyLine(line: string) {
    ReplyOf(false, line).Some? || ReplyOf(true, line).Some?
  }

  predicate Noise(ls: seq<string>) {
    forall i :: 0 <= i < |ls| ==> !ReplyLine(ls[i])
  }

  predicate AtMostOneReply(ls: seq<string>) {
    forall i, j :: 0 <= i < j < |ls| ==> !ReplyLine(ls[i]) || !ReplyLine(ls[j])
  }

  predicate QuietText(unread: string) {
    WholeLines(unread) && Noise(LinesOf(unread))
  }

  predicate ReplyText(emits: string) {
    WholeLines(emits) && AtMostOneReply(LinesOf(emits))
  }

  predicate Polite(e: Event) {
    match e
    case Spawned(banner) => QuietText(banner)
    case Sent(line, emits) => PrintedBy(Commands(line), emits, ReplyText, QuietText)
    case _ => true
  }

  predicate AllPolite(trace: seq<Event>) {
    forall i :: 0 <= i < |trace| ==> Polite(trace[i])
  }

  /** The output for a write holds a reply line of this kind with this payload. */
  predicate Prints(wantCommit: bool, emits: string, text: string) {
    exists i :: 0 <= i < |LinesOf(emits)| && ReplyOf(wantCommit, LinesOf(emits)[i]) == Some(text)
  }

  predicate Answers(emits: string, text: string) {
    Prints(false, emits, text) || Prints(true, emits, text)
  }

  /** An accepted reply is a payload printed for the write right before it. */
  predicate AnsweredAt(trace: seq<Event>, i: nat)
    requires i < |trace|
  {
    trace[i].Got? ==> 0 < i && trace[i - 1].Sent? && Answers(trace[i - 1].emits, trace[i].text)
  }

  predicate NoStale(trace: seq<Event>) {
    forall i :: 0 <= i < |trace| ==> AnsweredAt(trace, i)
  }

  /** The trace ends with this line, sent, and this text, a reply of the wanted kind
      printed for it and accepted. */
  predicate EndsAnswered(trace: seq<Event>, line: string, wantCommit: bool, text: string) {
    var n := |trace|;
    && n >= 2 && trace[n - 1] == Got(text) && trace[n - 2].Sent? && trace[n - 2].line == line
    && Prints(wantCommit, trace[n - 2].emits, text)
  }

  lemma StillAnswered(trace: seq<Event>, e: Event)
    requires NoStale(trace)
    requires e.Got? ==> trace != [] && trace[|trace| - 1].Sent? && Answers(trace[|trace| - 1].emits, e.text)
    ensures NoStale(trace + [e])
  {
    var t := trace + [e];
    forall i | 0 <= i < |trace| ensures AnsweredAt(t, i) {
      assert AnsweredAt(trace, i);
    }
    assert AnsweredAt(t, |trace|);
  }

  lemma PoliteBefore(trace: seq<Event>, e: Event)
    requires AllPolite(trace + [e])
    ensures AllPolite(trace) && Polite(e)
  {
    var t := trace + [e];
    assert forall i :: 0 <= i < |trace| ==> trace[i] == t[i];
    assert t[|trace|] == e;
  }

  /** Output of the current worker that is still unread, in the engine's buffer or
      in the pipe, is whole lines of noise. */
  predicate Quiet(s: Sess) {
    QuietText(s.rbuf + s.proc.pipe)
  }

  predicate Inv(s: Sess) {
    AllPolite(s.trace) ==> NoStale(s.trace) && (s.proc.running ==> Quiet(s))
  }

  lemma NoiseAbsorbs()
    ensures Absorbs(ReplyText, QuietText)
  {
    assert LinesOf("") == [] && Text([]) == "";
    forall a, b | QuietText(a) && QuietText(b) ensures QuietText(a + b) {
      WholeOfConcat(a, b);
    }
    forall a, b | QuietText(a) && ReplyText(b) ensures ReplyText(a + b) && ReplyText(b + a) {
      WholeOfConcat(a, b);
      WholeOfConcat(b, a);
    }
  }

  lemma SingleIsOneReply(line: string, emits: string)
    requires Single(Commands(line)) && Polite(Sent(line, emits))
    ensures ReplyText(emits)
  {
    NoiseAbsorbs();
    SingleWrite(Commands(line), emits, ReplyText, QuietText);
  }

  /** Noise never stops the search for a reply. */
  lemma {:induction false} NoiseIsSkipped(wantCommit: bool, st: string, ls: seq<string>)
    requires Noise(ls)
    ensures Fold(ReplyHandler(wantCommit), st, ls) == Lines.Open(st)
  {
    if ls != [] {
      assert !ReplyLine(ls[0]);
      NoiseIsSkipped(wantCommit, st, ls[1..]);
    }
  }

  /** A search that stops has found the one reply, and only noise follows it. */
  lemma {:induction false} FoundReply(wantCommit: bool, st: string, ls: seq<string>) returns (i: nat)
    requires AtMostOneReply(ls)
    requires Fold(ReplyHandler(wantCommit), st, ls).Ended?
    ensures i < |ls| && ReplyOf(wantCommit, ls[i]) == Some(Fold(ReplyHandler(wantCommit), st, ls).st)
    ensures Fold(ReplyHandler(wantCommit), st, ls).left == ls[i + 1..] && Noise(ls[i + 1..])
  {
    if ReplyOf(wantCommit, ls[0]).Some? {
      i := 0;
      assert ReplyLine(ls[0]);
    } else {
      var k := FoundReply(wantCommit, st, ls[1..]);
      i := k + 1;
      assert ls[1..][k + 1..] == ls[i + 1..];
    }
  }

  /** Reading the reply to a command whose output joined a quiet stream. */
  lemma ReplyIsTheAnswer(quiet: string, emits: string, wantCommit: bool, text: string, rest: string)
    requires QuietText(quiet)
    requires ReplyText(emits)
    requires Scan(ReplyHandler(wantCommit), "", quiet + emits) == Halted(text, rest)
    ensures Prints(wantCommit, emits, text) && QuietText(rest)
  {
    var h, q, e := ReplyHandler(wantCommit), LinesOf(quiet), LinesOf(emits);
    TextOfConcat(q, e);
    ScanOfText(h, "", q + e);
    FoldOfConcat(h, "", q, e);
    NoiseIsSkipped(wantCommit, "", q);
    var i := FoundReply(wantCommit, "", e);
    assert ReplyOf(wantCommit, LinesOf(emits)[i]) == Some(text);
    TextIsWhole(e[i + 1..]);
  }

  /** A tail of noise is noise. */
  lemma {:induction false} ReadyLeavesNoise(ls: seq<string>)
    requires Noise(ls) && Fold(ReadyLine, (), ls).Ended?
    ensures Noise(Fold(ReadyLine, (), ls).left) && |Fold(ReadyLine, (), ls).left| <= |ls|
    ensures NewlineFree(ls) ==> NewlineFree(Fold(ReadyLine, (), ls).left)
  {
    if ReadyLine((), ls[0]).More? {
      ReadyLeavesNoise(ls[1..]);
    }
  }

  lemma AddEvent(trace: seq<Event>, e: Event)
    requires AllPolite(trace) ==> NoStale(trace)
    requires !e.Got?
    ensures AllPolite(trace + [e]) ==> AllPolite(trace) && NoStale(trace + [e])
  {
    if AllPolite(trace + [e]) {
      PoliteBefore(trace, e);
      StillAnswered(trace, e);
    }
  }

  /** A dead worker's output is never looked at again. */
  lemma KillKeepsInv(s: Sess)
    requires AllPolite(s.trace) ==> NoStale(s.trace)
    ensures Inv(Kill(s))
  {
    AddEvent(s.trace, Killed);
  }

  lemma WarmKeepsInv(s: Sess)
    requires AllPolite(s.trace) ==> NoStale(s.trace)
    ensures Inv(EnsureWarm(s).0)
  {
    var p := AfterSpawn(s.proc);
    AddEvent(s.trace, Killed);
    if p.running {
      var e := Spawned(p.pipe);
      var trace := s.trace + [e];
      AddEvent(s.trace, e);
      match ReadUntil(ReadyLine, (), "", p, 0, READY_TIMEOUT_MS)
      case Hit(_, rest, q) =>
        if AllPolite(trace) {
          assert Polite(trace[|s.trace|]);
          HitIsOnePass(ReadyLine, (), "", p, 0, READY_TIMEOUT_MS);
          assert "" + p.pipe == p.pipe;
          var ls := LinesOf(p.pipe);
          ScanOfText(ReadyLine, (), ls);
          ReadyLeavesNoise(ls);
          TextIsWhole(Fold(ReadyLine, (), ls).left);
        }
      case Miss(_, rest, q, _, _) => AddEvent(trace, Killed);
    }
  }

  /** The reply read on a live worker, given that everything so far was polite. */
  lemma ReplyAnswersCommand(s: Sess, line: string, wantCommit: bool)
    requires s.proc.running && WriteWorks(s.proc) && Quiet(s)
    requires Polite(Sent(line, NextMove(s.proc).emits)) && Single(Commands(line))
    requires ReadReply(Send(s, line).0, wantCommit).1.Ok?
    ensures var (t, r) := ReadReply(Send(s, line).0, wantCommit);
      Quiet(t) && Prints(wantCommit, NextMove(s.proc).emits, r.text)
  {
    var emits, h, sent := NextMove(s.proc).emits, ReplyHandler(wantCommit), Send(s, line).0;
    var r := ReadUntil(h, "", sent.rbuf, sent.proc, 0, REPLY_TIMEOUT_MS);
    var (t, reply) := ReadReply(sent, wantCommit);
    assert t.rbuf + t.proc.pipe == r.rest + r.proc.pipe && reply.text == r.st;
    var quiet := s.rbuf + s.proc.pipe;
    assert Scan(h, "", quiet + emits) == Halted(r.st, r.rest + r.proc.pipe) by {
      HitIsOnePass(h, "", sent.rbuf, sent.proc, 0, REPLY_TIMEOUT_MS);
      Reassociate(s.rbuf, s.proc.pipe, emits);
    }
    SingleIsOneReply(line, emits);
    ReplyIsTheAnswer(quiet, emits, wantCommit, r.st, r.rest + r.proc.pipe);
  }

  lemma PoliteSoFar(trace: seq<Event>, e: Event, g: Event)
    requires AllPolite(trace + [e, g])
    ensures AllPolite(trace) && Polite(e)
  {
    assert trace + [e, g] == (trace + [e]) + [g];
    PoliteBefore(trace + [e], g);
    PoliteBefore(trace, e);
  }

  lemma AddExchange(trace: seq<Event>, line: string, emits: string, text: string)
    requires AllPolite(trace) ==> NoStale(trace)
    requires AllPolite(trace) && Polite(Sent(line, emits)) ==> Answers(emits, text)
    ensures var t := trace + [Sent(line, emits), Got(text)];
      AllPolite(t) ==> NoStale(t) && AllPolite(trace) && Polite(Sent(line, emits))
  {
    var e, g := Sent(line, emits), Got(text);
    if AllPolite(trace + [e, g]) {
      PoliteSoFar(trace, e, g);
      StillAnswered(trace, e);
      StillAnswered(trace + [e], g);
      assert trace + [e, g] == (trace + [e]) + [g];
    }
  }

  /** A command and its reply, on a live worker. */
  lemma ExchangeKeepsInv(s: Sess, line: string, wantCommit: bool)
    requires Inv(s) && s.proc.running && WriteWorks(s.proc) && Single(Commands(line))
    ensures var (t, r) := ReadReply(Send(s, line).0, wantCommit);
      (r.Ok? ==> Inv(t)) && (AllPolite(t.trace) ==> NoStale(t.trace))
  {
    var emits := NextMove(s.proc).emits;
    AddEvent(s.trace, Sent(line, emits));
    var (t, r) := ReadReply(Send(s, line).0, wantCommit);
    if r.Ok? {
      assert t.trace == s.trace + [Sent(line, emits), Got(r.text)];
      if AllPolite(s.trace) && Polite(Sent(line, emits)) {
        ReplyAnswersCommand(s, line, wantCommit);
      }
      AddExchange(s.trace, line, emits, r.text);
    }
  }

  lemma RunCmdKeepsInv(s: Sess, line: string, wantCommit: bool)
    requires Inv(s) && Single(Commands(line))
    ensures Inv(RunCmd(s, line, wantCommit).0)
  {
    var warm := if s.proc.running then s else EnsureWarm(s).0;
    if !s.proc.running {
      WarmKeepsInv(s);
    }
    if s.proc.running || EnsureWarm(s).1.Ok? {
      if WriteWorks(warm.proc) {
        ExchangeKeepsInv(warm, line, wantCommit);
        KillKeepsInv(ReadReply(Send(warm, line).0, wantCommit).0);
      } else {
        var sent := Sent(line, NextMove(warm.proc).emits);
        AddEvent(warm.trace, sent);
        AddEvent(warm.trace + [sent], Killed);
      }
    }
  }

  /** A typed text that stays one command. */
  predicate SingleCall(c: Call) {
    c.CType? ==> Single(Commands(TypeLine(c.ascii)))
  }

  predicate AllSingle(calls: seq<Call>) {
    forall i :: 0 <= i < |calls| ==> SingleCall(calls[i])
  }

  lemma WordKeepsInv(s: Sess, w: string, wantCommit: bool)
    requires Inv(s) && IsWord(w)
    ensures Inv(RunCmd(s, w + "\n", wantCommit).0)
  {
    WordIsOneCommand(w);
    RunCmdKeepsInv(s, w + "\n", wantCommit);
  }

  lemma TypeKeepsInv(s: Sess, ascii: string)
    requires Inv(s) && Single(Commands(TypeLine(ascii)))
    ensures Inv(Type(s, ascii).0)
  {
    WordKeepsInv(s, "sreset", false);
    RunCmdKeepsInv(if s.active then s else Begin(s).0, TypeLine(ascii), false);
  }

  lemma ApplyKeepsInv(s: Sess, c: Call)
    requires Inv(s) && SingleCall(c)
    ensures Inv(Apply(s, c).0)
  {
    match c
    case CBegin => WordKeepsInv(s, "sreset", false);
    case CType(ascii) => TypeKeepsInv(s, ascii);
    case CBackspace => WordKeepsInv(s, "sback", false);
    case CConvert => WordKeepsInv(s, "sconv", false);
    case CPreedit => WordKeepsInv(s, "spre", false);
    case CCommit => WordKeepsInv(s, "scommit", true);
    case CCancel => WordKeepsInv(s, "scancel", false);
    case CStop => KillKeepsInv(s);
    case CStart => WarmKeepsInv(s.(proc := s.proc.(script := RestOf(s.proc))));
  }

  lemma {:induction false} RunKeepsInv(s: Sess, calls: seq<Call>)
    requires Inv(s) && AllSingle(calls)
    ensures Inv(Run(s, calls))
    decreases |calls|
  {
    if calls != [] {
      assert SingleCall(calls[0]);
      ApplyKeepsInv(s, calls[0]);
      RunKeepsInv(Apply(s, calls[0]).0, calls[1..]);
    }
  }

  /** Whole runs over any environment whose workers are polite, with typed texts that stay
      one command: every reply the engine accepted answers the command just sent. */
  lemma RepliesAreNeverStale(script: seq<Move>, calls: seq<Call>)
    requires AllSingle(calls) && AllPolite(Run(Fresh(script), calls).trace)
    ensures NoStale(Run(Fresh(script), calls).trace)
  {
    RunKeepsInv(Fresh(script), calls);
  }

  lemma PlainTextIsSingle(ascii: string)
    requires Uncut(ascii, Separator)
    ensures Single(Commands(TypeLine(ascii)))
  {
    var line := "stype " + ascii;
    assert Uncut(line, Separator) by {
      assert forall i :: 6 <= i < |line| ==> line[i] == ascii[i - 6];
      assert Uncut("stype ", Separator);
    }
    PlainLineIsSingle(line);
  }

  /** What a caller can check before the call: no CR, no LF, no semicolon. */
  lemma PlainRepliesAreNeverStale(script: seq<Move>, calls: seq<Call>)
    requires forall i :: 0 <= i < |calls| && calls[i].CType? ==> Uncut(calls[i].ascii, Separator)
    requires AllPolite(Run(Fresh(script), calls).trace)
    ensures NoStale(Run(Fresh(script), calls).trace)
  {
    forall i | 0 <= i < |calls| ensures SingleCall(calls[i]) {
      if calls[i].CType? {
        PlainTextIsSingle(calls[i].ascii);
      }
    }
    RunKeepsInv(Fresh(script), calls);
  }

  /** The worker a command is sent to. */
  function Warm(s: Sess): Sess {
    if s.proc.running then s else EnsureWarm(s).0
  }

  /** A successful command ends the trace with its own line, sent, and the very text it
      returns, accepted. */
  lemma CommandEndsWithItsReply(s: Sess, line: string, wantCommit: bool)
    requires RunCmd(s, line, wantCommit).1.Ok?
    ensures var w := Warm(s);
      var (t, r) := RunCmd(s, line, wantCommit);
      && w.proc.running && WriteWorks(w.proc) && (t, r) == ReadReply(Send(w, line).0, wantCommit)
      && t.trace == w.trace + [Sent(line, NextMove(w.proc).emits), Got(r.text)]
  {
  }

  lemma WarmCommandAnswers(w: Sess, line: string, wantCommit: bool)
    requires Inv(w) && w.proc.running && WriteWorks(w.proc) && Single(Commands(line))
    requires ReadReply(Send(w, line).0, wantCommit).1.Ok?
    requires AllPolite(ReadReply(Send(w, line).0, wantCommit).0.trace)
    ensures var (t, r) := ReadReply(Send(w, line).0, wantCommit); EndsAnswered(t.trace, line, wantCommit, r.text)
  {
    var e := Sent(line, NextMove(w.proc).emits);
    var (t, r) := ReadReply(Send(w, line).0, wantCommit);
    assert t.trace == w.trace + [e, Got(r.text)];
    PoliteSoFar(w.trace, e, Got(r.text));
    ReplyAnswersCommand(w, line, wantCommit);
  }

  lemma CommandAnswers(s: Sess, line: string, wantCommit: bool)
    requires Inv(s) && Single(Commands(line))
    requires AllPolite(RunCmd(s, line, wantCommit).0.trace) && RunCmd(s, line, wantCommit).1.Ok?
    ensures var (t, r) := RunCmd(s, line, wantCommit); EndsAnswered(t.trace, line, wantCommit, r.text)
  {
    if !s.proc.running {
      WarmKeepsInv(s);
    }
    CommandEndsWithItsReply(s, line, wantCommit);
    WarmCommandAnswers(Warm(s), line, wantCommit);
  }

  /** Whole runs, and then one more command: over polite workers, the text returned is the
      payload of a reply line of the wanted kind, printed for this very write. */
  lemma AnswersAreNeverStale(script: seq<Move>, calls: seq<Call>, line: string, wantCommit: bool)
    requires AllSingle(calls) && Single(Commands(line))
    requires var (t, r) := RunCmd(Run(Fresh(script), calls), line, wantCommit); r.Ok? && AllPolite(t.trace)
    ensures var (t, r) := RunCmd(Run(Fresh(script), calls), line, wantCommit);
      EndsAnswered(t.trace, line, wantCommit, r.text)
  {
    RunKeepsInv(Fresh(script), calls);
    CommandAnswers(Run(Fresh(script), calls), line, wantCommit);
  }

  lemma KindByLetter(wantCommit: bool, line: string)
    requires ReplyOf(wantCommit, line).Some?
    ensures |Chomp(line)| > 4 && Chomp(line)[4] == if wantCommit then 'C' else 'P'
  {
    var l := Chomp(line);
    if wantCommit {
      assert l[4] == "ATD COMMIT "[4];
    } else if l != "ATD PRE" {
      assert l[4] == "ATD PRE "[4];
    }
  }

  /** A polite worker's answer is unique: there is one payload a single command can have. */
  lemma AnswerIsUnique(emits: string, a: string, b: string)
    requires AtMostOneReply(LinesOf(emits)) && Answers(emits, a) && Answers(emits, b)
    ensures a == b
  {
    var ls := LinesOf(emits);
    var w, v := Prints(true, emits, a), Prints(true, emits, b);
    var i :| 0 <= i < |ls| && ReplyOf(w, ls[i]) == Some(a);
    var j :| 0 <= j < |ls| && ReplyOf(v, ls[j]) == Some(b);
    assert ReplyLine(ls[i]) && ReplyLine(ls[j]);
    assert i == j;
    KindByLetter(w, ls[i]);
    KindByLetter(v, ls[i]);
  }
}
