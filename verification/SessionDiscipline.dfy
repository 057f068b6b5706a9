/** Which commands a session worker can read, over whole runs of the engine.

    An edit, a query or a commit may only reach a worker that has acknowledged a
    composition (`sreset` answered) which has not ended since.  `SessionWorker` says
    what is read in a write; the engine's flag `active` is the invariant. */
module SessionDiscipline {
  import opened Lines
  import opened Process
  import opened Wrappers
  import opened SessionProtocol
  import opened SessionWorker
  import opened WorkerInput

  /** The invariant of the engine. */
  ghost predicate Inv(s: Sess) {
    && Disciplined(s.trace)
    && (s.active ==> s.proc.running && StageOf(s.trace) == OPEN)
  }

  lemma KillKeepsDiscipline(s: Sess)
    requires Disciplined(s.trace)
    ensures Disciplined(Kill(s).trace)
  {
    Extends(s.trace, Killed);
  }

  /** A respawn keeps the discipline; it leaves no composition open, except that a
      launch that fails outright does not touch the flag. */
  lemma WarmKeepsDiscipline(s: Sess)
    requires Disciplined(s.trace)
    ensures var (t, r) := EnsureWarm(s);
      && Disciplined(t.trace)
      && (r.Ok? ==> t.proc.running && !t.active && StageOf(t.trace) == SHUT)
      && (r.Err? ==> !t.proc.running && t.active == (s.active && !NextMove(s.proc).ok))
  {
    var p := AfterSpawn(s.proc);
    if !p.running {
      Extends(s.trace, Killed);
    } else {
      var trace := s.trace + [Spawned(p.pipe)];
      Extends(s.trace, Spawned(p.pipe));
      StageOfExtended(s.trace, Spawned(p.pipe));
      ReadingKeepsTheWorker(ReadyLine, (), "", p, 0, READY_TIMEOUT_MS);
      match ReadUntil(ReadyLine, (), "", p, 0, READY_TIMEOUT_MS)
      case Hit(_, _, _) =>
      case Miss(_, rest, q, _, _) => Extends(trace, Killed);
    }
  }

  /** Sending a command that the stage allows keeps the discipline; when it fails
      the worker is gone and no composition is active. */
  lemma SendKeepsDiscipline(s: Sess, line: string)
    requires Disciplined(s.trace) && s.proc.running
    requires Fine(StageOf(s.trace), Commands(line))
    ensures var (t, r) := Send(s, line);
      && Disciplined(t.trace)
      && (r.Ok? ==> t.proc.running && t.active == s.active && t.trace == s.trace + [Sent(line, NextMove(s.proc).emits)])
      && (r.Err? ==> !t.proc.running && !t.active)
  {
    var sent := Sent(line, NextMove(s.proc).emits);
    Extends(s.trace, sent);
    if !WriteWorks(s.proc) {
      Extends(s.trace + [sent], Killed);
    }
  }

  /** Reading the reply. */
  lemma ReplyKeepsDiscipline(s: Sess, wantCommit: bool)
    requires Disciplined(s.trace) && s.proc.running
    ensures var (t, r) := ReadReply(s, wantCommit);
      && Disciplined(t.trace) && t.proc.running && t.active == s.active
      && t.trace == if r.Ok? then s.trace + [Got(r.text)] else s.trace
  {
    var h := ReplyHandler(wantCommit);
    ReadingKeepsTheWorker(h, "", s.rbuf, s.proc, 0, REPLY_TIMEOUT_MS);
    match ReadUntil(h, "", s.rbuf, s.proc, 0, REPLY_TIMEOUT_MS)
    case Hit(text, _, _) => Extends(s.trace, Got(text));
    case Miss(_, _, _, _, _) =>
  }

  /** The trace just before the command of a successful `runCmd`. */
  function Prologue(s: Sess): seq<Event> {
    if s.proc.running then s.trace else EnsureWarm(s).0.trace
  }

  /** The core step: what `runCmd` does to the invariant.  A failed command never
      leaves the engine wedged: the worker is gone and no composition is active,
      so the next call starts over. */
  lemma RunCmdKeepsDiscipline(s: Sess, line: string, wantCommit: bool)
    requires Disciplined(s.trace) && (s.active ==> s.proc.running)
    requires Fine(if s.proc.running then StageOf(s.trace) else SHUT, Commands(line))
    ensures var (t, r) := RunCmd(s, line, wantCommit);
      && Disciplined(t.trace)
      && (r.Err? ==> !t.proc.running && !t.active)
      && (r.Ok? ==> t.proc.running && t.active == s.active && exists emits ::
            t.trace == Prologue(s) + [Sent(line, emits), Got(r.text)])
  {
    var warm := if s.proc.running then s else EnsureWarm(s).0;
    if !s.proc.running {
      WarmKeepsDiscipline(s);
    }
    if warm.proc.running {
      SendKeepsDiscipline(warm, line);
      var (t, w) := Send(warm, line);
      if w.Ok? {
        ReplyKeepsDiscipline(t, wantCommit);
        var (u, r) := ReadReply(t, wantCommit);
        if r.Err? {
          KillKeepsDiscipline(u);
        } else {
          var emits := NextMove(warm.proc).emits;
          assert u.trace == warm.trace + [Sent(line, emits), Got(r.text)];
        }
      }
    }
  }

  function Sends(trace: seq<Event>): nat {
    if trace == [] then 0 else Sends(trace[..|trace| - 1]) + if trace[|trace| - 1].Sent? then 1 else 0
  }

  lemma SendsOfExtended(trace: seq<Event>, e: Event)
    ensures Sends(trace + [e]) == Sends(trace) + if e.Sent? then 1 else 0
  {
    assert (trace + [e])[..|trace|] == trace;
  }

  lemma WarmSendsNothing(s: Sess)
    ensures Sends(EnsureWarm(s).0.trace) == Sends(s.trace)
  {
    var e := Spawned(AfterSpawn(s.proc).pipe);
    SendsOfExtended(s.trace, Killed);
    SendsOfExtended(s.trace, e);
    SendsOfExtended(s.trace + [e], Killed);
  }

  /** There is no second attempt: a session command makes exactly one write when a worker
      runs or could be warmed, none otherwise, and a write that fails fails the command. */
  lemma CommandSendsOnce(s: Sess, line: string, wantCommit: bool)
    ensures var (t, r) := RunCmd(s, line, wantCommit);
      var warm := if s.proc.running then s else EnsureWarm(s).0;
      var ready := s.proc.running || EnsureWarm(s).1.Ok?;
      && Sends(t.trace) == Sends(s.trace) + (if ready then 1 else 0)
      && (r.Ok? ==> ready && WriteWorks(warm.proc))
  {
    if !s.proc.running {
      WarmSendsNothing(s);
    }
    if s.proc.running || EnsureWarm(s).1.Ok? {
      SendSendsOnce(if s.proc.running then s else EnsureWarm(s).0, line, wantCommit);
    }
  }

  lemma SendSendsOnce(s: Sess, line: string, wantCommit: bool)
    ensures var (t, w) := Send(s, line);
      && (w.Ok? <==> WriteWorks(s.proc)) && Sends(t.trace) == Sends(s.trace) + 1
      && (w.Ok? ==>
            var u := ReadReply(t, wantCommit).0;
            Sends(u.trace) == Sends(s.trace) + 1 && Sends(Kill(u).trace) == Sends(s.trace) + 1)
  {
    var e := Sent(line, NextMove(s.proc).emits);
    SendsOfExtended(s.trace, e);
    SendsOfExtended(s.trace + [e], Killed);
    var (t, w) := Send(s, line);
    if w.Ok? {
      var (u, q) := ReadReply(t, wantCommit);
      if q.Ok? {
        SendsOfExtended(t.trace, Got(q.text));
      }
      SendsOfExtended(u.trace, Killed);
    }
  }

  /** The stage after a command and its reply. */
  lemma StageAfterExchange(trace: seq<Event>, line: string, emits: string, text: string)
    ensures var g := Reads(StageOf(trace), Commands(line));
      StageOf(trace + [Sent(line, emits), Got(text)]) == Stage(g.open || g.asked, false)
  {
    StageOfExtended(trace, Sent(line, emits));
    StageOfExtended(trace + [Sent(line, emits)], Got(text));
    assert trace + [Sent(line, emits), Got(text)] == (trace + [Sent(line, emits)]) + [Got(text)];
  }

  /** A word of the protocol is one command. */
  lemma WordIsFine(g: Stage, w: string)
    requires IsWord(w) && (NeedsComposition(w) ==> g.open)
    ensures Fine(g, Commands(w + "\n")) && Reads(g, Commands(w + "\n")) == ReadOne(g, w)
  {
    WordIsOneCommand(w);
    assert [w, ""][1..] == [""] && [""][1..] == [];
    assert Fine(ReadOne(g, w), [""]) && Reads(ReadOne(g, w), [""]) == ReadOne(g, w);
  }

  /** Beginning and cancelling need no composition. */
  lemma PlainWords()
    ensures !NeedsComposition("sreset") && !NeedsComposition("scancel")
  {
    assert "sreset"[..5][1] == 'r' && "scancel"[..5][1] == 'c' && "stype"[1] == 't';
    assert "scommit"[2] == 'o' && "scancel"[2] == 'a' && "sback"[1] == 'b' && "sconv"[2] == 'o' && "spre"[1] == 'p';
  }

  lemma BeginKeepsInv(s: Sess)
    requires Inv(s)
    ensures Inv(Begin(s).0) && (Begin(s).1.Ok? ==> Begin(s).0.active)
  {
    PlainWords();
    WordIsFine(if s.proc.running then StageOf(s.trace) else SHUT, "sreset");
    RunCmdKeepsDiscipline(s, "sreset" + "\n", false);
    var (t, r) := RunCmd(s, "sreset" + "\n", false);
    if r.Ok? {
      var emits :| t.trace == Prologue(s) + [Sent("sreset" + "\n", emits), Got(r.text)];
      WordIsFine(StageOf(Prologue(s)), "sreset");
      StageAfterExchange(Prologue(s), "sreset" + "\n", emits, r.text);
    }
  }

  /** A command that leaves an open composition open, or opens it again. */
  predicate Keeps(line: string) {
    Fine(OPEN, Commands(line)) && (Reads(OPEN, Commands(line)).open || Reads(OPEN, Commands(line)).asked)
  }

  /** An edit or query on an active composition. */
  lemma EditKeepsInv(s: Sess, line: string)
    requires Inv(s) && s.active && Keeps(line)
    ensures Inv(RunCmd(s, line, false).0)
  {
    RunCmdKeepsDiscipline(s, line, false);
    var (t, r) := RunCmd(s, line, false);
    if r.Ok? {
      var emits :| t.trace == s.trace + [Sent(line, emits), Got(r.text)];
      StageAfterExchange(s.trace, line, emits, r.text);
    }
  }

  /** Typed texts that the engine may be given. */
  predicate HarmlessCall(c: Call) {
    c.CType? ==> Harmless(c.ascii)
  }

  predicate AllHarmless(calls: seq<Call>) {
    forall i :: 0 <= i < |calls| ==> HarmlessCall(calls[i])
  }

  /** Each call keeps the invariant; `start` does so when no composition is active, and
      `type` when its text is harmless. */
  lemma ApplyKeepsInv(s: Sess, c: Call)
    requires Inv(s) && (c.CStart? ==> !s.active) && HarmlessCall(c)
    ensures Inv(Apply(s, c).0)
  {
    match c
    case CBegin => BeginKeepsInv(s);
    case CType(ascii) => TypeKeepsInv(s, ascii);
    case CBackspace => WordKeepsInv(s, "sback");
    case CConvert => WordKeepsInv(s, "sconv");
    case CPreedit => WordKeepsInv(s, "spre");
    case CCommit =>
      if s.active {
        WordIsFine(OPEN, "scommit");
        RunCmdKeepsDiscipline(s, "scommit" + "\n", true);
      }
    case CCancel =>
      PlainWords();
      WordIsFine(if s.proc.running then StageOf(s.trace) else SHUT, "scancel");
      RunCmdKeepsDiscipline(s, "scancel" + "\n", false);
    case CStop => KillKeepsDiscipline(s);
    case CStart => WarmKeepsDiscipline(s.(proc := s.proc.(script := RestOf(s.proc))));
  }

  lemma TypeKeepsInv(s: Sess, ascii: string)
    requires Inv(s) && Harmless(ascii)
    ensures Inv(Type(s, ascii).0)
  {
    if !s.active {
      BeginKeepsInv(s);
    }
    var (t, r) := if s.active then (s, Ok("")) else Begin(s);
    if r.Ok? {
      assert Keeps(TypeLine(ascii));
      EditKeepsInv(t, TypeLine(ascii));
    }
  }

  lemma WordKeepsInv(s: Sess, w: string)
    requires Inv(s) && IsWord(w) && !Ends(w) && !Resets(w)
    ensures s.active ==> Inv(RunCmd(s, w + "\n", false).0)
  {
    if s.active {
      WordIsFine(OPEN, w);
      EditKeepsInv(s, w + "\n");
    }
  }

  /** `start` is never called in the middle of a composition during the run. */
  predicate StartsIdle(s: Sess, calls: seq<Call>)
    decreases |calls|
  {
    calls == [] || ((calls[0].CStart? ==> !s.active) && StartsIdle(Apply(s, calls[0]).0, calls[1..]))
  }

  lemma {:induction false} RunKeepsInv(s: Sess, calls: seq<Call>)
    requires Inv(s) && StartsIdle(s, calls) && AllHarmless(calls)
    ensures Inv(Run(s, calls)) && Disciplined(Run(s, calls).trace)
    decreases |calls|
  {
    if calls != [] {
      assert HarmlessCall(calls[0]);
      ApplyKeepsInv(s, calls[0]);
      RunKeepsInv(Apply(s, calls[0]).0, calls[1..]);
    }
  }

  /** Whole runs: whatever the callers do with harmless texts and however the worker
      behaves, no worker reads an edit, a query or a commit outside a composition that
      it has acknowledged itself. */
  lemma RunsAreDisciplined(script: seq<Move>, calls: seq<Call>)
    requires StartsIdle(Fresh(script), calls) && AllHarmless(calls)
    ensures Disciplined(Run(Fresh(script), calls).trace)
  {
    RunKeepsInv(Fresh(script), calls);
  }

  /** What a caller can check before the call: no CR, no LF, no semicolon. */
  lemma PlainRunsAreDisciplined(script: seq<Move>, calls: seq<Call>)
    requires StartsIdle(Fresh(script), calls)
    requires forall i :: 0 <= i < |calls| && calls[i].CType? ==> Uncut(calls[i].ascii, Separator)
    ensures Disciplined(Run(Fresh(script), calls).trace)
  {
    forall i | 0 <= i < |calls| ensures HarmlessCall(calls[i]) {
      if calls[i].CType? {
        PlainTextIsHarmless(calls[i].ascii);
      }
    }
    RunsAreDisciplined(script, calls);
  }

  // ----- typed texts that are not harmless -----

  function With(s: Sess, script: seq<Move>): Sess {
    s.(proc := s.proc.(script := script))
  }

  /** Typing this text now is harmless, however the environment behaves and whatever is
      called afterwards. */
  ghost predicate TypeIsSafe(s: Sess, ascii: string) {
    forall script, calls ::
      (StartsIdle(Type(With(s, script), ascii).0, calls) && AllHarmless(calls) ==>
         Disciplined(Run(Type(With(s, script), ascii).0, calls).trace))
  }

  const REPLY := "\n" + ("ATD PRE" + "\n")

  /** An environment that takes the next command and answers it. */
  function Answering(s: Sess): seq<Move> {
    [Move(true, REPLY, 0, ""), Move(true, "", |s.proc.pipe| + |REPLY|, "")]
  }

  lemma EmptyReplyIsFound(st: string)
    ensures Scan(PreLine, st, "ATD PRE" + "\n").Halted?
  {
    ScanOneLine(PreLine, st, "ATD PRE");
  }

  /** Behind whatever was left unread, some reply is found. */
  lemma ReplyIsFound(left: string)
    ensures Scan(PreLine, "", left + REPLY).Halted?
  {
    ScanInPieces(PreLine, "", left, REPLY);
    var r := Scan(PreLine, "", left);
    if r.Starved? {
      StarvedHasNoNewline(PreLine, "", left);
      var line := r.rest;
      Reassociate(line, "\n", "ATD PRE" + "\n");
      ScanInPieces(PreLine, r.st, line + "\n", "ATD PRE" + "\n");
      var one := Scan(PreLine, r.st, line + "\n");
      assert (line + "\n")[..|line|] == line && (line + "\n")[|line| + 1..] == "";
      NewlineIsUnique(line + "\n", |line|);
      if one.Starved? {
        AppendNothing("ATD PRE" + "\n");
        assert one.rest == "";
        EmptyReplyIsFound(one.st);
      }
    }
  }

  lemma {:induction false} StarvedHasNoNewline<S>(f: Handler<S>, st: S, buf: string)
    requires Scan(f, st, buf).Starved?
    ensures '\n' !in Scan(f, st, buf).rest
    decreases |buf|
  {
    var nl := NewlineAt(buf);
    if nl >= 0 {
      StarvedHasNoNewline(f, f(st, buf[..nl]).st, buf[nl + 1..]);
    }
  }

  lemma AnsweredCommand(s: Sess, line: string)
    requires s.proc.running
    ensures var t := With(s, Answering(s));
      var (u, r) := RunCmd(t, line, false);
      && r.Ok? && u.proc.running && u.active == s.active
      && u.trace == s.trace + [Sent(line, REPLY), Got(r.text)]
  {
    var t := With(s, Answering(s));
    var (sent, _) := Send(t, line);
    assert sent.proc == Proc(true, s.proc.pipe + REPLY, [Answering(s)[1]]);
    Reassociate(s.rbuf, s.proc.pipe, REPLY);
    ReplyIsFound(s.rbuf + s.proc.pipe);
    OneReadDrains(sent.proc);
    DrainedStreamHits(PreLine, "", sent.rbuf, sent.proc, 0, REPLY_TIMEOUT_MS, 1);
    ReadingKeepsTheWorker(PreLine, "", sent.rbuf, sent.proc, 0, REPLY_TIMEOUT_MS);
    var (u, r) := ReadReply(sent, false);
    assert RunCmd(t, line, false) == (u, r);
    assert u.trace == s.trace + [Sent(line, REPLY), Got(r.text)];
  }

  lemma OneReadDrains(p: Proc)
    requires p.running && p.script != [] && p.script[0].ok && p.script[0].takes >= |p.pipe|
    ensures Works(p, 1) && AfterReads(p, 1).pipe == "" && EmptyPolls(p, 1) <= 1
  {
    assert Works(AfterRead(p), 0) && AfterReads(AfterRead(p), 0) == AfterRead(p);
    assert EmptyPolls(AfterRead(p), 0) == 0;
  }

  /** A text that is not harmless, and then a backspace: the worker answers both, and one
      of them reached it outside a composition. */
  lemma HarmfulTextStrays(s: Sess, ascii: string)
    requires Inv(s) && s.active && !Harmless(ascii)
    ensures var t := Type(With(s, Answering(s)), ascii).0;
      t.active && !Disciplined(Run(t, [CBackspace]).trace)
  {
    AnsweredCommand(s, TypeLine(ascii));
    var (t, r) := Type(With(s, Answering(s)), ascii);
    assert t.trace == s.trace + [Sent(TypeLine(ascii), REPLY), Got(r.text)];
    assert Run(t, [CBackspace]) == Run(Backspace(t).0, []) == Backspace(t).0;
    BackspaceIsSent(t);
    if Fine(OPEN, Commands(TypeLine(ascii))) {
      StageAfterExchange(s.trace, TypeLine(ascii), REPLY, r.text);
      ShutBackspaceStrays(t);
    } else {
      assert s.trace + [Sent(TypeLine(ascii), REPLY)] <= t.trace;
      Strays(s.trace, Sent(TypeLine(ascii), REPLY), Backspace(t).0.trace);
    }
  }

  lemma ShutBackspaceStrays(t: Sess)
    requires t.active && t.proc.running && !StageOf(t.trace).open
    ensures !Disciplined(Backspace(t).0.trace)
  {
    BackspaceIsSent(t);
    WordIsNotFine(StageOf(t.trace), "sback");
    Strays(t.trace, Sent("sback" + "\n", NextMove(t.proc).emits), Backspace(t).0.trace);
  }

  lemma WordIsNotFine(g: Stage, w: string)
    requires IsWord(w) && NeedsComposition(w) && !g.open
    ensures !Fine(g, Commands(w + "\n"))
  {
    WordIsOneCommand(w);
  }

  lemma BackspaceIsSent(t: Sess)
    requires t.active && t.proc.running
    ensures t.trace + [Sent("sback" + "\n", NextMove(t.proc).emits)] <= Backspace(t).0.trace
  {
  }

  lemma Strays(trace: seq<Event>, e: Event, end: seq<Event>)
    requires e.Sent? && trace + [e] <= end && !Fine(StageOf(trace), Commands(e.line))
    ensures !Disciplined(end)
  {
    var i := |trace|;
    assert end[i] == e && end[..i] == trace;
  }

  /** The exact condition for a text typed into an active composition. */
  lemma TypeIsSafeExactlyWhenHarmless(s: Sess, ascii: string)
    requires Inv(s) && s.active
    ensures TypeIsSafe(s, ascii) <==> Harmless(ascii)
  {
    if Harmless(ascii) {
      forall script, calls | StartsIdle(Type(With(s, script), ascii).0, calls) && AllHarmless(calls)
        ensures Disciplined(Run(Type(With(s, script), ascii).0, calls).trace)
      {
        TypeKeepsInv(With(s, script), ascii);
        RunKeepsInv(Type(With(s, script), ascii).0, calls);
      }
    } else {
      HarmfulTextStrays(s, ascii);
      assert StartsIdle(Type(With(s, Answering(s)), ascii).0, [CBackspace]) && AllHarmless([CBackspace]);
    }
  }

  // ----- one such run, from the first launch -----

  const PRE := "ATD PRE" + "\n"

  /** A worker is launched and reports ready; it answers `sreset`. */
  const FIRST_MOVES: seq<Move> :=
    [Move(true, READY, 0, ""), Move(true, "", 10, ""), Move(true, PRE, 0, ""), Move(true, "", 8, "")]

  lemma PreInBuffer(p: Proc)
    ensures ReadUntil(PreLine, "", PRE, p, 0, REPLY_TIMEOUT_MS) == Hit("", "", p)
  {
    ScanOneLine(PreLine, "", "ATD PRE");
  }

  lemma FirstWarm(more: seq<Move>)
    ensures EnsureWarm(Fresh(FIRST_MOVES + more))
      == (Sess(Proc(true, "", FIRST_MOVES[2..] + more), "", false, [Spawned(READY)]), Ok(""))
  {
    var script := FIRST_MOVES + more;
    var p := AfterSpawn(Fresh(script).proc);
    assert script[0] == FIRST_MOVES[0] && script[1..][0] == FIRST_MOVES[1];
    assert script[1..][1..] == FIRST_MOVES[2..] + more;
    BannerIsRead(p);
    assert [] + [Spawned(READY)] == [Spawned(READY)];
  }

  /** The first composition of a fresh engine. */
  lemma FirstBegin(more: seq<Move>)
    ensures Begin(Fresh(FIRST_MOVES + more))
      == (Sess(Proc(true, "", more), "", true, [Spawned(READY), Sent("sreset" + "\n", PRE), Got("")]), Ok(""))
  {
    FirstWarm(more);
    FirstReset(Sess(Proc(true, "", FIRST_MOVES[2..] + more), "", false, [Spawned(READY)]), more);
  }

  lemma FirstReset(warm: Sess, more: seq<Move>)
    requires warm == Sess(Proc(true, "", FIRST_MOVES[2..] + more), "", false, [Spawned(READY)])
    ensures var (sent, r) := Send(warm, "sreset" + "\n");
      && r == Ok("")
      && ReadReply(sent, false) ==
           (Sess(Proc(true, "", more), "", false, [Spawned(READY), Sent("sreset" + "\n", PRE), Got("")]), Ok(""))
  {
    var line := "sreset" + "\n";
    FirstSend(warm, line, more);
    FirstReply(Send(warm, line).0.proc, more);
    assert [Spawned(READY), Sent(line, PRE)] + [Got("")] == [Spawned(READY), Sent(line, PRE), Got("")];
  }

  lemma FirstSend(warm: Sess, line: string, more: seq<Move>)
    requires warm.proc == Proc(true, "", FIRST_MOVES[2..] + more) && warm.trace == [Spawned(READY)]
    ensures var (sent, r) := Send(warm, line);
      && r == Ok("") && sent.proc == Proc(true, PRE, [Move(true, "", 8, "")] + more)
      && sent.rbuf == warm.rbuf && sent.active == warm.active && sent.trace == [Spawned(READY), Sent(line, PRE)]
  {
    var moves := FIRST_MOVES[2..] + more;
    assert moves[0] == FIRST_MOVES[2] && moves[1..] == [FIRST_MOVES[3]] + more;
    AppendNothing(PRE);
    assert [Spawned(READY)] + [Sent(line, PRE)] == [Spawned(READY), Sent(line, PRE)];
  }

  lemma FirstReply(p: Proc, more: seq<Move>)
    requires p == Proc(true, PRE, [Move(true, "", 8, "")] + more)
    ensures ReadUntil(PreLine, "", "", p, 0, REPLY_TIMEOUT_MS) == Hit("", "", Proc(true, "", more))
  {
    AppendNothing(PRE);
    assert Chunk(p) == PRE && AfterRead(p) == Proc(true, "", more);
    PreInBuffer(AfterRead(p));
  }

  /** Begin, type "a" with a line end and "scommit" behind it, backspace: the commit ends
      the composition behind the engine's back, and the backspace strays. */
  lemma CarriedCommitRun()
    ensures var calls := [CBegin, CType("a" + ['\n'] + "scommit"), CBackspace];
      exists script :: StartsIdle(Fresh(script), calls) && !Disciplined(Run(Fresh(script), calls).trace)
  {
    var text := "a" + ['\n'] + "scommit";
    CarriedCommitIsHarmful("a", '\n');
    var s := Begin(Fresh(FIRST_MOVES + [])).0;
    FirstBegin([]);
    RunKeepsInv(Fresh(FIRST_MOVES + []), [CBegin]);
    assert Run(Fresh(FIRST_MOVES + []), [CBegin]) == Run(s, []) == s;
    HarmfulTextStrays(s, text);
    var script := FIRST_MOVES + Answering(s);
    FirstBegin(Answering(s));
    var t := With(s, Answering(s));
    assert Begin(Fresh(script)).0 == t;
    ThreeCalls(Fresh(script), CBegin, CType(text), CBackspace);
  }

  lemma ThreeCalls(s: Sess, a: Call, b: Call, c: Call)
    requires !a.CStart? && !b.CStart? && !c.CStart?
    ensures StartsIdle(s, [a, b, c])
    ensures Run(s, [a, b, c]) == Run(Apply(Apply(s, a).0, b).0, [c])
  {
    var t := Apply(s, a).0;
    assert [a, b, c][1..] == [b, c] && [b, c][1..] == [c] && [c][1..] == [];
    assert Run(t, [b, c]) == Run(Apply(t, b).0, [c]);
    assert StartsIdle(t, [b, c]);
  }

  // ----- `start` in the middle of a composition -----

  /** Calling `start` now is harmless, however the environment behaves and whatever
      is called afterwards. */
  ghost predicate StartIsSafe(s: Sess) {
    forall script, calls ::
      (StartsIdle(Start(With(s, script)).0, calls) && AllHarmless(calls) ==>
         Disciplined(Run(Start(With(s, script)).0, calls).trace))
  }

  /** The environment of the counterexample: the relaunch inside `start` fails, the
      next one works and reports ready. */
  const FAILED_RELAUNCH: seq<Move> :=
    [Move(true, "", 0, ""), Move(false, "", 0, ""), Move(true, READY, 0, ""),
     Move(true, "", 10, ""), Move(true, "", 0, "")]

  /** A keystroke that finds its worker gone, in an environment that launches a new
      one: the trace shows the launch and then the keystroke. */
  lemma KeystrokeAfterRelaunch(t: Sess)
    requires t.active && t.proc == Proc(false, "", FAILED_RELAUNCH[2..])
    ensures t.trace + [Spawned(READY), Sent(TypeLine(""), "")] <= Type(t, "").0.trace
  {
    BannerIsRead(AfterSpawn(t.proc));
    var warm := Sess(Proc(true, "", FAILED_RELAUNCH[4..]), "", false, t.trace + [Spawned(READY)]);
    assert EnsureWarm(t) == (warm, Ok(""));
    var line := TypeLine("");
    var (sent, r) := Send(warm, line);
    assert WriteCmd(t, line) == (sent, r);
    assert sent.trace == t.trace + [Spawned(READY), Sent(line, "")];
  }

  /** A failed launch leaves `active_` set, so the next keystroke goes to a fresh
      worker that was never told to begin. */
  lemma StrayKeystroke(s: Sess)
    requires Inv(s) && s.active
    ensures var t := Start(With(s, FAILED_RELAUNCH)).0;
      t.active && !Disciplined(Run(t, [CType("")]).trace)
  {
    var t := Start(With(s, FAILED_RELAUNCH)).0;
    assert t == Sess(Proc(false, "", FAILED_RELAUNCH[2..]), s.rbuf, true, s.trace + [Killed]);
    KeystrokeAfterRelaunch(t);
    var line := TypeLine("");
    var end := Run(t, [CType("")]);
    assert end == Run(Type(t, "").0, []) == Type(t, "").0;
    PlainTextIsHarmless("");
    StageOfExtended(t.trace, Spawned(READY));
    assert t.trace + [Spawned(READY), Sent(line, "")] == (t.trace + [Spawned(READY)]) + [Sent(line, "")];
    var c := PlainTextIsOneCommand("");
    Strays(t.trace + [Spawned(READY)], Sent(line, ""), end.trace);
  }

  /** The exact condition a caller has to check before `start`. */
  lemma StartIsSafeExactlyWhenIdle(s: Sess)
    requires Inv(s)
    ensures StartIsSafe(s) <==> !s.active
  {
    if s.active {
      StrayKeystroke(s);
      PlainTextIsHarmless("");
      assert StartsIdle(Start(With(s, FAILED_RELAUNCH)).0, [CType("")]) && AllHarmless([CType("")]);
    } else {
      forall script, calls | StartsIdle(Start(With(s, script)).0, calls) && AllHarmless(calls)
        ensures Disciplined(Run(Start(With(s, script)).0, calls).trace)
      {
        ApplyKeepsInv(With(s, script), CStart);
        RunKeepsInv(Start(With(s, script)).0, calls);
      }
    }
  }
}
