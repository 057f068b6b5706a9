/** What the session commands mean.  A worker is described by what its composition does with
    each command of the protocol, as the words of the header define them; an engine over
    such a worker is then that composition, call by call and over whole runs. */
module SessionMachine {
  import opened Lines
  import opened Process
  import opened Wrappers
  import opened SessionProtocol
  import opened WorkerInput
  import opened SessionReplies

  // ----- the protocol -----

  /** Start a composition, append keystrokes, delete, convert, look, finish, abandon. */
  datatype Op = StartOver | Append(keys: string) | DeleteOne | Henkan | Look | Finish | Abandon

  /** The command words on the pipe. */
  function OpOf(line: string): Option<Op> {
    if line == "sreset" + "\n" then Some(StartOver)
    else if line == "scancel" + "\n" then Some(Abandon)
    else if line == "sback" + "\n" then Some(DeleteOne)
    else if line == "sconv" + "\n" then Some(Henkan)
    else if line == "spre" + "\n" then Some(Look)
    else if line == "scommit" + "\n" then Some(Finish)
    else if |line| > 6 && line[..6] == "stype " then Some(Append(line[6..|line| - 1]))
    else None
  }

  /** What a composition does with a command: its next state, and the text it reports. */
  type Machine<!M> = (M, Op) -> (M, string)

  predicate Plain(x: string) {
    '\n' !in x && '\r' !in x
  }

  /** The line that reports a text, with or without a carriage return at its end. */
  predicate Reports(line: string, op: Op, text: string) {
    var bare := if op.Finish? then "ATD COMMIT " + text else "ATD PRE " + text;
    || line == bare || line == bare + "\r"
    || (!op.Finish? && text == "" && (line == "ATD PRE" || line == "ATD PRE" + "\r"))
  }

  /** The composition of the current worker after a trace. */
  function StateOf<M>(m: Machine<M>, init: M, trace: seq<Event>): M {
    if trace == [] then init
    else
      var before := StateOf(m, init, trace[..|trace| - 1]);
      match trace[|trace| - 1]
      case Spawned(_) => init
      case Killed => init
      case Got(_) => before
      case Sent(line, _) => (match OpOf(line) case Some(op) => m(before, op).0 case None => before)
  }

  predicate ReportedAt<M>(m: Machine<M>, init: M, trace: seq<Event>, i: nat)
    requires i < |trace|
  {
    trace[i].Sent? && OpOf(trace[i].line).Some? ==>
      var op := OpOf(trace[i].line).value;
      var text := m(StateOf(m, init, trace[..i]), op).1;
      Plain(text) && exists k :: 0 <= k < |LinesOf(trace[i].emits)| && Reports(LinesOf(trace[i].emits)[k], op, text)
  }

  /** Every worker of the trace reports, for every command, what its composition says. */
  predicate Faithful<M>(m: Machine<M>, init: M, trace: seq<Event>) {
    forall i :: 0 <= i < |trace| ==> ReportedAt(m, init, trace, i)
  }

  // ----- reply lines -----

  lemma ChompEither(text: string)
    requires '\r' !in text
    ensures Chomp(text) == text && Chomp(text + "\r") == text
  {
  }

  /** The payload of a finished composition is exactly what stands behind "ATD COMMIT ". */
  lemma CommitPayload(x: string)
    requires '\r' !in x
    ensures ReplyOf(true, "ATD COMMIT " + x) == ReplyOf(true, "ATD COMMIT " + x + "\r") == Some(x)
    ensures ReplyOf(false, "ATD COMMIT " + x) == ReplyOf(false, "ATD COMMIT " + x + "\r") == None
  {
    var l := "ATD COMMIT " + x;
    ChompEither(l);
    assert l[..11] == "ATD COMMIT " && l[11..] == x && l[4] == 'C' && "ATD PRE "[4] == 'P';
  }

  /** And of a preedit, what stands behind "ATD PRE ". */
  lemma PreeditPayload(x: string)
    requires '\r' !in x
    ensures ReplyOf(false, "ATD PRE " + x) == ReplyOf(false, "ATD PRE " + x + "\r") == Some(x)
    ensures ReplyOf(true, "ATD PRE " + x) == ReplyOf(true, "ATD PRE " + x + "\r") == None
    ensures ReplyOf(false, "ATD PRE") == ReplyOf(false, "ATD PRE" + "\r") == Some("")
  {
    var l := "ATD PRE " + x;
    ChompEither(l);
    ChompEither("ATD PRE");
    assert l[..8] == "ATD PRE " && l[8..] == x && l[4] == 'P' && "ATD COMMIT "[4] == 'C';
    assert l[7] == ' ' && |l| >= 8;
  }

  lemma ReportIsRead(line: string, op: Op, text: string)
    requires Plain(text) && Reports(line, op, text)
    ensures ReplyOf(op.Finish?, line) == Some(text)
  {
    CommitPayload(text);
    PreeditPayload(text);
  }

  /** What a single command of the right kind returned is what was reported for it. */
  lemma OnlyReport(emits: string, op: Op, text: string, k: nat, got: string)
    requires ReplyText(emits) && Prints(op.Finish?, emits, got)
    requires Plain(text) && k < |LinesOf(emits)| && Reports(LinesOf(emits)[k], op, text)
    ensures got == text
  {
    var ls := LinesOf(emits);
    ReportIsRead(ls[k], op, text);
    var i :| 0 <= i < |ls| && ReplyOf(op.Finish?, ls[i]) == Some(got);
    assert ReplyLine(ls[i]) && ReplyLine(ls[k]);
  }

  // ----- one command -----

  lemma StateOfExtended<M>(m: Machine<M>, init: M, trace: seq<Event>, e: Event)
    ensures StateOf(m, init, trace + [e]) ==
      match e
      case Spawned(_) => init
      case Killed => init
      case Got(_) => StateOf(m, init, trace)
      case Sent(line, _) => (match OpOf(line) case Some(op) => m(StateOf(m, init, trace), op).0 case None => StateOf(m, init, trace))
  {
    assert (trace + [e])[..|trace|] == trace;
  }

  /** The state in which the next command finds a worker. */
  function Found<M>(m: Machine<M>, init: M, s: Sess): M {
    if s.proc.running then StateOf(m, init, s.trace) else init
  }

  predicate Sound<M>(m: Machine<M>, init: M, trace: seq<Event>) {
    AllPolite(trace) && Faithful(m, init, trace)
  }

  lemma WarmState<M(!new)>(m: Machine<M>, init: M, s: Sess)
    requires s.proc.running || EnsureWarm(s).1.Ok?
    ensures StateOf(m, init, Warm(s).trace) == Found(m, init, s)
  {
    if !s.proc.running {
      StateOfExtended(m, init, s.trace, Spawned(AfterSpawn(s.proc).pipe));
    }
  }

  /** A successful command does to the composition what its word says, and returns what the
      composition reports. */
  lemma CommandIsOp<M(!new)>(m: Machine<M>, init: M, s: Sess, line: string, op: Op)
    requires Inv(s) && Single(Commands(line)) && OpOf(line) == Some(op)
    requires RunCmd(s, line, op.Finish?).1.Ok? && Sound(m, init, RunCmd(s, line, op.Finish?).0.trace)
    ensures var (t, r) := RunCmd(s, line, op.Finish?);
      (StateOf(m, init, t.trace), r.text) == m(Found(m, init, s), op)
  {
    var (t, r) := RunCmd(s, line, op.Finish?);
    var w := Warm(s);
    CommandEndsWithItsReply(s, line, op.Finish?);
    CommandAnswers(s, line, op.Finish?);
    WarmState(m, init, s);
    ExchangeIsOp(m, init, w.trace, line, NextMove(w.proc).emits, op, r.text);
  }

  lemma ExchangeIsOp<M(!new)>(m: Machine<M>, init: M, trace: seq<Event>, line: string, emits: string, op: Op, text: string)
    requires OpOf(line) == Some(op) && Single(Commands(line))
    requires Sound(m, init, trace + [Sent(line, emits), Got(text)])
    requires EndsAnswered(trace + [Sent(line, emits), Got(text)], line, op.Finish?, text)
    ensures (StateOf(m, init, trace + [Sent(line, emits), Got(text)]), text) == m(StateOf(m, init, trace), op)
  {
    var t := trace + [Sent(line, emits), Got(text)];
    assert t == (trace + [Sent(line, emits)]) + [Got(text)];
    StateOfExtended(m, init, trace, Sent(line, emits));
    StateOfExtended(m, init, trace + [Sent(line, emits)], Got(text));
    assert ReportedAt(m, init, t, |trace|) && t[..|trace|] == trace && t[|trace|] == Sent(line, emits);
    PoliteSoFar(trace, Sent(line, emits), Got(text));
    SingleIsOneReply(line, emits);
    var want := m(StateOf(m, init, trace), op).1;
    var k :| 0 <= k < |LinesOf(emits)| && Reports(LinesOf(emits)[k], op, want);
    OnlyReport(emits, op, want, k, text);
  }

  // ----- the calls -----

  /** A composition held directly: its state, whether it is active, whether a worker lives. */
  datatype Direct<M> = Direct(state: M, active: bool, live: bool)

  function Held<M>(m: Machine<M>, init: M, s: Sess): Direct<M> {
    Direct(Found(m, init, s), s.active, s.proc.running)
  }

  /** One operation on it, and what is active afterwards. */
  function Do<M>(m: Machine<M>, d: Direct<M>, op: Op, active: bool): (Direct<M>, string) {
    var (state, text) := m(d.state, op);
    (Direct(state, active, true), text)
  }

  /** What a caller is promised: keystrokes begin a composition where there is none, and
      without one there is nothing to edit, look at or finish. */
  function Promised<M>(m: Machine<M>, d: Direct<M>, c: Call): (Direct<M>, string) {
    match c
    case CBegin => Do(m, d, StartOver, true)
    case CType(keys) => Do(m, if d.active then d else Do(m, d, StartOver, true).0, Append(keys), true)
    case CBackspace => if d.active then Do(m, d, DeleteOne, true) else (d, "")
    case CConvert => if d.active then Do(m, d, Henkan, true) else (d, "")
    case CPreedit => if d.active then Do(m, d, Look, true) else (d, "")
    case CCommit => if d.active then Do(m, d, Finish, false) else (d, "")
    case CCancel => if d.active || !d.live then (Do(m, d, Abandon, false).0, "") else (d, "")
    case CStop => (d, "")
    case CStart => (d, "")
  }

  lemma TypedLineIsAppend(keys: string)
    ensures OpOf(TypeLine(keys)) == Some(Append(keys))
  {
    var line := TypeLine(keys);
    assert line[..6] == "stype " && line[6..|line| - 1] == keys;
    assert line[1] == 't' && line[5] == ' ';
    assert ("sreset" + "\n")[1] == 'r' && ("scancel" + "\n")[1] == 'c' && ("sback" + "\n")[1] == 'b';
    assert ("sconv" + "\n")[1] == 'c' && ("spre" + "\n")[1] == 'p' && ("scommit" + "\n")[1] == 'c';
  }

  lemma WordsAreOps()
    ensures OpOf("sreset" + "\n") == Some(StartOver) && OpOf("sback" + "\n") == Some(DeleteOne)
    ensures OpOf("sconv" + "\n") == Some(Henkan) && OpOf("spre" + "\n") == Some(Look)
    ensures OpOf("scommit" + "\n") == Some(Finish) && OpOf("scancel" + "\n") == Some(Abandon)
  {
    assert ("sback" + "\n")[1] == 'b' && ("spre" + "\n")[1] == 'p' && ("sreset" + "\n")[1] == 'r';
    assert ("scancel" + "\n")[2] == 'a' && ("sconv" + "\n")[3] == 'n' && ("scommit" + "\n")[3] == 'm';
    assert ("sconv" + "\n")[2] == 'o' && ("scommit" + "\n")[2] == 'o';
  }

  lemma ResetIsOp()
    ensures IsWord("sreset") && OpOf("sreset" + "\n") == Some(StartOver)
  {
    WordsAreOps();
  }

  lemma BackIsOp()
    ensures IsWord("sback") && OpOf("sback" + "\n") == Some(DeleteOne)
  {
    WordsAreOps();
  }

  lemma ConvIsOp()
    ensures IsWord("sconv") && OpOf("sconv" + "\n") == Some(Henkan)
  {
    WordsAreOps();
  }

  lemma PreIsOp()
    ensures IsWord("spre") && OpOf("spre" + "\n") == Some(Look)
  {
    WordsAreOps();
  }

  lemma CommitIsOp()
    ensures IsWord("scommit") && OpOf("scommit" + "\n") == Some(Finish)
  {
    WordsAreOps();
  }

  lemma CancelIsOp()
    ensures IsWord("scancel") && OpOf("scancel" + "\n") == Some(Abandon)
  {
    WordsAreOps();
  }

  lemma CommandLeaves(s: Sess, line: string, wantCommit: bool)
    requires RunCmd(s, line, wantCommit).1.Ok?
    ensures var t := RunCmd(s, line, wantCommit).0; t.proc.running && t.active == (s.active && s.proc.running)
  {
    CommandEndsWithItsReply(s, line, wantCommit);
    var sent := Send(Warm(s), line).0;
    ReadingKeepsTheWorker(ReplyHandler(wantCommit), "", sent.rbuf, sent.proc, 0, REPLY_TIMEOUT_MS);
  }

  lemma SoundBefore<M>(m: Machine<M>, init: M, trace: seq<Event>, more: seq<Event>)
    requires Sound(m, init, trace + more)
    ensures Sound(m, init, trace)
  {
    var t := trace + more;
    forall i | 0 <= i < |trace| ensures Polite(trace[i]) && ReportedAt(m, init, trace, i) {
      assert Polite(t[i]) && ReportedAt(m, init, t, i) && t[..i] == trace[..i];
    }
  }

  /** One command, as a step of the composition held directly. */
  lemma CommandIsDone<M(!new)>(m: Machine<M>, init: M, s: Sess, line: string, op: Op)
    requires Inv(s) && Single(Commands(line)) && OpOf(line) == Some(op)
    requires RunCmd(s, line, op.Finish?).1.Ok? && Sound(m, init, RunCmd(s, line, op.Finish?).0.trace)
    ensures var (t, r) := RunCmd(s, line, op.Finish?);
      (Held(m, init, t), r.text) == Do(m, Held(m, init, s), op, s.active && s.proc.running)
  {
    CommandIsOp(m, init, s, line, op);
    CommandLeaves(s, line, op.Finish?);
  }

  lemma WordIsDone<M(!new)>(m: Machine<M>, init: M, s: Sess, w: string, op: Op)
    requires Inv(s) && IsWord(w) && OpOf(w + "\n") == Some(op)
    requires RunCmd(s, w + "\n", op.Finish?).1.Ok? && Sound(m, init, RunCmd(s, w + "\n", op.Finish?).0.trace)
    ensures var (t, r) := RunCmd(s, w + "\n", op.Finish?);
      (Held(m, init, t), r.text) == Do(m, Held(m, init, s), op, s.active && s.proc.running)
  {
    WordIsOneCommand(w);
    CommandIsDone(m, init, s, w + "\n", op);
  }

  /** The same with the flag that the call sets afterwards. */
  lemma WordThenFlag<M(!new)>(m: Machine<M>, init: M, s: Sess, w: string, op: Op, t: Sess, r: Reply, active: bool)
    requires Inv(s) && IsWord(w) && OpOf(w + "\n") == Some(op)
    requires RunCmd(s, w + "\n", op.Finish?) == (t, r) && r.Ok? && Sound(m, init, t.trace)
    ensures (Held(m, init, t.(active := active)), r.text) == Do(m, Held(m, init, s), op, active)
  {
    WordIsDone(m, init, s, w, op);
  }

  lemma BeginIsPromised<M(!new)>(m: Machine<M>, init: M, s: Sess)
    requires Inv(s) && Begin(s).1.Ok? && Sound(m, init, Begin(s).0.trace)
    ensures var (t, r) := Begin(s); (Held(m, init, t), r.text) == Do(m, Held(m, init, s), StartOver, true)
  {
    ResetIsOp();
    var (t, r) := RunCmd(s, "sreset" + "\n", false);
    WordThenFlag(m, init, s, "sreset", StartOver, t, r, true);
  }

  lemma TypeMoreIsPromised<M(!new)>(m: Machine<M>, init: M, s: Sess, keys: string)
    requires Inv(s) && s.active && s.proc.running && Single(Commands(TypeLine(keys)))
    requires Type(s, keys).1.Ok? && Sound(m, init, Type(s, keys).0.trace)
    ensures var (t, r) := Type(s, keys); (Held(m, init, t), r.text) == Promised(m, Held(m, init, s), CType(keys))
  {
    TypedLineIsAppend(keys);
    CommandIsDone(m, init, s, TypeLine(keys), Append(keys));
  }

  lemma TypeBegins(s: Sess, keys: string)
    requires !s.active && Type(s, keys).1.Ok?
    ensures Begin(s).1.Ok? && Type(s, keys) == RunCmd(Begin(s).0, TypeLine(keys), false)
  {
  }

  lemma TypeFirstIsPromised<M(!new)>(m: Machine<M>, init: M, s: Sess, keys: string)
    requires Inv(s) && !s.active && Single(Commands(TypeLine(keys)))
    requires Type(s, keys).1.Ok? && Sound(m, init, Type(s, keys).0.trace)
    ensures var (t, r) := Type(s, keys); (Held(m, init, t), r.text) == Promised(m, Held(m, init, s), CType(keys))
  {
    TypeBegins(s, keys);
    var (b, q) := Begin(s);
    var (t, r) := RunCmd(b, TypeLine(keys), false);
    BegunIsReady(s);
    TypeAfterBegin(m, init, s, b, q, t, r, keys);
  }

  lemma BegunIsReady(s: Sess)
    requires Inv(s) && Begin(s).1.Ok?
    ensures var b := Begin(s).0; Inv(b) && b.active && b.proc.running
  {
    var (t, r) := RunCmd(s, "sreset" + "\n", false);
    ResetIsOp();
    ResetIsReady(s, t, r);
  }

  lemma ResetIsReady(s: Sess, t: Sess, r: Reply)
    requires Inv(s) && RunCmd(s, "sreset" + "\n", false) == (t, r) && r.Ok?
    ensures Inv(t.(active := true)) && t.proc.running
  {
    ResetIsOp();
    WordKeepsInv(s, "sreset", false);
    CommandLeaves(s, "sreset" + "\n", false);
  }

  lemma TypeAfterBegin<M(!new)>(m: Machine<M>, init: M, s: Sess, b: Sess, q: Reply, t: Sess, r: Reply, keys: string)
    requires Inv(s) && !s.active && Inv(b) && b.active && b.proc.running && Single(Commands(TypeLine(keys)))
    requires Begin(s) == (b, q) && q.Ok? && RunCmd(b, TypeLine(keys), false) == (t, r)
    requires r.Ok? && Sound(m, init, t.trace)
    ensures (Held(m, init, t), r.text) == Promised(m, Held(m, init, s), CType(keys))
  {
    AppendedAfterBegin(m, init, b, keys);
    BeginIsPromised(m, init, s);
    var db := Held(m, init, b);
    assert db == Do(m, Held(m, init, s), StartOver, true).0;
  }

  lemma AppendedAfterBegin<M(!new)>(m: Machine<M>, init: M, b: Sess, keys: string)
    requires Inv(b) && b.active && b.proc.running && Single(Commands(TypeLine(keys)))
    requires RunCmd(b, TypeLine(keys), false).1.Ok? && Sound(m, init, RunCmd(b, TypeLine(keys), false).0.trace)
    ensures Sound(m, init, b.trace)
    ensures var (t, r) := RunCmd(b, TypeLine(keys), false);
      (Held(m, init, t), r.text) == Do(m, Held(m, init, b), Append(keys), true)
  {
    var e, g := Sent(TypeLine(keys), NextMove(b.proc).emits), Got(RunCmd(b, TypeLine(keys), false).1.text);
    CommandEndsWithItsReply(b, TypeLine(keys), false);
    SoundBefore(m, init, b.trace, [e, g]);
    TypedLineIsAppend(keys);
    CommandIsDone(m, init, b, TypeLine(keys), Append(keys));
  }

  lemma BackspaceIsPromised<M(!new)>(m: Machine<M>, init: M, s: Sess)
    requires Inv(s) && s.active && s.proc.running
    requires Backspace(s).1.Ok? && Sound(m, init, Backspace(s).0.trace)
    ensures var (t, r) := Backspace(s); (Held(m, init, t), r.text) == Do(m, Held(m, init, s), DeleteOne, true)
  {
    BackIsOp();
    WordIsDone(m, init, s, "sback", DeleteOne);
  }

  lemma ConvertIsPromised<M(!new)>(m: Machine<M>, init: M, s: Sess)
    requires Inv(s) && s.active && s.proc.running
    requires Convert(s).1.Ok? && Sound(m, init, Convert(s).0.trace)
    ensures var (t, r) := Convert(s); (Held(m, init, t), r.text) == Do(m, Held(m, init, s), Henkan, true)
  {
    ConvIsOp();
    WordIsDone(m, init, s, "sconv", Henkan);
  }

  lemma PreeditIsPromised<M(!new)>(m: Machine<M>, init: M, s: Sess)
    requires Inv(s) && s.active && s.proc.running
    requires Preedit(s).1.Ok? && Sound(m, init, Preedit(s).0.trace)
    ensures var (t, r) := Preedit(s); (Held(m, init, t), r.text) == Do(m, Held(m, init, s), Look, true)
  {
    PreIsOp();
    WordIsDone(m, init, s, "spre", Look);
  }

  lemma CommitIsPromised<M(!new)>(m: Machine<M>, init: M, s: Sess)
    requires Inv(s) && s.active && s.proc.running
    requires Commit(s).1.Ok? && Sound(m, init, Commit(s).0.trace)
    ensures var (t, r) := Commit(s); (Held(m, init, t), r.text) == Do(m, Held(m, init, s), Finish, false)
  {
    CommitIsOp();
    var (t, r) := RunCmd(s, "scommit" + "\n", true);
    WordThenFlag(m, init, s, "scommit", Finish, t, r, false);
  }

  lemma CancelSends(s: Sess)
    requires s.active || !s.proc.running
    ensures var (t, r) := RunCmd(s, "scancel" + "\n", false);
      Cancel(s) == (t.(active := false), if r.Ok? then Ok("") else r)
  {
  }

  lemma CancelIsPromised<M(!new)>(m: Machine<M>, init: M, s: Sess)
    requires Inv(s) && (s.active || !s.proc.running)
    requires Cancel(s).1.Ok? && Sound(m, init, Cancel(s).0.trace)
    ensures var (t, r) := Cancel(s); Held(m, init, t) == Do(m, Held(m, init, s), Abandon, false).0 && r.text == ""
  {
    CancelSends(s);
    var (t, r) := RunCmd(s, "scancel" + "\n", false);
    SentCancelIsPromised(m, init, s, t, r);
  }

  lemma SentCancelIsPromised<M(!new)>(m: Machine<M>, init: M, s: Sess, t: Sess, r: Reply)
    requires Inv(s) && RunCmd(s, "scancel" + "\n", false) == (t, r) && r.Ok? && Sound(m, init, t.trace)
    ensures Held(m, init, t.(active := false)) == Do(m, Held(m, init, s), Abandon, false).0
  {
    CancelIsOp();
    WordThenFlag(m, init, s, "scancel", Abandon, t, r, false);
  }

  predicate IsOp(c: Call) {
    !c.CStart? && !c.CStop?
  }

  /** A call that succeeds does to the composition what its caller is promised, and returns
      the text that the composition reports; whether a composition is active afterwards is
      part of the promise. */
  lemma CallIsPromised<M(!new)>(m: Machine<M>, init: M, s: Sess, c: Call)
    requires Inv(s) && (s.active ==> s.proc.running) && SingleCall(c) && IsOp(c)
    requires Apply(s, c).1.Ok? && Sound(m, init, Apply(s, c).0.trace)
    ensures var (t, r) := Apply(s, c); (Held(m, init, t), r.text) == Promised(m, Held(m, init, s), c)
  {
    match c
    case CBegin => BeginIsPromised(m, init, s);
    case CType(keys) => if s.active { TypeMoreIsPromised(m, init, s, keys); } else { TypeFirstIsPromised(m, init, s, keys); }
    case CBackspace => if s.active { BackspaceIsPromised(m, init, s); }
    case CConvert => ConvertIsPromised(m, init, s);
    case CPreedit => if s.active { PreeditIsPromised(m, init, s); }
    case CCommit => if s.active { CommitIsPromised(m, init, s); }
    case CCancel => if s.active || !s.proc.running { CancelIsPromised(m, init, s); }
  }

  // ----- whole runs -----

  function Replies(s: Sess, calls: seq<Call>): seq<Reply>
    decreases |calls|
  {
    if calls == [] then [] else [Apply(s, calls[0]).1] + Replies(Apply(s, calls[0]).0, calls[1..])
  }

  function PromisedTexts<M>(m: Machine<M>, d: Direct<M>, calls: seq<Call>): seq<Reply>
    decreases |calls|
  {
    if calls == [] then []
    else
      var (next, text) := Promised(m, d, calls[0]);
      [Ok(text)] + PromisedTexts(m, next, calls[1..])
  }

  predicate AllWork(s: Sess, calls: seq<Call>)
    decreases |calls|
  {
    calls == [] || (Apply(s, calls[0]).1.Ok? && AllWork(Apply(s, calls[0]).0, calls[1..]))
  }

  lemma CommandExtends(s: Sess, line: string, wantCommit: bool)
    requires RunCmd(s, line, wantCommit).1.Ok?
    ensures s.trace <= RunCmd(s, line, wantCommit).0.trace
  {
    CommandEndsWithItsReply(s, line, wantCommit);
  }

  lemma CallExtends(s: Sess, c: Call)
    requires IsOp(c) && Apply(s, c).1.Ok?
    ensures s.trace <= Apply(s, c).0.trace
  {
    match c
    case CBegin => CommandExtends(s, "sreset" + "\n", false);
    case CType(keys) =>
      if s.active {
        CommandExtends(s, TypeLine(keys), false);
      } else {
        CommandExtends(s, "sreset" + "\n", false);
        CommandExtends(Begin(s).0, TypeLine(keys), false);
      }
    case CBackspace => if s.active { CommandExtends(s, "sback" + "\n", false); }
    case CConvert => CommandExtends(s, "sconv" + "\n", false);
    case CPreedit => if s.active { CommandExtends(s, "spre" + "\n", false); }
    case CCommit => if s.active { CommandExtends(s, "scommit" + "\n", true); }
    case CCancel => if s.active || !s.proc.running { CommandExtends(s, "scancel" + "\n", false); }
  }

  predicate AllOps(calls: seq<Call>) {
    forall i :: 0 <= i < |calls| ==> IsOp(calls[i]) && SingleCall(calls[i])
  }

  lemma {:induction false} RunExtends(s: Sess, calls: seq<Call>)
    requires AllOps(calls) && AllWork(s, calls)
    ensures s.trace <= Run(s, calls).trace
    decreases |calls|
  {
    if calls != [] {
      assert IsOp(calls[0]);
      CallExtends(s, calls[0]);
      RunExtends(Apply(s, calls[0]).0, calls[1..]);
    }
  }

  lemma {:induction false} RunIsPromised<M(!new)>(m: Machine<M>, init: M, s: Sess, calls: seq<Call>)
    requires Inv(s) && (s.active ==> s.proc.running) && AllOps(calls) && AllWork(s, calls)
    requires Sound(m, init, Run(s, calls).trace)
    ensures Replies(s, calls) == PromisedTexts(m, Held(m, init, s), calls)
    decreases |calls|
  {
    if calls != [] {
      var c, t := calls[0], Apply(s, calls[0]).0;
      assert IsOp(c) && SingleCall(c);
      RunExtends(t, calls[1..]);
      var end := Run(t, calls[1..]).trace;
      assert end == t.trace + end[|t.trace|..];
      SoundBefore(m, init, t.trace, end[|t.trace|..]);
      CallIsPromised(m, init, s, c);
      SessionReplies.ApplyKeepsInv(s, c);
      assert t.active ==> t.proc.running;
      RunIsPromised(m, init, t, calls[1..]);
    }
  }

  /** From a fresh engine, over any environment whose workers are polite and faithful and in
      which the calls succeed: the texts returned are those of the composition held directly. */
  lemma EngineIsTheComposition<M(!new)>(m: Machine<M>, init: M, script: seq<Move>, calls: seq<Call>)
    requires AllOps(calls) && AllWork(Fresh(script), calls)
    requires Sound(m, init, Run(Fresh(script), calls).trace)
    ensures Replies(Fresh(script), calls) == PromisedTexts(m, Direct(init, false, false), calls)
  {
    RunIsPromised(m, init, Fresh(script), calls);
  }

  // ----- such environments -----

  /** The line that this model of a worker prints. */
  function Report(op: Op, text: string): string {
    (if op.Finish? then "ATD COMMIT " else "ATD PRE ") + text
  }

  lemma ReportIsAReply(op: Op, text: string)
    requires Plain(text)
    ensures Scan(ReplyHandler(op.Finish?), "", Report(op, text) + "\n") == Halted(text, "")
  {
    ReportIsRead(Report(op, text), op, text);
    ScanOneLine(ReplyHandler(op.Finish?), "", Report(op, text));
  }

  lemma QuietIsStarved(wantCommit: bool, buf: string, more: string)
    requires QuietText(buf + more)
    ensures Scan(ReplyHandler(wantCommit), "", buf).Starved?
    ensures Scan(ReplyHandler(wantCommit), "", buf + more) == Starved("", "")
  {
    NoiseIsSkipped(wantCommit, "", LinesOf(buf + more));
    ScanOfText(ReplyHandler(wantCommit), "", LinesOf(buf + more));
    ScanInPieces(ReplyHandler(wantCommit), "", buf, more);
  }

  lemma ReportIsFound(op: Op, text: string, buf: string, pipe: string)
    requires QuietText(buf + pipe) && Plain(text)
    ensures Scan(ReplyHandler(op.Finish?), "", buf).Starved?
    ensures Scan(ReplyHandler(op.Finish?), "", buf + (pipe + (Report(op, text) + "\n"))) == Halted(text, "")
  {
    var emits, h := Report(op, text) + "\n", ReplyHandler(op.Finish?);
    QuietIsStarved(op.Finish?, buf, pipe);
    ReportIsAReply(op, text);
    ScanInPieces(h, "", buf + pipe, emits);
    assert "" + emits == emits;
    Reassociate(buf, pipe, emits);
  }

  /** An environment that takes a command, reports this text for it and delivers it. */
  function Reporting(s: Sess, op: Op, text: string): seq<Move> {
    var emits := Report(op, text) + "\n";
    [Move(true, emits, 0, ""), Move(true, "", |s.proc.pipe| + |emits|, "")]
  }

  /** Over a live worker that reports a text the call returns exactly this text and leaves
      nothing unread. */
  lemma ReportedTextIsReturned(s: Sess, line: string, op: Op, text: string, more: seq<Move>)
    requires s.proc.running && Quiet(s) && Plain(text)
    ensures RunCmd(s.(proc := s.proc.(script := Reporting(s, op, text) + more)), line, op.Finish?) ==
      (Sess(Proc(true, "", more), "", s.active, s.trace + [Sent(line, Report(op, text) + "\n"), Got(text)]), Ok(text))
  {
    var emits, h := Report(op, text) + "\n", ReplyHandler(op.Finish?);
    var script := Reporting(s, op, text) + more;
    var reading := [Reporting(s, op, text)[1]] + more;
    assert script[1..] == reading && reading[1..] == more;
    var sent := Sess(Proc(true, s.proc.pipe + emits, reading), s.rbuf, s.active, s.trace + [Sent(line, emits)]);
    assert Send(s.(proc := s.proc.(script := script)), line) == (sent, Ok(""));
    ReportIsFound(op, text, s.rbuf, s.proc.pipe);
    OneReadFinds(h, "", sent.rbuf, sent.proc, REPLY_TIMEOUT_MS);
    assert s.trace + [Sent(line, emits), Got(text)] == (s.trace + [Sent(line, emits)]) + [Got(text)];
  }

  /** So a commit over a worker that prints "ATD COMMIT" and a text returns that text. */
  lemma CommitReturnsWhatIsPrinted(s: Sess, text: string, more: seq<Move>)
    requires s.active && s.proc.running && Quiet(s) && Plain(text)
    ensures var (t, r) := Commit(s.(proc := s.proc.(script := Reporting(s, Finish, text) + more)));
      && r == Ok(text) && !t.active
      && t.trace == s.trace + [Sent("scommit" + "\n", "ATD COMMIT " + text + "\n"), Got(text)]
  {
    ReportedTextIsReturned(s, "scommit" + "\n", Finish, text, more);
  }
}
