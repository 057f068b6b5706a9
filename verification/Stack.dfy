/** The backend of the daemon as it is: a `Session` over the batch engine, with its
    prefetch worker, and a `SessionEngine`.  Each call is made of the functions that
    specify the classes. */
module Stack {
  import opened Proto
  import opened Wrappers
  import opened Wire
  import opened Candidates
  import opened Lines
  import opened SessionWorker
  import opened WorkerInput
  import B = Session
  import H = HarnessProtocol
  import S = SessionProtocol
  import D = SessionDiscipline

  /** `idle` says, for each call to come, whether the prefetch worker has its turn first;
      past its end it has none. */
  datatype Stack = Stack(mem: Mem, pending: string, idle: seq<bool>, harn: H.Harn, sess: S.Sess)

  /** The state in which the next call is made. */
  function Rested(b: Stack): Stack {
    var after := b.(idle := if b.idle == [] then [] else b.idle[1..]);
    if b.idle == [] || !b.idle[0] || b.pending == "" then after
    else
      var r := b.pending;
      var (h, top, conv) := B.Consult(b.harn, r);
      after.(pending := "", mem := PrefetchCall(b.mem, r, top, conv), harn := if r in b.mem.cache then b.harn else h)
  }

  function Top1On(b: Stack, r: string): (Stack, Outcome) {
    var (h, a) := H.TopOne(b.harn, r, EMPTY_RESULT);
    var (m, pending) := Top1Call(b.mem, b.pending, r, a);
    (b.(mem := m, pending := pending, harn := h), if a.ok then Done(a.res, "") else Failed(a.err))
  }

  function ListOn(b: Stack, r: string, max: int): (Stack, Outcome) {
    var (h, top, conv) := B.Consult(b.harn, r);
    var (ok, res, m) := CandidatesCall(b.mem, r, max, top, conv);
    (b.(mem := m, harn := if r in b.mem.cache then b.harn else h), if ok then Done(res, "") else Failed(conv.err))
  }

  /** The session engine's call behind a call of the daemon. */
  function SessionCall(c: Call): S.Call
    requires !c.Top1? && !c.List?
  {
    match c
    case SBegin => S.CBegin
    case SKey(ascii) => S.CType(ascii)
    case SBackspace => S.CBackspace
    case SConvert => S.CConvert
    case SPreedit => S.CPreedit
    case SCommit => S.CCommit
    case SCancel => S.CCancel
  }

  function SessionOn(b: Stack, c: S.Call): (Stack, Outcome) {
    var (t, r) := S.Apply(b.sess, c);
    (b.(sess := t), match r case Ok(text) => Done(EMPTY_RESULT, text) case Err(msg) => Failed(msg))
  }

  function StackStep(b: Stack, c: Call): (Stack, Outcome) {
    match c
    case Top1(r) => Top1On(Rested(b), r)
    case List(r, max) => ListOn(Rested(b), r, max)
    case _ => SessionOn(Rested(b), SessionCall(c))
  }

  /** Every maximum below one means no cut, so it does not matter that it is not sent. */
  lemma StackCutsNothingBelowOne()
    ensures NoCutBelowOne(StackStep)
  {
    forall b, c ensures StackStep(b, Sent(c)) == StackStep(b, c) {
      if c.List? && c.max <= 0 {
        var (h, top, conv) := B.Consult(Rested(b).harn, c.r);
        SameCut(Rested(b).mem, c.r, c.max, top, conv);
      }
    }
  }

  lemma SameCut(m: Mem, r: string, max: int, top: H.Answer, conv: H.Answer)
    requires max <= 0
    ensures CandidatesCall(m, r, max, top, conv) == CandidatesCall(m, r, 0, top, conv)
  {
  }

  // ----- what the daemon lets through to a session worker -----

  /** A key text from the socket holds no line end, so it is one line for the worker;
      only a semicolon can still divide it. */
  lemma DaemonKeysAreOneLine(line: string)
    ensures match PlanFor(Fields(line))
      case Ask(SKey(text)) => Uncut(text, EndsLine) && (Uncut(text, IsSemicolon) ==> Harmless(text))
      case _ => true
  {
    var f := Fields(line);
    match PlanFor(f)
    case Ask(SKey(text)) =>
      assert text == f[1] && Clean(f[1]);
      if Uncut(text, IsSemicolon) {
        PlainTextIsHarmless(text);
      }
    case _ =>
  }

  /** A request line whose key text, if it has one, is harmless. */
  predicate HarmlessLine(line: string) {
    match PlanFor(Fields(line))
    case Ask(SKey(text)) => Harmless(text)
    case _ => true
  }

  lemma StepKeepsSession(b: Stack, c: Call)
    requires D.Inv(b.sess) && (c.SKey? ==> Harmless(c.ascii))
    ensures D.Inv(StackStep(b, c).0.sess)
  {
    if !c.Top1? && !c.List? {
      D.ApplyKeepsInv(b.sess, SessionCall(c));
    }
  }

  lemma LineKeepsSession(b: Stack, line: string)
    requires D.Inv(b.sess) && HarmlessLine(line)
    ensures D.Inv(ServeLine(StackStep, b, line).b.sess)
  {
    match PlanFor(Fields(line))
    case Skip =>
    case Immediate(_, _) =>
    case Ask(call) => StepKeepsSession(b, call);
  }

  /** Whatever lines any peer sends, and whichever writes fail: the session workers behind
      the daemon stay disciplined as long as the key texts are harmless. */
  lemma {:induction false} ServingIsDisciplined(b: Stack, lines: seq<string>, writes: seq<bool>)
    requires D.Inv(b.sess) && forall i :: 0 <= i < |lines| ==> HarmlessLine(lines[i])
    ensures D.Inv(ServeLines(StackStep, b, lines, writes).b.sess)
    ensures Disciplined(ServeLines(StackStep, b, lines, writes).b.sess.trace)
    decreases |lines|
  {
    if lines != [] {
      LineKeepsSession(b, lines[0]);
      var s := ServeLine(StackStep, b, lines[0]);
      ServingIsDisciplined(s.b, lines[1..], writes);
      ServingIsDisciplined(s.b, lines[1..], NextWrites(writes));
    }
  }

  /** The condition is about semicolons only. */
  lemma LinesWithoutSemicolonAreHarmless(line: string)
    ensures match PlanFor(Fields(line))
      case Ask(SKey(text)) => Uncut(text, IsSemicolon) ==> HarmlessLine(line)
      case _ => HarmlessLine(line)
  {
    DaemonKeysAreOneLine(line);
  }

  /** And it is needed: this request is planned as a key text that carries a commit. */
  lemma SemicolonGetsThrough()
    ensures var line := Joined(["key", "a" + ";" + "scommit"]); !HarmlessLine(line)
  {
    var fs := ["key", "a" + ";" + "scommit"];
    assert Clean(fs[0]) && Clean(fs[1]);
    FieldsOfJoined(fs);
    assert Name(Key) == fs[0];
    VerbOfName(Key);
    CommitBehindSemicolonIsHarmful("a");
  }
}
