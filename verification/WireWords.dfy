/** The protocol as its document writes it: which line asks for what, what the engines are
    asked then, and what the reply says, letter by letter. */
module WireWords {
  import opened Lines
  import opened Proto
  import opened Wrappers
  import opened Wire
  import opened Stack
  import opened Client
  import C = Candidates
  import B = Session
  import H = HarnessProtocol
  import S = SessionProtocol

  /** Fields behind the first, each after a tab. */
  function Tabbed(fs: seq<string>): string {
    if fs == [] then "" else "\t" + fs[0] + Tabbed(fs[1..])
  }

  lemma {:induction false} TabbedOfAppended(fs: seq<string>, f: string)
    ensures Tabbed(fs + [f]) == Tabbed(fs) + "\t" + f
  {
    if fs == [] {
      assert ([] + [f])[1..] == [];
    } else {
      assert (fs + [f])[1..] == fs[1..] + [f];
      TabbedOfAppended(fs[1..], f);
    }
  }

  lemma {:induction false} JoinedIsTabbed(head: string, fs: seq<string>)
    ensures Joined([head] + fs) == head + Tabbed(fs)
  {
    var all := [head] + fs;
    if fs == [] {
      assert all == [head];
    } else {
      var init, last := fs[..|fs| - 1], fs[|fs| - 1];
      JoinedIsTabbed(head, init);
      TabbedOfAppended(init, last);
      assert fs == init + [last] && all[..|all| - 1] == [head] + init;
    }
  }

  lemma TwoFields(head: string, x: string)
    ensures Joined([head, x]) == head + Tabbed([x])
  {
    JoinedIsTabbed(head, [x]);
    assert [head] + [x] == [head, x];
  }

  lemma FieldsOfTabbed(head: string, fs: seq<string>)
    requires Clean(head) && AllClean(fs)
    ensures Fields(head + Tabbed(fs)) == [head] + fs
  {
    JoinedIsTabbed(head, fs);
    FieldsOfJoined([head] + fs);
  }

  // ----- what the client writes -----

  /** The request lines of the document; a maximum is sent only if it is positive. */
  function WithMax(word: string, r: string, max: int): string {
    if max > 0 then word + Tabbed([r, ToString(max)]) else word + Tabbed([r])
  }

  function Written(q: Request): string {
    match q
    case QPing => "ping"
    case QConvert(r) => "convert" + Tabbed([r])
    case QCandidates(r, max) => WithMax("candidates", r, max)
    case QCandidatesEx(r, max) => WithMax("candidates-ex", r, max)
    case QSessionCandidates(r, max) => WithMax("session-candidates", r, max)
    case QBegin => "session-begin"
    case QKey(keys) => "key" + Tabbed([keys])
    case QBackspace => "backspace"
    case QConvertSession => "convert-session"
    case QPreedit => "preedit"
    case QCommit => "commit"
    case QCancel => "cancel"
  }

  lemma RequestsAreWrittenSo(q: Request)
    ensures RequestLine(q) == Written(q)
  {
    JoinedIsTabbed(Name(VerbFor(q)), Args(q));
    assert Tabbed([]) == "";
  }

  // ----- what the daemon does with them -----

  lemma Dispatched(b: Stack, word: string, fs: seq<string>, v: Verb, call: Call)
    requires Clean(word) && AllClean(fs) && word != "" && VerbOf(word) == Some(v)
    requires PlanForVerb(v, [word] + fs) == Ask(call)
    ensures var (b', o) := StackStep(b, call);
      ServeLine(StackStep, b, word + Tabbed(fs)) == Served(b', Some(ReplyFor(v, o)), false)
  {
    FieldsOfTabbed(word, fs);
  }

  function SessionWord(c: S.Call): string {
    match c
    case CBegin => "session-begin"
    case CType(_) => "key"
    case CBackspace => "backspace"
    case CConvert => "convert-session"
    case CPreedit => "preedit"
    case CCommit => "commit"
    case CCancel => "cancel"
    case _ => ""
  }

  function SessionArgs(c: S.Call): seq<string> {
    if c.CType? then [c.ascii] else []
  }

  /** What a session request is answered: an error, the committed text, a bare acknowledgement,
      or the preedit. */
  function SessionAnswer(c: S.Call, r: S.Reply): string {
    match r
    case Err(msg) => "err" + Tabbed([msg]) + "\n"
    case Ok(text) =>
      if c.CCommit? then "commit" + Tabbed([text]) + "\n"
      else if c.CCancel? || text == "" then "ok" + "\n"
      else "ok" + Tabbed([text]) + "\n"
  }

  /** The session table: each request makes its own call of the session engine, with the same
      keys, touches nothing else, and is answered from what that call returned. */
  lemma SessionRequest(b: Stack, c: S.Call)
    requires !c.CStart? && !c.CStop? && (c.CType? ==> Clean(c.ascii))
    ensures var rested := Rested(b);
      var (t, r) := S.Apply(rested.sess, c);
      ServeLine(StackStep, b, SessionWord(c) + Tabbed(SessionArgs(c)))
        == Served(rested.(sess := t), Some(SessionAnswer(c, r)), false)
  {
    SessionDispatch(b, c);
    SessionReplyIs(VerbAndCall(c).0, c, S.Apply(Rested(b).sess, c).1);
  }

  lemma SessionDispatch(b: Stack, c: S.Call)
    requires !c.CStart? && !c.CStop? && (c.CType? ==> Clean(c.ascii))
    ensures var (t, r) := S.Apply(Rested(b).sess, c);
      ServeLine(StackStep, b, SessionWord(c) + Tabbed(SessionArgs(c)))
        == Served(Rested(b).(sess := t), Some(ReplyFor(VerbAndCall(c).0, OutcomeOf(r))), false)
  {
    var (v, call) := VerbAndCall(c);
    VerbOfName(v);
    WordIsName(c);
    Dispatched(b, SessionWord(c), SessionArgs(c), v, call);
    SessionStep(b, c);
  }

  lemma WordIsName(c: S.Call)
    requires !c.CStart? && !c.CStop?
    ensures SessionWord(c) == Name(VerbAndCall(c).0)
  {
  }

  lemma OwnCall(c: S.Call)
    requires !c.CStart? && !c.CStop?
    ensures var call := VerbAndCall(c).1; !call.Top1? && !call.List? && SessionCall(call) == c
  {
  }

  lemma StepIsSession(b: Stack, call: Call)
    requires !call.Top1? && !call.List?
    ensures StackStep(b, call) == SessionOn(Rested(b), SessionCall(call))
  {
  }

  lemma SessionOutcome(b: Stack, c: S.Call)
    ensures var (t, r) := S.Apply(b.sess, c); SessionOn(b, c) == (b.(sess := t), OutcomeOf(r))
  {
  }

  lemma SessionStep(b: Stack, c: S.Call)
    requires !c.CStart? && !c.CStop?
    ensures var (t, r) := S.Apply(Rested(b).sess, c);
      StackStep(b, VerbAndCall(c).1) == (Rested(b).(sess := t), OutcomeOf(r))
  {
    OwnCall(c);
    StepIsSession(b, VerbAndCall(c).1);
    SessionOutcome(Rested(b), c);
  }

  function OutcomeOf(r: S.Reply): Outcome {
    match r case Ok(text) => Done(EMPTY_RESULT, text) case Err(msg) => Failed(msg)
  }

  function VerbAndCall(c: S.Call): (Verb, Call)
    requires !c.CStart? && !c.CStop?
  {
    match c
    case CBegin => (Begin, SBegin)
    case CType(keys) => (Key, SKey(keys))
    case CBackspace => (Backspace, SBackspace)
    case CConvert => (ConvertSession, SConvert)
    case CPreedit => (Preedit, SPreedit)
    case CCommit => (Commit, SCommit)
    case CCancel => (Cancel, SCancel)
  }

  lemma SessionReplyIs(v: Verb, c: S.Call, r: S.Reply)
    requires !c.CStart? && !c.CStop? && v == VerbAndCall(c).0
    ensures ReplyFor(v, OutcomeOf(r)) == SessionAnswer(c, r)
  {
    match r
    case Ok(text) =>
      TwoFields("ok", text);
      TwoFields("commit", text);
    case Err(msg) => TwoFields("err", msg);
  }

  // ----- batch requests -----

  function FlatAnswer(ok: bool, res: ConvertResult, err: string): string {
    if ok then "ok" + Tabbed([res.commit] + res.candidates) + "\n" else "err" + Tabbed([err]) + "\n"
  }

  lemma FlatReplyIs(v: Verb, ok: bool, res: ConvertResult, err: string)
    requires v.Convert? || v.Candidates? || v.SessionCandidates?
    ensures ReplyFor(v, if ok then Done(res, "") else Failed(err)) == FlatAnswer(ok, res, err)
  {
    JoinedIsTabbed("ok", [res.commit] + res.candidates);
    assert ["ok", res.commit] + res.candidates == ["ok"] + ([res.commit] + res.candidates);
    TwoFields("err", err);
  }

  /** `convert` asks the batch engine for the top conversion only, remembers its commit, and
      leaves an uncached reading to the prefetch. */
  lemma ConvertRequest(b: Stack, r: string)
    requires Clean(r)
    ensures var rested := Rested(b);
      var (h, a) := H.TopOne(rested.harn, r, EMPTY_RESULT);
      var s := ServeLine(StackStep, b, "convert" + Tabbed([r]));
      && s.reply == Some(FlatAnswer(a.ok, a.res, a.err)) && !s.lax
      && s.b.harn == h && s.b.sess == rested.sess && s.b.mem.cache == rested.mem.cache
      && s.b.pending == (if a.ok && r !in rested.mem.cache then r else rested.pending)
      && (a.ok ==> C.HintFor(s.b.mem, r) == a.res.commit)
  {
    VerbOfName(Verb.Convert);
    Dispatched(b, "convert", [r], Verb.Convert, Top1(r));
    var (h, a) := H.TopOne(Rested(b).harn, r, EMPTY_RESULT);
    FlatReplyIs(Verb.Convert, a.ok, a.res, a.err);
  }

  /** `candidates` and `session-candidates` ask for the list, cut to the maximum sent. */
  lemma CandidatesRequest(b: Stack, r: string, max: nat, session: bool)
    requires Clean(r)
    ensures var rested := Rested(b);
      var (h, top, full) := B.Consult(rested.harn, r);
      var (ok, res, m) := C.CandidatesCall(rested.mem, r, max, top, full);
      var s := ServeLine(StackStep, b, WithMax(if session then "session-candidates" else "candidates", r, max));
      && s.reply == Some(FlatAnswer(ok, res, full.err)) && !s.lax
      && s.b == rested.(mem := m, harn := if r in rested.mem.cache then rested.harn else h)
  {
    var v := if session then SessionCandidates else Verb.Candidates;
    ListRequest(b, v, r, max);
    var (h, top, full) := B.Consult(Rested(b).harn, r);
    var (ok, res, m) := C.CandidatesCall(Rested(b).mem, r, max, top, full);
    FlatReplyIs(v, ok, res, full.err);
  }

  lemma ListRequest(b: Stack, v: Verb, r: string, max: nat)
    requires Clean(r) && (v.Candidates? || v.CandidatesEx? || v.SessionCandidates?)
    ensures var (b', o) := StackStep(b, List(r, max));
      ServeLine(StackStep, b, WithMax(Name(v), r, max)) == Served(b', Some(ReplyFor(v, o)), false)
  {
    VerbOfName(v);
    NumberRoundTrip(max);
    if max > 0 {
      Dispatched(b, Name(v), [r, ToString(max)], v, List(r, max));
    } else {
      Dispatched(b, Name(v), [r], v, List(r, 0));
    }
  }

  // ----- enriched replies -----

  /** Three fields for each entry, or for each flat surface when there are no entries. */
  predicate Rows(fields: seq<string>, res: ConvertResult) {
    if res.candidatesEx != [] then
      && |fields| == 3 * |res.candidatesEx|
      && forall k :: 0 <= k < |res.candidatesEx| ==>
           && fields[3 * k] == res.candidatesEx[k].surface
           && fields[3 * k + 1] == res.candidatesEx[k].reading
           && fields[3 * k + 2] == res.candidatesEx[k].hinsi
    else
      && |fields| == 3 * |res.candidates|
      && forall k :: 0 <= k < |res.candidates| ==>
           fields[3 * k] == res.candidates[k] && fields[3 * k + 1] == "" && fields[3 * k + 2] == ""
  }

  lemma {:induction false} FlattenedRows(ex: seq<Candidate>)
    ensures |Flattened(ex)| == 3 * |ex|
    ensures forall k :: 0 <= k < |ex| ==>
      Flattened(ex)[3 * k] == ex[k].surface && Flattened(ex)[3 * k + 1] == ex[k].reading && Flattened(ex)[3 * k + 2] == ex[k].hinsi
  {
    if ex != [] {
      FlattenedRows(ex[..|ex| - 1]);
    }
  }

  lemma OfferedRows(res: ConvertResult)
    ensures Rows(Flattened(Offered(res)), res)
  {
    FlattenedRows(Offered(res));
  }

  function RichAnswer(ok: bool, commit: string, rows: seq<string>, err: string): string {
    if ok then "okx" + Tabbed([commit] + rows) + "\n" else "err" + Tabbed([err]) + "\n"
  }

  lemma RichReplyIs(ok: bool, res: ConvertResult, err: string)
    ensures ReplyFor(CandidatesEx, if ok then Done(res, "") else Failed(err))
      == RichAnswer(ok, res.commit, Flattened(Offered(res)), err)
  {
    var rows := Flattened(Offered(res));
    JoinedIsTabbed("okx", [res.commit] + rows);
    assert ["okx", res.commit] + rows == ["okx"] + ([res.commit] + rows);
    TwoFields("err", err);
  }

  /** `candidates-ex`: the commit, then the rows. */
  lemma CandidatesExRequest(b: Stack, r: string, max: nat) returns (rows: seq<string>)
    requires Clean(r)
    ensures var rested := Rested(b);
      var (h, top, full) := B.Consult(rested.harn, r);
      var (ok, res, m) := C.CandidatesCall(rested.mem, r, max, top, full);
      var s := ServeLine(StackStep, b, WithMax("candidates-ex", r, max));
      && s.reply == Some(RichAnswer(ok, res.commit, rows, full.err)) && Rows(rows, res) && !s.lax
      && s.b == rested.(mem := m, harn := if r in rested.mem.cache then rested.harn else h)
  {
    ListRequest(b, CandidatesEx, r, max);
    var (h, top, full) := B.Consult(Rested(b).harn, r);
    var (ok, res, m) := C.CandidatesCall(Rested(b).mem, r, max, top, full);
    rows := Flattened(Offered(res));
    OfferedRows(res);
    RichReplyIs(ok, res, full.err);
  }

  /** What the client makes of the rows: the entries with a surface, or the flat surfaces with
      empty readings and parts of speech. */
  lemma EnrichedIsReadBack(res: ConvertResult)
    ensures var ex := Unflattened(["okx", res.commit] + Flattened(Offered(res)), 2);
      if res.candidatesEx != [] then ex == WithSurface(res.candidatesEx)
      else ex == Bare(res.candidates)
  {
    TriplesRoundTrip(["okx", res.commit], Offered(res));
    if res.candidatesEx == [] {
      BareIsPlain(res.candidates);
    }
  }

  /** The non-empty surfaces as entries without reading and part of speech. */
  function Bare(surfaces: seq<string>): seq<Candidate> {
    if surfaces == [] then []
    else (if surfaces[0] != "" then [Candidate(surfaces[0], "", "")] else []) + Bare(surfaces[1..])
  }

  lemma {:induction false} BareIsPlain(surfaces: seq<string>)
    ensures WithSurface(Plain(surfaces)) == Bare(surfaces)
  {
    if surfaces != [] {
      assert Plain(surfaces)[1..] == Plain(surfaces[1..]);
      BareIsPlain(surfaces[1..]);
    }
  }

  /** What a caller in the same process is handed, request by request. */
  lemma DirectAnswers(q: Request, res: ConvertResult, text: string)
    ensures var d := Direct(q, Done(res, text));
      match q
      case QConvert(_) => d == Result(ConvertResult(res.commit, res.candidates, []))
      case QCandidates(_, _) => d == Result(ConvertResult(res.commit, res.candidates, []))
      case QSessionCandidates(_, _) => d == Result(ConvertResult(res.commit, res.candidates, []))
      case QCandidatesEx(_, _) =>
        var ex := if res.candidatesEx != [] then WithSurface(res.candidatesEx) else Bare(res.candidates);
        d == Result(ConvertResult(res.commit, SurfacesOf(ex), ex))
      case QCancel => d == Said("")
      case _ => d == Said(text)
  {
    BareIsPlain(res.candidates);
  }

  // ----- requests that ask for nothing -----

  predicate NeedsReading(op: string) {
    op == "convert" || op == "candidates" || op == "candidates-ex" || op == "session-candidates"
  }

  predicate Known(op: string) {
    NeedsReading(op) || op == "ping" || op == "key" || op == "session-begin" || op == "backspace"
    || op == "convert-session" || op == "preedit" || op == "commit" || op == "cancel"
  }

  /** An empty operation is not answered at all; a missing reading, missing keys and an unknown
      operation are complained about, and nothing is asked.  Only the write of the first
      complaint goes unchecked. */
  lemma AskingForNothing(b: Stack, op: string)
    requires Clean(op)
    ensures var s := ServeLine(StackStep, b, op);
      && (op == "" ==> s == Served(b, None, false))
      && (op == "ping" ==> s == Served(b, Some("pong" + "\n"), false))
      && (NeedsReading(op) ==> s == Served(b, Some("err" + Tabbed([op + ": missing romaji"]) + "\n"), true))
      && (op == "key" ==> s == Served(b, Some("err" + Tabbed(["key: missing chars"]) + "\n"), false))
      && (op != "" && !Known(op) ==> s == Served(b, Some("err" + Tabbed(["unknown op: " + op]) + "\n"), false))
  {
    OneField(op);
    if op == "" || op == "ping" || op == "key" {
      TwoFields("err", "key: missing chars");
    } else if NeedsReading(op) {
      MissingReading(b, op);
    } else if !Known(op) {
      UnknownOp(b, op);
    }
  }

  lemma OneField(op: string)
    requires Clean(op)
    ensures Fields(op) == [op]
  {
    FieldsOfTabbed(op, []);
    assert Tabbed([]) == "" && op + "" == op && [op] + [] == [op];
  }

  lemma MissingReading(b: Stack, op: string)
    requires NeedsReading(op) && Fields(op) == [op]
    ensures ServeLine(StackStep, b, op) == Served(b, Some("err" + Tabbed([op + ": missing romaji"]) + "\n"), true)
  {
    TwoFields("err", op + ": missing romaji");
  }

  lemma UnknownOp(b: Stack, op: string)
    requires op != "" && !Known(op) && Fields(op) == [op]
    ensures ServeLine(StackStep, b, op) == Served(b, Some("err" + Tabbed(["unknown op: " + op]) + "\n"), false)
  {
    assert VerbOf(op) == None;
    TwoFields("err", "unknown op: " + op);
  }

  // ----- what the client makes of replies -----

  /** A flat reply: the commit and the candidates. */
  lemma ClientReadsList(q: Request, commit: string, cands: seq<string>)
    requires q.QConvert? || q.QCandidates? || q.QSessionCandidates?
    requires Clean(commit) && AllClean(cands)
    ensures Decode(q, "ok" + Tabbed([commit] + cands)) == Result(ConvertResult(commit, cands, []))
  {
    FieldsOfTabbed("ok", [commit] + cands);
    var f := ["ok"] + ([commit] + cands);
    assert f[2..] == cands;
  }

  /** A text: of a commit behind "commit", of any other session request behind "ok"; a bare verb
      is the empty text, and a cancel hands out none. */
  lemma ClientReadsText(q: Request, text: string)
    requires !q.QPing? && !q.QCandidatesEx? && !AsksForList(q) && Clean(text)
    ensures var verb := if q.QCommit? then "commit" else "ok";
      && Decode(q, verb + Tabbed([text])) == Said(if q.QCancel? then "" else text)
      && Decode(q, verb) == Said("")
  {
    if q.QCommit? {
      TextIsDecoded(q, "commit", text);
    } else {
      TextIsDecoded(q, "ok", text);
    }
  }

  lemma TextIsDecoded(q: Request, verb: string, text: string)
    requires !q.QPing? && !q.QCandidatesEx? && !AsksForList(q) && Clean(text) && Clean(verb)
    requires verb == if q.QCommit? then "commit" else "ok"
    ensures Decode(q, verb + Tabbed([text])) == Said(if q.QCancel? then "" else text)
    ensures Decode(q, verb) == Said("")
  {
    FieldsOfTabbed(verb, [text]);
    OneField(verb);
    assert verb[0] != "err"[0];
  }

  /** An error is refused with its message, or with a message of the client's own when it has
      none. */
  lemma ClientReadsError(q: Request, msg: string)
    requires !q.QPing? && Clean(msg)
    ensures Decode(q, "err" + Tabbed([msg])) == Refused(msg) && Decode(q, "err") == Refused("engine error")
  {
    FieldsOfTabbed("err", [msg]);
    OneField("err");
  }

  /** And any other verb is refused by name. */
  lemma ClientRefuses(q: Request, verb: string, fs: seq<string>)
    requires !q.QPing? && Clean(verb) && AllClean(fs) && verb != "err"
    requires verb != if q.QCommit? then "commit" else if q.QCandidatesEx? then "okx" else "ok"
    ensures Decode(q, verb + Tabbed(fs)) == Refused("unexpected reply: " + verb)
  {
    FieldsOfTabbed(verb, fs);
  }

  /** A ping is answered by any line that begins with the word. */
  lemma ClientReadsPong(line: string)
    ensures Decode(QPing, line) == if |line| >= 4 && line[..4] == "pong" then Said("") else Refused("no pong: " + line)
  {
  }

  /** Groups of three fields are entries; a short last group has empty fields, and a group
      without a surface is none. */
  lemma GroupsOfThree(f: seq<string>, i: nat)
    ensures i >= |f| ==> Unflattened(f, i) == []
    ensures i < |f| && f[i] == "" ==> Unflattened(f, i) == Unflattened(f, i + 3)
    ensures i + 3 <= |f| && f[i] != "" ==>
      Unflattened(f, i) == [Candidate(f[i], f[i + 1], f[i + 2])] + Unflattened(f, i + 3)
    ensures i + 2 == |f| && f[i] != "" ==> Unflattened(f, i) == [Candidate(f[i], f[i + 1], "")]
    ensures i + 1 == |f| && f[i] != "" ==> Unflattened(f, i) == [Candidate(f[i], "", "")]
  {
  }

  /** An enriched reply: the commit, the entries from the third field on, and their surfaces as
      the flat list. */
  lemma ClientReadsRows(r: string, max: int, commit: string, rows: seq<string>)
    requires Clean(commit) && AllClean(rows)
    ensures var ex := Unflattened(["okx", commit] + rows, 2);
      Decode(QCandidatesEx(r, max), "okx" + Tabbed([commit] + rows)) == Result(ConvertResult(commit, SurfacesOf(ex), ex))
    ensures Decode(QCandidatesEx(r, max), "okx") == Result(ConvertResult("", [], []))
  {
    FieldsOfTabbed("okx", [commit] + rows);
    assert ["okx"] + ([commit] + rows) == ["okx", commit] + rows;
    OneField("okx");
  }

  /** What a request comes to: no connection, a message that was not sent, a reply that did not
      come, or what is made of the first line of the stream. */
  lemma RequestComesTo(q: Request, stream: string, line: string, rest: string, writes: seq<bool>)
    requires '\n' !in line
    ensures Expected(q, Down) == Broken(NoConnection)
    ensures writes != [] && !writes[0] ==> Expected(q, Up(stream, writes)) == Broken(NotSent)
    ensures writes == [] || writes[0] ==>
      && ('\n' !in stream ==> Expected(q, Up(stream, writes)) == Broken(NoReply))
      && Expected(q, Up(line + "\n" + rest, writes)) == Answered(Decode(q, line))
      && Faced(Up(line + "\n" + rest, writes)).stream == rest
  {
    var s := line + "\n" + rest;
    assert s[..|line|] == line && s[|line| + 1..] == rest && s[|line|] == '\n';
    NewlineIsUnique(s, |line|);
  }
}
