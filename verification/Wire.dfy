/** The relay: what the daemon answers to a request line and what the client makes
    of the answer.  The backend (`Session` and `SessionEngine`) is any state machine
    that maps a call to an outcome. */
module Wire {
  import opened Lines
  import opened Proto
  import opened Wrappers

  // ----- the backend -----

  datatype Call =
    | Top1(r: string) | List(r: string, max: int)
    | SBegin | SKey(ascii: string) | SBackspace | SConvert | SPreedit | SCommit | SCancel

  /** A batch call fills a result, a session call a text. */
  datatype Outcome = Done(res: ConvertResult, text: string) | Failed(err: string)

  type Backend<!B> = (B, Call) -> (B, Outcome)

  // ----- verbs -----

  datatype Verb =
    | Ping | Convert | Candidates | CandidatesEx | SessionCandidates
    | Begin | Key | Backspace | ConvertSession | Preedit | Commit | Cancel

  function Name(v: Verb): string {
    match v
    case Ping => "ping"
    case Convert => "convert"
    case Candidates => "candidates"
    case CandidatesEx => "candidates-ex"
    case SessionCandidates => "session-candidates"
    case Begin => "session-begin"
    case Key => "key"
    case Backspace => "backspace"
    case ConvertSession => "convert-session"
    case Preedit => "preedit"
    case Commit => "commit"
    case Cancel => "cancel"
  }

  function VerbOf(op: string): Option<Verb> {
    if op == "ping" then Some(Ping)
    else if op == "convert" then Some(Convert)
    else if op == "candidates" then Some(Candidates)
    else if op == "candidates-ex" then Some(CandidatesEx)
    else if op == "session-candidates" then Some(SessionCandidates)
    else if op == "session-begin" then Some(Begin)
    else if op == "key" then Some(Key)
    else if op == "backspace" then Some(Backspace)
    else if op == "convert-session" then Some(ConvertSession)
    else if op == "preedit" then Some(Preedit)
    else if op == "commit" then Some(Commit)
    else if op == "cancel" then Some(Cancel)
    else None
  }

  /** Names begin differently: "c" is followed by "on", "an" or "om", and so on. */
  lemma NamesDiffer(v: Verb, w: Verb)
    requires Name(v) == Name(w)
    ensures v == w
  {
    var a, b := Name(v), Name(w);
    assert |a| == |b| && a[0] == b[0] && a[1] == b[1] && a[2] == b[2];
  }

  lemma VerbOfIsName(op: string)
    ensures VerbOf(op).Some? ==> Name(VerbOf(op).value) == op
  {
  }

  lemma NameIsKnown(v: Verb)
    ensures VerbOf(Name(v)).Some?
  {
  }

  lemma VerbOfName(v: Verb)
    ensures VerbOf(Name(v)) == Some(v) && Name(v) != "" && Clean(Name(v))
  {
    NameIsKnown(v);
    VerbOfIsName(Name(v));
    NamesDiffer(v, VerbOf(Name(v)).value);
  }

  // ----- numbers -----

  function Digit(n: nat): char
    requires n < 10
  {
    ('0' as int + n) as char
  }

  /** `std::to_string` on a non-negative number. */
  function ToString(n: nat): string {
    if n < 10 then [Digit(n)] else ToString(n / 10) + [Digit(n % 10)]
  }

  predicate IsDigit(c: char) {
    '0' <= c <= '9'
  }

  /** The value of the leading digits, after an accumulated prefix. */
  function Digits(s: string, acc: nat): nat {
    if s == "" || !IsDigit(s[0]) then acc else Digits(s[1..], acc * 10 + (s[0] as int - '0' as int))
  }

  function SkipSpaces(s: string): string {
    if s != "" && (s[0] == ' ' || '\t' <= s[0] <= '\r') then SkipSpaces(s[1..]) else s
  }

  /** `atoi`: spaces, a sign, digits; anything after them is ignored. */
  function Atoi(s: string): int {
    var t := SkipSpaces(s);
    if t == "" then 0
    else if t[0] == '-' then -(Digits(t[1..], 0) as int)
    else if t[0] == '+' then Digits(t[1..], 0)
    else Digits(t, 0)
  }

  // ----- the daemon -----

  function ErrLine(msg: string): string {
    Joined(["err", msg]) + "\n"
  }

  /** What the daemon does with the fields of a request: nothing, answer at once
      (a `lax` answer is sent without checking that it was written), or ask. */
  datatype Plan = Skip | Immediate(reply: string, lax: bool) | Ask(call: Call)

  function MaxOf(f: seq<string>): int {
    if |f| > 2 then Atoi(f[2]) else 0
  }

  function PlanForVerb(v: Verb, f: seq<string>): Plan
    requires |f| > 0
  {
    var noRomaji := Immediate(ErrLine(f[0] + ": missing romaji"), true);
    match v
    case Ping => Immediate("pong" + "\n", false)
    case Convert => if |f| < 2 then noRomaji else Ask(Top1(f[1]))
    case Candidates => if |f| < 2 then noRomaji else Ask(List(f[1], MaxOf(f)))
    case CandidatesEx => if |f| < 2 then noRomaji else Ask(List(f[1], MaxOf(f)))
    case SessionCandidates => if |f| < 2 then noRomaji else Ask(List(f[1], MaxOf(f)))
    case Key => if |f| < 2 then Immediate(ErrLine("key: missing chars"), false) else Ask(SKey(f[1]))
    case Begin => Ask(SBegin)
    case Backspace => Ask(SBackspace)
    case ConvertSession => Ask(SConvert)
    case Preedit => Ask(SPreedit)
    case Commit => Ask(SCommit)
    case Cancel => Ask(SCancel)
  }

  function PlanFor(f: seq<string>): Plan
    requires |f| > 0
  {
    if f[0] == "" then Skip
    else match VerbOf(f[0])
      case None => Immediate(ErrLine("unknown op: " + f[0]), false)
      case Some(v) => PlanForVerb(v, f)
  }

  /** One candidate is three fields. */
  function Flattened(ex: seq<Candidate>): seq<string> {
    if ex == [] then []
    else Flattened(ex[..|ex| - 1]) + [ex[|ex| - 1].surface, ex[|ex| - 1].reading, ex[|ex| - 1].hinsi]
  }

  /** Plain surfaces in the place of enriched entries. */
  function Plain(cands: seq<string>): seq<Candidate> {
    seq(|cands|, i requires 0 <= i < |cands| => Candidate(cands[i], "", ""))
  }

  function Offered(res: ConvertResult): seq<Candidate> {
    if res.candidatesEx != [] then res.candidatesEx else Plain(res.candidates)
  }

  function OkLine(text: string): string {
    if text == "" then "ok" + "\n" else Joined(["ok", text]) + "\n"
  }

  /** The reply line for a backend outcome. */
  function ReplyFor(v: Verb, o: Outcome): string {
    match o
    case Failed(err) => ErrLine(err)
    case Done(res, text) =>
      match v
      case CandidatesEx => Joined(["okx", res.commit] + Flattened(Offered(res))) + "\n"
      case Convert => Joined(["ok", res.commit] + res.candidates) + "\n"
      case Candidates => Joined(["ok", res.commit] + res.candidates) + "\n"
      case SessionCandidates => Joined(["ok", res.commit] + res.candidates) + "\n"
      case Commit => Joined(["commit", text]) + "\n"
      case Cancel => OkLine("")
      case _ => OkLine(text)
  }

  /** One request line: the new backend state and the reply, if there is one. */
  datatype Served<B> = Served(b: B, reply: Option<string>, lax: bool)

  function ServeLine<B>(step: Backend<B>, b: B, line: string): Served<B> {
    var f := Fields(line);
    match PlanFor(f)
    case Skip => Served(b, None, false)
    case Immediate(reply, lax) => Served(b, Some(reply), lax)
    case Ask(call) =>
      var (b', o) := step(b, call);
      Served(b', Some(ReplyFor(VerbOf(f[0]).value, o)), false)
  }

  /** A connection: request lines in, replies out, with the outcome of each write
      (past its end every write works).  A failed write ends the connection, except
      after a lax reply. */
  datatype Conversation<B> = Conversation(b: B, replies: seq<string>)

  predicate WriteWorks(writes: seq<bool>) {
    writes == [] || writes[0]
  }

  function NextWrites(writes: seq<bool>): seq<bool> {
    if writes == [] then [] else writes[1..]
  }

  function ServeLines<B>(step: Backend<B>, b: B, lines: seq<string>, writes: seq<bool>): Conversation<B>
    decreases |lines|
  {
    if lines == [] then Conversation(b, [])
    else
      var s := ServeLine(step, b, lines[0]);
      match s.reply
      case None => ServeLines(step, s.b, lines[1..], writes)
      case Some(reply) =>
        if WriteWorks(writes) then
          var rest := ServeLines(step, s.b, lines[1..], NextWrites(writes));
          Conversation(rest.b, [reply] + rest.replies)
        else if s.lax then ServeLines(step, s.b, lines[1..], NextWrites(writes))
        else Conversation(s.b, [])
  }

  // ----- the client -----

  datatype Request =
    | QPing | QConvert(r: string) | QCandidates(r: string, max: int) | QCandidatesEx(r: string, max: int)
    | QSessionCandidates(r: string, max: int)
    | QBegin | QKey(ascii: string) | QBackspace | QConvertSession | QPreedit | QCommit | QCancel

  datatype Response = Result(res: ConvertResult) | Said(text: string) | Refused(err: string)

  function VerbFor(q: Request): Verb {
    match q
    case QPing => Ping
    case QConvert(_) => Convert
    case QCandidates(_, _) => Candidates
    case QCandidatesEx(_, _) => CandidatesEx
    case QSessionCandidates(_, _) => SessionCandidates
    case QBegin => Begin
    case QKey(_) => Key
    case QBackspace => Backspace
    case QConvertSession => ConvertSession
    case QPreedit => Preedit
    case QCommit => Commit
    case QCancel => Cancel
  }

  function Args(q: Request): seq<string> {
    match q
    case QConvert(r) => [r]
    case QCandidates(r, max) => if max > 0 then [r, ToString(max)] else [r]
    case QCandidatesEx(r, max) => if max > 0 then [r, ToString(max)] else [r]
    case QSessionCandidates(r, max) => if max > 0 then [r, ToString(max)] else [r]
    case QKey(ascii) => [ascii]
    case _ => []
  }

  /** The request line, without its newline. */
  function RequestLine(q: Request): string {
    Joined([Name(VerbFor(q))] + Args(q))
  }

  /** Enriched entries from flat fields, three by three from position i; a short last
      group is padded and entries without a surface are dropped. */
  function Unflattened(f: seq<string>, i: nat): seq<Candidate>
    decreases |f| - i
  {
    if i >= |f| then []
    else
      var c := Candidate(f[i], if i + 1 < |f| then f[i + 1] else "", if i + 2 < |f| then f[i + 2] else "");
      (if c.surface != "" then [c] else []) + Unflattened(f, i + 3)
  }

  function SurfacesOf(ex: seq<Candidate>): seq<string> {
    seq(|ex|, i requires 0 <= i < |ex| => ex[i].surface)
  }

  predicate AsksForList(q: Request) {
    q.QConvert? || q.QCandidates? || q.QSessionCandidates?
  }

  function ErrOf(f: seq<string>): Response
    requires |f| > 0
  {
    Refused(if |f| > 1 then f[1] else "engine error")
  }

  function DecodeList(f: seq<string>): Response
    requires |f| > 0
  {
    if f[0] == "err" then ErrOf(f)
    else if f[0] != "ok" then Refused("unexpected reply: " + f[0])
    else Result(if |f| > 1 then ConvertResult(f[1], f[2..], []) else ConvertResult("", [], []))
  }

  function DecodeEnriched(f: seq<string>): Response
    requires |f| > 0
  {
    if f[0] == "err" then ErrOf(f)
    else if f[0] != "okx" then Refused("unexpected reply: " + f[0])
    else
      var ex := Unflattened(f, 2);
      Result(ConvertResult(if |f| > 1 then f[1] else "", SurfacesOf(ex), ex))
  }

  /** The reply to a session request; the caller may not want the text. */
  function DecodeText(f: seq<string>, verb: string, wanted: bool): Response
    requires |f| > 0
  {
    if f[0] == "err" then ErrOf(f)
    else if f[0] != verb then Refused("unexpected reply: " + f[0])
    else Said(if |f| > 1 && wanted then f[1] else "")
  }

  /** What the client makes of a reply line. */
  function Decode(q: Request, line: string): Response {
    var f := Fields(line);
    if q.QPing? then (if StartsWith(line, "pong") then Said("") else Refused("no pong: " + line))
    else if q.QCandidatesEx? then DecodeEnriched(f)
    else if AsksForList(q) then DecodeList(f)
    else DecodeText(f, if q.QCommit? then "commit" else "ok", !q.QCancel?)
  }

  // ----- the direct call -----

  /** The call a request stands for, with the maximum the caller gave. */
  function CallFor(q: Request): Call
    requires !q.QPing?
  {
    match q
    case QConvert(r) => Top1(r)
    case QCandidates(r, max) => List(r, max)
    case QCandidatesEx(r, max) => List(r, max)
    case QSessionCandidates(r, max) => List(r, max)
    case QBegin => SBegin
    case QKey(ascii) => SKey(ascii)
    case QBackspace => SBackspace
    case QConvertSession => SConvert
    case QPreedit => SPreedit
    case QCommit => SCommit
    case QCancel => SCancel
  }

  /** A maximum that is not positive means no cut, and is not sent. */
  function Sent(c: Call): Call {
    if c.List? && c.max <= 0 then List(c.r, 0) else c
  }

  /** A backend to which every maximum below one means no cut. */
  ghost predicate NoCutBelowOne<B(!new)>(step: Backend<B>) {
    forall b, c :: step(b, Sent(c)) == step(b, c)
  }

  function WithSurface(ex: seq<Candidate>): seq<Candidate> {
    if ex == [] then [] else (if ex[0].surface != "" then [ex[0]] else []) + WithSurface(ex[1..])
  }

  /** What a caller in the same process would be handed. */
  function Direct(q: Request, o: Outcome): Response {
    match o
    case Failed(err) => Refused(err)
    case Done(res, text) =>
      match q
      case QCandidatesEx(_, _) =>
        var ex := WithSurface(Offered(res));
        Result(ConvertResult(res.commit, SurfacesOf(ex), ex))
      case QConvert(_) => Result(res.(candidatesEx := []))
      case QCandidates(_, _) => Result(res.(candidatesEx := []))
      case QSessionCandidates(_, _) => Result(res.(candidatesEx := []))
      case QCancel => Said("")
      case _ => Said(text)
  }

  function DirectCall<B>(step: Backend<B>, b: B, q: Request): (B, Response) {
    if q.QPing? then (b, Said(""))
    else var (b', o) := step(b, CallFor(q)); (b', Direct(q, o))
  }

  // ----- the round trips the relay rests on -----

  lemma {:induction false} DigitsOfConcat(a: string, b: string, acc: nat)
    requires forall i :: 0 <= i < |a| ==> IsDigit(a[i])
    ensures Digits(a + b, acc) == Digits(b, Digits(a, acc))
    decreases |a|
  {
    if a == "" {
      assert a + b == b;
    } else {
      assert (a + b)[1..] == a[1..] + b;
      DigitsOfConcat(a[1..], b, acc * 10 + (a[0] as int - '0' as int));
    }
  }

  lemma {:induction false} ToStringIsRead(n: nat)
    ensures var s := ToString(n);
      && s != "" && (forall i :: 0 <= i < |s| ==> IsDigit(s[i])) && Digits(s, 0) == n
  {
    if n >= 10 {
      ToStringIsRead(n / 10);
      var d := [Digit(n % 10)];
      DigitsOfConcat(ToString(n / 10), d, 0);
      assert d[1..] == "";
      assert Digits(d, n / 10) == (n / 10) * 10 + n % 10;
    } else {
      assert [Digit(n)][1..] == "";
    }
  }

  /** `atoi` reads back what `to_string` printed, and the number is a clean field. */
  lemma NumberRoundTrip(n: nat)
    ensures Atoi(ToString(n)) == n && Clean(ToString(n))
  {
    ToStringIsRead(n);
    var s := ToString(n);
    assert IsDigit(s[0]);
  }

  lemma {:induction false} FlattenedFromFront(ex: seq<Candidate>)
    requires ex != []
    ensures Flattened(ex) == [ex[0].surface, ex[0].reading, ex[0].hinsi] + Flattened(ex[1..])
  {
    if |ex| > 1 {
      var n := |ex| - 1;
      FlattenedFromFront(ex[..n]);
      assert ex[..n][1..] == ex[1..][..n - 1];
    }
  }

  /** Flattening into triples and grouping them again loses only the entries without
      a surface, wherever the triples stand in a reply. */
  lemma {:induction false} TriplesRoundTrip(head: seq<string>, ex: seq<Candidate>)
    ensures Unflattened(head + Flattened(ex), |head|) == WithSurface(ex)
    decreases |ex|
  {
    if ex != [] {
      FlattenedFromFront(ex);
      var c := [ex[0].surface, ex[0].reading, ex[0].hinsi];
      var f := head + Flattened(ex);
      assert f == (head + c) + Flattened(ex[1..]);
      TriplesRoundTrip(head + c, ex[1..]);
      assert f[|head|] == ex[0].surface && f[|head| + 1] == ex[0].reading && f[|head| + 2] == ex[0].hinsi;
    }
  }

  predicate CleanEntries(ex: seq<Candidate>) {
    forall i :: 0 <= i < |ex| ==> Clean(ex[i].surface) && Clean(ex[i].reading) && Clean(ex[i].hinsi)
  }

  /** The fields of the reply to this operation are clean. */
  predicate CleanOutcome(v: Verb, o: Outcome) {
    match o
    case Failed(err) => Clean(err)
    case Done(res, text) =>
      match v
      case CandidatesEx => Clean(res.commit) && CleanEntries(Offered(res))
      case Convert => Clean(res.commit) && AllClean(res.candidates)
      case Candidates => Clean(res.commit) && AllClean(res.candidates)
      case SessionCandidates => Clean(res.commit) && AllClean(res.candidates)
      case Cancel => true
      case _ => Clean(text)
  }

  predicate CleanRequest(q: Request) {
    match q
    case QConvert(r) => Clean(r)
    case QCandidates(r, _) => Clean(r)
    case QCandidatesEx(r, _) => Clean(r)
    case QSessionCandidates(r, _) => Clean(r)
    case QKey(ascii) => Clean(ascii)
    case _ => true
  }

  lemma {:induction false} FlattenedIsClean(ex: seq<Candidate>)
    requires CleanEntries(ex)
    ensures AllClean(Flattened(ex))
  {
    if ex != [] {
      FlattenedIsClean(ex[..|ex| - 1]);
    }
  }

  // ----- numbers as a peer may write them -----

  lemma {:induction false} DigitsStop(s: string, tail: string, acc: nat)
    requires forall i :: 0 <= i < |s| ==> IsDigit(s[i])
    requires tail == "" || !IsDigit(tail[0])
    ensures Digits(s + tail, acc) == Digits(s, acc)
    decreases |s|
  {
    if s == "" {
      assert s + tail == tail;
    } else {
      assert (s + tail)[1..] == s[1..] + tail;
      DigitsStop(s[1..], tail, acc * 10 + (s[0] as int - '0' as int));
    }
  }

  /** A number is read up to the first other character, with its sign; where none stands, zero. */
  lemma NumbersOfPeers(n: nat, tail: string)
    requires tail == "" || !IsDigit(tail[0])
    ensures Atoi(ToString(n) + tail) == n && Atoi("+" + (ToString(n) + tail)) == n && Atoi("-" + (ToString(n) + tail)) == -(n as int)
    ensures (tail != "" && tail[0] != '-' && tail[0] != '+' && tail[0] != ' ' && !('\t' <= tail[0] <= '\r')) || tail == "" ==>
      Atoi(tail) == 0
  {
    ToStringIsRead(n);
    DigitsStop(ToString(n), tail, 0);
    var t := ToString(n) + tail;
    assert IsDigit(t[0]);
    assert ("+" + t)[1..] == t && ("-" + t)[1..] == t;
  }
}
