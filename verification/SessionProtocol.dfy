/** The session protocol: a stateful composition over one keepalive worker that
    can die, fall silent or be respawned at any call.

    One function per method of the class `SessionEngine`, over the engine's state
    and a trace of what crossed the pipe. */
module SessionProtocol {
  import opened Lines
  import opened Process
  import opened Wrappers

  const REPLY_TIMEOUT_MS := 30000

  /** A call's result: the payload, or the error message. */
  datatype Reply = Ok(text: string) | Err(msg: string)

  /** What happened on the pipe: a worker launched (with its banner), a command
      line sent (with what the worker emits for it), a reply accepted, a worker gone. */
  datatype Event = Spawned(banner: string) | Sent(line: string, emits: string) | Got(text: string) | Killed

  datatype Sess = Sess(proc: Proc, rbuf: string, active: bool, trace: seq<Event>)

  // ----- line handlers -----

  /** The payload of a reply line of the wanted kind. */
  function ReplyOf(wantCommit: bool, line: string): Option<string> {
    var l := Chomp(line);
    if !wantCommit && l == "ATD PRE" then Some("")
    else if wantCommit && StartsWith(l, "ATD COMMIT ") then Some(l[11..])
    else if !wantCommit && StartsWith(l, "ATD PRE ") then Some(l[8..])
    else None
  }

  function PreLine(text: string, line: string): Verdict<string> {
    match ReplyOf(false, line) case None => More(text) case Some(t) => Stop(t)
  }

  function CommitLine(text: string, line: string): Verdict<string> {
    match ReplyOf(true, line) case None => More(text) case Some(t) => Stop(t)
  }

  function ReplyHandler(wantCommit: bool): Handler<string> {
    if wantCommit then CommitLine else PreLine
  }

  // ----- the engine as functions -----

  function Blame(eof: bool, err: string, died: string, silent: string): string {
    if !eof then silent else if err == "" then died else err
  }

  function Kill(s: Sess): Sess {
    s.(proc := AfterTerminate(s.proc), trace := s.trace + [Killed])
  }

  function EnsureWarm(s: Sess): (Sess, Reply) {
    var p := AfterSpawn(s.proc);
    if !p.running then (s.(proc := p, trace := s.trace + [Killed]), Err(NextMove(s.proc).err))
    else
      var trace := s.trace + [Spawned(p.pipe)];
      match ReadUntil(ReadyLine, (), "", p, 0, READY_TIMEOUT_MS)
      case Hit(_, rest, q) => (Sess(q, rest, false, trace), Ok(""))
      case Miss(_, rest, q, eof, err) =>
        (Kill(Sess(q, rest, false, trace)),
         Err(Blame(eof, err, "session harness died during bring-up", "session harness did not report ready")))
  }

  function Send(s: Sess, line: string): (Sess, Reply) {
    var m := NextMove(s.proc);
    var t := s.(proc := AfterWrite(s.proc), trace := s.trace + [Sent(line, m.emits)]);
    if WriteWorks(s.proc) then (t, Ok(""))
    else (Kill(t).(active := false), Err(if m.err == "" then "session harness write failed" else m.err))
  }

  function WriteCmd(s: Sess, line: string): (Sess, Reply) {
    if s.proc.running then Send(s, line)
    else
      var (t, r) := EnsureWarm(s);
      if r.Err? then (t, r) else Send(t, line)
  }

  function ReadReply(s: Sess, wantCommit: bool): (Sess, Reply) {
    match ReadUntil(ReplyHandler(wantCommit), "", s.rbuf, s.proc, 0, REPLY_TIMEOUT_MS)
    case Hit(text, rest, q) => (s.(proc := q, rbuf := rest, trace := s.trace + [Got(text)]), Ok(text))
    case Miss(_, rest, q, eof, err) =>
      (s.(proc := q, rbuf := rest),
       Err(Blame(eof, err, "session harness produced no reply", "session harness produced no reply")))
  }

  function RunCmd(s: Sess, line: string, wantCommit: bool): (Sess, Reply) {
    var (t, r) := WriteCmd(s, line);
    if r.Err? then (t, r)
    else
      var (u, q) := ReadReply(t, wantCommit);
      if q.Err? then (Kill(u).(active := false), q) else (u, q)
  }

  function Begin(s: Sess): (Sess, Reply) {
    var (t, r) := RunCmd(s, "sreset" + "\n", false);
    (t.(active := r.Ok?), r)
  }

  function TypeLine(ascii: string): string {
    "stype " + ascii + "\n"
  }

  function Type(s: Sess, ascii: string): (Sess, Reply) {
    var (t, r) := if s.active then (s, Ok("")) else Begin(s);
    if r.Err? then (t, r) else RunCmd(t, TypeLine(ascii), false)
  }

  function Backspace(s: Sess): (Sess, Reply) {
    if !s.active then (s, Ok("")) else RunCmd(s, "sback" + "\n", false)
  }

  function Convert(s: Sess): (Sess, Reply) {
    if !s.active then (s, Err("convert: no active composition")) else RunCmd(s, "sconv" + "\n", false)
  }

  function Preedit(s: Sess): (Sess, Reply) {
    if !s.active then (s, Ok("")) else RunCmd(s, "spre" + "\n", false)
  }

  function Commit(s: Sess): (Sess, Reply) {
    if !s.active then (s, Ok(""))
    else
      var (t, r) := RunCmd(s, "scommit" + "\n", true);
      (t.(active := false), r)
  }

  function Cancel(s: Sess): (Sess, Reply) {
    if !s.active && s.proc.running then (s, Ok(""))
    else
      var (t, r) := RunCmd(s, "scancel" + "\n", false);
      (t.(active := false), if r.Ok? then Ok("") else r)
  }

  function StopWorker(s: Sess): Sess {
    Kill(s).(active := false)
  }

  /** `start`: the one-time bring-up, then a first worker. */
  function Start(s: Sess): (Sess, Reply) {
    var t := s.(proc := s.proc.(script := RestOf(s.proc)));
    if NextMove(s.proc).ok then EnsureWarm(t) else (t, Err(NextMove(s.proc).err))
  }

  /** The public calls, and a run of them. */
  datatype Call =
    | CBegin | CType(ascii: string) | CBackspace | CConvert | CPreedit | CCommit | CCancel | CStop | CStart

  function Apply(s: Sess, c: Call): (Sess, Reply) {
    match c
    case CBegin => Begin(s)
    case CType(ascii) => Type(s, ascii)
    case CBackspace => Backspace(s)
    case CConvert => Convert(s)
    case CPreedit => Preedit(s)
    case CCommit => Commit(s)
    case CCancel => Cancel(s)
    case CStop => (StopWorker(s), Ok(""))
    case CStart => Start(s)
  }

  function Run(s: Sess, calls: seq<Call>): Sess
    decreases |calls|
  {
    if calls == [] then s else Run(Apply(s, calls[0]).0, calls[1..])
  }

  /** A new engine over an arbitrary environment. */
  function Fresh(script: seq<Move>): Sess {
    Sess(Proc(false, "", script), "", false, [])
  }
}
