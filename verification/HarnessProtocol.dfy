/** The batch protocol: one command line, one result block, over a worker that is
    respawned whenever it is gone.  One function per method of `HarnessEngine`. */
module HarnessProtocol {
  import opened Lines
  import opened Process
  import opened Proto

  const CONVERT_TIMEOUT_MS := 30000

  /** A launch (whether it worked, and what a new worker prints first), a command
      sent (with what the worker emits for it), a block accepted, a worker gone. */
  datatype Event =
    | Launched(ok: bool, banner: string)
    | Sent(line: string, emits: string)
    | Got(res: ConvertResult)
    | Killed

  datatype Harn = Harn(proc: Proc, rbuf: string, trace: seq<Event>)

  /** A call's success, result object and error message; a failed call may leave
      the result partly filled. */
  datatype Answer = Answer(ok: bool, res: ConvertResult, err: string)

  /** The entry of a CANDX line; missing fields are empty. */
  function Enriched(text: string): Candidate {
    var fs := Fields(text);
    Candidate(fs[0], if |fs| > 1 then fs[1] else "", if |fs| > 2 then fs[2] else "")
  }

  /** One line of a block; lines without a known tag are ignored. */
  function BlockLine(out: ConvertResult, line: string): Verdict<ConvertResult> {
    var l := Chomp(line);
    if !StartsWith(l, "ATD ") then More(out)
    else
      var rest := l[4..];
      if rest == "BEGIN" then More(EMPTY_RESULT)
      else if rest == "END" then Stop(out)
      else if StartsWith(rest, "COMMIT ") then More(out.(commit := rest[7..]))
      else if StartsWith(rest, "CAND ") then More(out.(candidates := out.candidates + [rest[5..]]))
      else if StartsWith(rest, "CANDX ") then
        var c := Enriched(rest[6..]);
        More(if c.surface != "" then out.(candidatesEx := out.candidatesEx + [c]) else out)
      else More(out)
  }

  function Kill(s: Harn): Harn {
    s.(proc := AfterTerminate(s.proc), trace := s.trace + [Killed])
  }

  function EnsureWarm(s: Harn, err: string): (Harn, bool, string) {
    var p := AfterSpawn(s.proc);
    var trace := s.trace + [Launched(p.running, p.pipe)];
    if !p.running then (s.(proc := p, trace := trace), false, NextMove(s.proc).err)
    else match ReadUntil(ReadyLine, (), "", p, 0, READY_TIMEOUT_MS)
      case Hit(_, rest, q) => (Harn(q, rest, trace), true, err)
      case Miss(_, rest, q, eof, rerr) =>
        (Kill(Harn(q, rest, trace)), false,
         Blame(eof, rerr, err, "harness died during bring-up", "warm harness did not report ready"))
  }

  /** The message left behind by a read loop that gave up. */
  function Blame(eof: bool, rerr: string, err: string, died: string, silent: string): string {
    if eof then (if rerr == "" then died else rerr)
    else if err == "" then silent else err
  }

  /** No worker could be warmed, the command went out, or the pipe broke. */
  datatype Outcome = Cold | Delivered | Lost

  /** One attempt to deliver a command, launching a worker first when there is none. */
  function Attempt(s: Harn, line: string, err: string): (Harn, Outcome, string) {
    var (t, warm, e) := if s.proc.running then (s, true, err) else EnsureWarm(s, err);
    if !warm then (t, Cold, e)
    else
      var m := NextMove(t.proc);
      var u := t.(proc := AfterWrite(t.proc), trace := t.trace + [Sent(line, m.emits)]);
      if WriteWorks(t.proc) then (u, Delivered, e) else (Kill(u), Lost, m.err)
  }

  /** Tries to deliver a command so many times. */
  function WriteCmd(s: Harn, line: string, attempts: nat, err: string): (Harn, bool, string)
    decreases attempts
  {
    if attempts == 0 then (s, false, "harness write failed (engine not responding)")
    else
      var (t, outcome, e) := Attempt(s, line, err);
      match outcome
      case Cold => (t, false, e)
      case Delivered => (t, true, e)
      case Lost => WriteCmd(t, line, attempts - 1, e)
  }

  function ReadBlock(s: Harn, out: ConvertResult, err: string): (Harn, Answer) {
    match ReadUntil(BlockLine, out, s.rbuf, s.proc, 0, CONVERT_TIMEOUT_MS)
    case Hit(res, rest, q) =>
      (s.(proc := q, rbuf := rest, trace := s.trace + [Got(res)]), Answer(true, res, err))
    case Miss(res, rest, q, eof, rerr) =>
      (s.(proc := q, rbuf := rest),
       Answer(false, res, Blame(eof, rerr, err, "engine produced no result", "engine produced no result")))
  }

  function RunCmd(s: Harn, line: string, out: ConvertResult): (Harn, Answer) {
    var (t, sent, err) := WriteCmd(s, line, 2, "");
    if !sent then (t, Answer(false, out, err))
    else
      var (u, a) := ReadBlock(t, out, err);
      if a.ok then (u, a) else (Kill(u), a)
  }

  function HenkanLine(romaji: string): string {
    "henkan " + romaji + "\n"
  }

  function ConvertLine(romaji: string): string {
    "convert " + romaji + "\n"
  }

  function TopOne(s: Harn, romaji: string, out: ConvertResult): (Harn, Answer) {
    RunCmd(s, HenkanLine(romaji), out)
  }

  function Convert(s: Harn, romaji: string, max: int, out: ConvertResult): (Harn, Answer) {
    var (t, a) := RunCmd(s, ConvertLine(romaji), out);
    if a.ok then (t, a.(res := Capped(a.res, max))) else (t, a)
  }

  function Start(s: Harn): (Harn, bool, string) {
    var t := s.(proc := s.proc.(script := RestOf(s.proc)));
    if NextMove(s.proc).ok then EnsureWarm(t, "") else (t, false, NextMove(s.proc).err)
  }

  /** The public calls, and a run of them. */
  datatype Call = CTopOne(romaji: string) | CConvert(romaji: string, max: int) | CStop | CStart

  function Apply(s: Harn, c: Call): Harn {
    match c
    case CTopOne(romaji) => TopOne(s, romaji, EMPTY_RESULT).0
    case CConvert(romaji, max) => Convert(s, romaji, max, EMPTY_RESULT).0
    case CStop => Kill(s)
    case CStart => Start(s).0
  }

  function Run(s: Harn, calls: seq<Call>): Harn
    decreases |calls|
  {
    if calls == [] then s else Run(Apply(s, calls[0]), calls[1..])
  }

  function Fresh(script: seq<Move>): Harn {
    Harn(Proc(false, "", script), "", [])
  }

  // ----- a failed command never wedges the engine, and costs a bounded effort -----

  function Launches(trace: seq<Event>): nat {
    if trace == [] then 0 else Launches(trace[..|trace| - 1]) + if trace[|trace| - 1].Launched? then 1 else 0
  }

  function Sends(trace: seq<Event>): nat {
    if trace == [] then 0 else Sends(trace[..|trace| - 1]) + if trace[|trace| - 1].Sent? then 1 else 0
  }

  lemma CountOne(trace: seq<Event>, e: Event)
    ensures Launches(trace + [e]) == Launches(trace) + if e.Launched? then 1 else 0
    ensures Sends(trace + [e]) == Sends(trace) + if e.Sent? then 1 else 0
  {
    assert (trace + [e])[..|trace|] == trace;
  }

  lemma WarmCost(s: Harn, err: string)
    ensures var (t, ok, _) := EnsureWarm(s, err);
      && t.proc.running == ok
      && Launches(t.trace) == Launches(s.trace) + 1 && Sends(t.trace) == Sends(s.trace)
  {
    var p := AfterSpawn(s.proc);
    CountOne(s.trace, Launched(p.running, p.pipe));
    CountOne(s.trace + [Launched(p.running, p.pipe)], Killed);
    ReadingKeepsTheWorker(ReadyLine, (), "", p, 0, READY_TIMEOUT_MS);
  }

  lemma AttemptCost(s: Harn, line: string, err: string)
    ensures var (t, outcome, _) := Attempt(s, line, err);
      && t.proc.running == outcome.Delivered?
      && Launches(t.trace) <= Launches(s.trace) + 1 && Sends(t.trace) <= Sends(s.trace) + 1
  {
    WarmCost(s, err);
    var (t, warm, e) := if s.proc.running then (s, true, err) else EnsureWarm(s, err);
    if warm {
      var sent := Sent(line, NextMove(t.proc).emits);
      CountOne(t.trace, sent);
      CountOne(t.trace + [sent], Killed);
    }
  }

  lemma {:induction false} WriteCost(s: Harn, line: string, attempts: nat, err: string)
    ensures var (t, ok, _) := WriteCmd(s, line, attempts, err);
      && (attempts > 0 ==> t.proc.running == ok)
      && Launches(t.trace) <= Launches(s.trace) + attempts
      && Sends(t.trace) <= Sends(s.trace) + attempts
    decreases attempts
  {
    if attempts > 0 {
      AttemptCost(s, line, err);
      var (t, outcome, e) := Attempt(s, line, err);
      if outcome.Lost? {
        WriteCost(t, line, attempts - 1, e);
      }
    }
  }

  /** A command that fails leaves no worker behind, so the next one starts over; a
      command that succeeds leaves a live one.  Either way it costs at most two
      launches and two writes. */
  lemma CommandCost(s: Harn, line: string, out: ConvertResult)
    ensures var (t, a) := RunCmd(s, line, out);
      && t.proc.running == a.ok
      && Launches(t.trace) <= Launches(s.trace) + 2
      && Sends(t.trace) <= Sends(s.trace) + 2
  {
    WriteCost(s, line, 2, "");
    var (t, sent, err) := WriteCmd(s, line, 2, "");
    if sent {
      ReadingKeepsTheWorker(BlockLine, out, t.rbuf, t.proc, 0, CONVERT_TIMEOUT_MS);
      var (u, a) := ReadBlock(t, out, err);
      if a.ok {
        CountOne(t.trace, Got(a.res));
      } else {
        CountOne(t.trace, Killed);
      }
    }
  }
}
