/** The class `HarnessEngine`: the code's own loops and field updates, each method
    proved equal to its function in `HarnessProtocol`. */
module HarnessEngine {
  import opened Process
  import opened Proto
  import P = HarnessProtocol

  class HarnessEngine {
    const proc: HarnessProcess
    var rbuf: string
    ghost var trace: seq<P.Event>

    ghost function View(): P.Harn
      reads this, proc
    {
      P.Harn(proc.View(), rbuf, trace)
    }

    constructor (proc: HarnessProcess)
      ensures this.proc == proc && View() == P.Harn(proc.View(), "", [])
    {
      this.proc := proc;
      rbuf, trace := "", [];
    }

    /** (Re)spawns the worker and consumes its output until it reports ready. */
    method EnsureWarm(err0: string) returns (ok: bool, err: string)
      modifies this, proc
      ensures (View(), ok, err) == P.EnsureWarm(old(View()), err0)
    {
      ok, err := proc.Spawn();
      trace := trace + [P.Launched(ok, proc.pipe)];
      if !ok {
        return;
      }
      rbuf := "";
      var ready, _, rest, eof, rerr := ReadLoop(proc, ReadyLine, (), rbuf, READY_TIMEOUT_MS);
      rbuf := rest;
      if ready {
        return true, err0;
      }
      proc.Terminate();
      trace := trace + [P.Killed];
      return false, P.Blame(eof, rerr, err0, "harness died during bring-up", "warm harness did not report ready");
    }

    /** One turn of the retry loop. */
    method Attempt(line: string, err0: string) returns (outcome: P.Outcome, err: string)
      modifies this, proc
      ensures (View(), outcome, err) == P.Attempt(old(View()), line, err0)
    {
      err := err0;
      if !proc.running {
        var warm;
        warm, err := EnsureWarm(err);
        if !warm {
          return P.Cold, err;
        }
      }
      ghost var emits := NextMove(proc.View()).emits;
      var ok, werr := proc.Write(line);
      trace := trace + [P.Sent(line, emits)];
      if ok {
        return P.Delivered, err;
      }
      proc.Terminate();
      trace := trace + [P.Killed];
      return P.Lost, werr;
    }

    /** Delivers a command line, respawning once on a dead pipe. */
    method WriteCmd(line: string) returns (ok: bool, err: string)
      modifies this, proc
      ensures (View(), ok, err) == P.WriteCmd(old(View()), line, 2, "")
    {
      err := "";
      var attempt := 0;
      ghost var goal := P.WriteCmd(View(), line, 2, "");
      while attempt < 2
        invariant 0 <= attempt <= 2
        invariant P.WriteCmd(View(), line, 2 - attempt, err) == goal
      {
        var outcome;
        outcome, err := Attempt(line, err);
        if outcome.Cold? {
          return false, err;
        }
        if outcome.Delivered? {
          return true, err;
        }
        attempt := attempt + 1;
      }
      return false, "harness write failed (engine not responding)";
    }

    /** Reads one block into the result; on failure it may be left partly filled. */
    method ReadBlock(out: ConvertResult, err0: string) returns (a: P.Answer)
      modifies this, proc
      ensures (View(), a) == P.ReadBlock(old(View()), out, err0)
    {
      var ended, res, rest, eof, rerr := ReadLoop(proc, P.BlockLine, out, rbuf, P.CONVERT_TIMEOUT_MS);
      rbuf := rest;
      if ended {
        trace := trace + [P.Got(res)];
        return P.Answer(true, res, err0);
      }
      return P.Answer(false, res, P.Blame(eof, rerr, err0, "engine produced no result", "engine produced no result"));
    }

    method RunCmd(line: string, out: ConvertResult) returns (a: P.Answer)
      modifies this, proc
      ensures (View(), a) == P.RunCmd(old(View()), line, out)
    {
      var sent, err := WriteCmd(line);
      if !sent {
        return P.Answer(false, out, err);
      }
      a := ReadBlock(out, err);
      if !a.ok {
        proc.Terminate();
        trace := trace + [P.Killed];
      }
    }

    method TopOne(romaji: string, out: ConvertResult) returns (a: P.Answer)
      modifies this, proc
      ensures (View(), a) == P.TopOne(old(View()), romaji, out)
    {
      a := RunCmd("henkan " + romaji + "\n", out);
    }

    method Convert(romaji: string, max: int, out: ConvertResult) returns (a: P.Answer)
      modifies this, proc
      ensures (View(), a) == P.Convert(old(View()), romaji, max, out)
    {
      a := RunCmd("convert " + romaji + "\n", out);
      if a.ok {
        a := a.(res := Capped(a.res, max));
      }
    }

    method Start() returns (ok: bool, err: string)
      modifies this, proc
      ensures (View(), ok, err) == P.Start(old(View()))
    {
      ok, err := proc.BringUp();
      if ok {
        ok, err := EnsureWarm("");
      }
    }

    method Stop()
      modifies this, proc
      ensures View() == P.Kill(old(View()))
    {
      proc.Terminate();
      trace := trace + [P.Killed];
    }
  }
}
