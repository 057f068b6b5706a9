/** The class `SessionEngine`: the code's own loops and field updates, each method
    proved equal to its function in `SessionProtocol`. */
module SessionEngine {
  import opened Lines
  import opened Process
  import opened Wrappers
  import P = SessionProtocol

  class SessionEngine {
    const proc: HarnessProcess
    var rbuf: string
    var active: bool
    ghost var trace: seq<P.Event>

    ghost function View(): P.Sess
      reads this, proc
    {
      P.Sess(proc.View(), rbuf, active, trace)
    }

    constructor (proc: HarnessProcess)
      ensures this.proc == proc && View() == P.Sess(proc.View(), "", false, [])
    {
      this.proc := proc;
      rbuf, active, trace := "", false, [];
    }

    /** (Re)spawns the worker and consumes its output until it reports ready. */
    method EnsureWarm() returns (r: P.Reply)
      modifies this, proc
      ensures (View(), r) == P.EnsureWarm(old(View()))
    {
      var ok, err := proc.Spawn();
      if !ok {
        trace := trace + [P.Killed];
        return P.Err(err);
      }
      trace := trace + [P.Spawned(proc.pipe)];
      rbuf, active := "", false;
      var ready, _, rest, eof, rerr := ReadLoop(proc, ReadyLine, (), rbuf, READY_TIMEOUT_MS);
      rbuf := rest;
      if ready {
        return P.Ok("");
      }
      proc.Terminate();
      trace := trace + [P.Killed];
      return P.Err(P.Blame(eof, rerr, "session harness died during bring-up", "session harness did not report ready"));
    }

    method WriteCmd(line: string) returns (r: P.Reply)
      modifies this, proc
      ensures (View(), r) == P.WriteCmd(old(View()), line)
    {
      if !proc.running {
        r := EnsureWarm();
        if r.Err? {
          return;
        }
      }
      ghost var emits := NextMove(proc.View()).emits;
      var ok, err := proc.Write(line);
      trace := trace + [P.Sent(line, emits)];
      if ok {
        return P.Ok("");
      }
      proc.Terminate();
      trace := trace + [P.Killed];
      active := false;
      return P.Err(if err == "" then "session harness write failed" else err);
    }

    /** Reads one reply line for the command just sent; other lines are ignored. */
    method ReadReply(wantCommit: bool) returns (r: P.Reply)
      modifies this, proc
      ensures (View(), r) == P.ReadReply(old(View()), wantCommit)
    {
      var found, text, rest, eof, rerr :=
        ReadLoop(proc, P.ReplyHandler(wantCommit), "", rbuf, P.REPLY_TIMEOUT_MS);
      rbuf := rest;
      if found {
        trace := trace + [P.Got(text)];
        return P.Ok(text);
      }
      return P.Err(P.Blame(eof, rerr, "session harness produced no reply", "session harness produced no reply"));
    }

    method RunCmd(line: string, wantCommit: bool) returns (r: P.Reply)
      modifies this, proc
      ensures (View(), r) == P.RunCmd(old(View()), line, wantCommit)
    {
      r := WriteCmd(line);
      if r.Err? {
        return;
      }
      r := ReadReply(wantCommit);
      if r.Err? {
        proc.Terminate();
        trace := trace + [P.Killed];
        active := false;
      }
    }

    method Begin() returns (r: P.Reply)
      modifies this, proc
      ensures (View(), r) == P.Begin(old(View()))
    {
      r := RunCmd("sreset" + "\n", false);
      active := r.Ok?;
    }

    method Type(ascii: string) returns (r: P.Reply)
      modifies this, proc
      ensures (View(), r) == P.Type(old(View()), ascii)
    {
      if !active {
        r := Begin();
        if r.Err? {
          return;
        }
      }
      r := RunCmd("stype " + ascii + "\n", false);
    }

    method Backspace() returns (r: P.Reply)
      modifies this, proc
      ensures (View(), r) == P.Backspace(old(View()))
    {
      if !active {
        return P.Ok("");
      }
      r := RunCmd("sback" + "\n", false);
    }

    method Convert() returns (r: P.Reply)
      modifies this, proc
      ensures (View(), r) == P.Convert(old(View()))
    {
      if !active {
        return P.Err("convert: no active composition");
      }
      r := RunCmd("sconv" + "\n", false);
    }

    method Preedit() returns (r: P.Reply)
      modifies this, proc
      ensures (View(), r) == P.Preedit(old(View()))
    {
      if !active {
        return P.Ok("");
      }
      r := RunCmd("spre" + "\n", false);
    }

    method Commit() returns (r: P.Reply)
      modifies this, proc
      ensures (View(), r) == P.Commit(old(View()))
    {
      if !active {
        return P.Ok("");
      }
      r := RunCmd("scommit" + "\n", true);
      active := false;
    }

    method Cancel() returns (r: P.Reply)
      modifies this, proc
      ensures (View(), r) == P.Cancel(old(View()))
    {
      if !active && proc.running {
        return P.Ok("");
      }
      r := RunCmd("scancel" + "\n", false);
      active := false;
      if r.Ok? {
        r := P.Ok("");
      }
    }

    method Stop()
      modifies this, proc
      ensures View() == P.StopWorker(old(View()))
    {
      proc.Terminate();
      trace := trace + [P.Killed];
      active := false;
    }

    method Start() returns (r: P.Reply)
      modifies this, proc
      ensures (View(), r) == P.Start(old(View()))
    {
      var ok, err := proc.BringUp();
      if !ok {
        return P.Err(err);
      }
      r := EnsureWarm();
    }
  }
}
