/** How long the engines wait and how often they try, in numbers. */
module Patience {
  import opened Lines
  import opened Process
  import opened Proto
  import opened HarnessProtocol
  import opened HarnessReplies
  import opened HarnessStale
  import S = SessionProtocol

  /** A live worker has sixty silent seconds to report ready; the sixtieth ends the wait. */
  lemma ReadyInSixtySeconds(p: Proc)
    ensures var r, n := ReadUntil(ReadyLine, (), "", p, 0, READY_TIMEOUT_MS), PollsSpent(ReadyLine, (), "", p, 0, READY_TIMEOUT_MS);
      n <= 60 && (r.Miss? && !r.eof <==> n == 60)
  {
    PatienceIsBounded(ReadyLine, (), "", p, 0, READY_TIMEOUT_MS);
  }

  /** Thirty for a block... */
  lemma BlockInThirtySeconds(s: Harn, out: ConvertResult)
    ensures var r := ReadUntil(BlockLine, out, s.rbuf, s.proc, 0, CONVERT_TIMEOUT_MS);
      var n := PollsSpent(BlockLine, out, s.rbuf, s.proc, 0, CONVERT_TIMEOUT_MS);
      n <= 30 && (r.Miss? && !r.eof <==> n == 30)
  {
    PatienceIsBounded(BlockLine, out, s.rbuf, s.proc, 0, CONVERT_TIMEOUT_MS);
  }

  /** ...and thirty for a reply of the session. */
  lemma ReplyInThirtySeconds(s: S.Sess, wantCommit: bool)
    ensures var h := S.ReplyHandler(wantCommit);
      var r := ReadUntil(h, "", s.rbuf, s.proc, 0, S.REPLY_TIMEOUT_MS);
      var n := PollsSpent(h, "", s.rbuf, s.proc, 0, S.REPLY_TIMEOUT_MS);
      n <= 30 && (r.Miss? && !r.eof <==> n == 30)
  {
    PatienceIsBounded(S.ReplyHandler(wantCommit), "", s.rbuf, s.proc, 0, S.REPLY_TIMEOUT_MS);
  }

  // ----- the second attempt of the batch engine -----

  /** A write fails; a new worker is launched and reports ready. */
  function Relaunch(err: string): seq<Move> {
    [Move(false, "", 0, err), Move(true, READY, 0, ""), Move(true, "", 10, "")]
  }

  /** The state after that. */
  function Relaunched(s: Harn, line: string, more: seq<Move>): Harn {
    Harn(Proc(true, "", more), "", s.trace + [Sent(line, ""), Killed, Launched(true, READY)])
  }

  lemma FirstAttemptIsLost(s: Harn, line: string, err: string, more: seq<Move>)
    requires s.proc.running
    ensures Attempt(With(s, Relaunch(err) + more), line, "") ==
      (Harn(Proc(false, "", Relaunch(err)[1..] + more), s.rbuf, s.trace + [Sent(line, ""), Killed]), Lost, err)
  {
    var script := Relaunch(err) + more;
    assert script[1..] == Relaunch(err)[1..] + more;
    assert s.trace + [Sent(line, ""), Killed] == (s.trace + [Sent(line, "")]) + [Killed];
  }

  lemma RelaunchIsReady(s: Harn, line: string, err: string, more: seq<Move>)
    ensures EnsureWarm(Harn(Proc(false, "", Relaunch(err)[1..] + more), s.rbuf, s.trace + [Sent(line, ""), Killed]), err) ==
      (Relaunched(s, line, more), true, err)
  {
    var t := Harn(Proc(false, "", Relaunch(err)[1..] + more), s.rbuf, s.trace + [Sent(line, ""), Killed]);
    assert t.proc.script[1..] == [Move(true, "", 10, "")] + more && t.proc.script[1..][1..] == more;
    BannerIsRead(AfterSpawn(t.proc));
    assert (s.trace + [Sent(line, ""), Killed]) + [Launched(true, READY)]
      == s.trace + [Sent(line, ""), Killed, Launched(true, READY)];
  }

  /** After a lost write the line goes to a new worker, once. */
  lemma SecondAttempt(s: Harn, line: string, err: string, more: seq<Move>)
    requires s.proc.running
    ensures WriteCmd(With(s, Relaunch(err) + more), line, 2, "") == WriteCmd(Relaunched(s, line, more), line, 1, err)
  {
    FirstAttemptIsLost(s, line, err, more);
    RelaunchIsReady(s, line, err, more);
    var t := Attempt(With(s, Relaunch(err) + more), line, "").0;
    assert Attempt(t, line, err) == Attempt(Relaunched(s, line, more), line, err);
  }

  /** A write that is lost with its worker is repeated on a new one, and the block printed there
      is the result. */
  lemma SecondAttemptDelivers(s: Harn, line: string, a: string, res: ConvertResult, err: string)
    requires s.proc.running && Block(a, res)
    ensures var (t, answer) := RunCmd(With(s, Relaunch(err) + [Move(true, a, 0, ""), Move(true, "", |a|, "")]), line, EMPTY_RESULT);
      && answer.ok && answer.res == res
      && t.trace == s.trace + [Sent(line, ""), Killed, Launched(true, READY)] + [Sent(line, a), Got(res)]
  {
    var more := [Move(true, a, 0, ""), Move(true, "", |a|, "")];
    var w := Relaunched(s, line, more);
    SecondAttempt(s, line, err, more);
    WriteOnLive(w, line, 1, err);
    var u := Harn(Proc(true, a, more[1..]), "", w.trace + [Sent(line, a)]);
    assert "" + a == a && more[1..] == [more[1]];
    assert Scan(BlockLine, EMPTY_RESULT, "").Starved?;
    ScanOfText(BlockLine, EMPTY_RESULT, LinesOf(a));
    OneReadFinds(BlockLine, EMPTY_RESULT, "", u.proc, CONVERT_TIMEOUT_MS);
    assert w.trace + [Sent(line, a), Got(res)] == (w.trace + [Sent(line, a)]) + [Got(res)];
  }

  /** There is no third attempt. */
  lemma NoThirdAttempt(s: Harn, line: string, err: string, again: string, more: seq<Move>)
    requires s.proc.running
    ensures var (t, answer) := RunCmd(With(s, Relaunch(err) + ([Move(false, "", 0, again)] + more)), line, EMPTY_RESULT);
      && !answer.ok && answer.err == "harness write failed (engine not responding)"
      && t == Harn(Proc(false, "", more), "", s.trace + [Sent(line, ""), Killed, Launched(true, READY)] + [Sent(line, ""), Killed])
  {
    var rest := [Move(false, "", 0, again)] + more;
    var w := Relaunched(s, line, rest);
    SecondAttempt(s, line, err, rest);
    assert rest[1..] == more;
    assert w.trace + [Sent(line, ""), Killed] == (w.trace + [Sent(line, "")]) + [Killed];
    assert Attempt(w, line, err) == (Harn(Proc(false, "", more), "", w.trace + [Sent(line, ""), Killed]), Lost, again);
  }

  // ----- what a caller of the session is told -----

  /** Without a composition there is nothing to convert, and nothing is sent. */
  lemma NothingToConvert(s: S.Sess)
    requires !s.active
    ensures S.Convert(s) == (s, S.Err("convert: no active composition"))
  {
  }

  /** A launch that fails is reported with its own message. */
  lemma LaunchFails(s: S.Sess, line: string, wantCommit: bool)
    requires !s.proc.running && !NextMove(s.proc).ok
    ensures S.RunCmd(s, line, wantCommit).1 == S.Err(NextMove(s.proc).err)
  {
  }

  /** So is a write that fails, or else by a message of the engine; nothing is active then. */
  lemma WriteFails(s: S.Sess, line: string, wantCommit: bool)
    requires s.proc.running && !NextMove(s.proc).ok
    ensures var (t, r) := S.RunCmd(s, line, wantCommit);
      && r == S.Err(if NextMove(s.proc).err == "" then "session harness write failed" else NextMove(s.proc).err)
      && !t.active && !t.proc.running
  {
  }

  /** A worker that goes away or stays silent is reported as one that produced no reply. */
  lemma NoReply(s: S.Sess, wantCommit: bool)
    requires var r := ReadUntil(S.ReplyHandler(wantCommit), "", s.rbuf, s.proc, 0, S.REPLY_TIMEOUT_MS);
      r.Miss? && r.err == ""
    ensures S.ReadReply(s, wantCommit).1 == S.Err("session harness produced no reply")
  {
  }
}
