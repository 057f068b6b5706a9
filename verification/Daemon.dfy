/** The daemon's connection loop, proved against `Wire.ServeLines`. */
module Daemon {
  import opened Lines
  import opened Proto
  import opened Wrappers
  import opened Wire
  import opened Sockets

  /** The reply line for a backend outcome, field by field. */
  method EncodeReply(v: Verb, o: Outcome) returns (reply: string)
    ensures reply == ReplyFor(v, o)
  {
    if o.Failed? {
      reply := JoinTabs(["err", o.err]);
      return;
    }
    match v {
      case CandidatesEx =>
        var fields := EnrichedFields(o.res);
        reply := JoinTabs(fields);
      case Convert => reply := FlatReply(o.res);
      case Candidates => reply := FlatReply(o.res);
      case SessionCandidates => reply := FlatReply(o.res);
      case Commit => reply := JoinTabs(["commit", o.text]);
      case Cancel => reply := ReplyOk1("");
      case _ => reply := ReplyOk1(o.text);
    }
  }

  /** "ok" plus one optional payload field. */
  method ReplyOk1(payload: string) returns (reply: string)
    ensures reply == OkLine(payload)
  {
    if payload == "" {
      reply := "ok" + "\n";
    } else {
      reply := JoinTabs(["ok", payload]);
    }
  }

  method FlatReply(res: ConvertResult) returns (reply: string)
    ensures reply == Joined(["ok", res.commit] + res.candidates) + "\n"
  {
    var fields := ["ok", res.commit];
    for i := 0 to |res.candidates|
      invariant fields == ["ok", res.commit] + res.candidates[..i]
    {
      assert res.candidates[..i + 1] == res.candidates[..i] + [res.candidates[i]];
      fields := fields + [res.candidates[i]];
    }
    assert res.candidates[..|res.candidates|] == res.candidates;
    reply := JoinTabs(fields);
  }

  /** Triples of the enriched list, or of the plain surfaces when there is none. */
  method EnrichedFields(res: ConvertResult) returns (fields: seq<string>)
    ensures fields == ["okx", res.commit] + Flattened(Offered(res))
  {
    fields := ["okx", res.commit];
    ghost var all := Offered(res);
    if res.candidatesEx != [] {
      for i := 0 to |res.candidatesEx|
        invariant fields == ["okx", res.commit] + Flattened(all[..i])
      {
        assert all[..i + 1][..i] == all[..i];
        var c := res.candidatesEx[i];
        fields := fields + [c.surface] + [c.reading] + [c.hinsi];
      }
    } else {
      for i := 0 to |res.candidates|
        invariant fields == ["okx", res.commit] + Flattened(all[..i])
      {
        assert all[..i + 1][..i] == all[..i];
        fields := fields + [res.candidates[i]] + [""] + [""];
      }
    }
    assert all[..|all|] == all;
  }

  /** Handles one request line: the reply to write, if there is one. */
  method Answer<B>(step: Backend<B>, b: B, line: string) returns (s: Served<B>)
    ensures s == ServeLine(step, b, line)
  {
    var f := SplitTabs(line);
    match PlanFor(f) {
      case Skip => s := Served(b, None, false);
      case Immediate(reply, lax) => s := Served(b, Some(reply), lax);
      case Ask(call) =>
        var (b', o) := step(b, call);
        var reply := EncodeReply(VerbOf(f[0]).value, o);
        s := Served(b', Some(reply), false);
    }
  }

  /** The conversation still to come, after the replies already sent, makes up the goal. */
  ghost predicate Continues<B>(step: Backend<B>, goal: Conversation<B>, sent: seq<string>,
                               b: B, lines: seq<string>, writes: seq<bool>)
  {
    var rest := ServeLines(step, b, lines, writes);
    goal.b == rest.b && goal.replies == sent + rest.replies
  }

  /** What is sent after a served line. */
  function Delivered<B>(s: Served<B>, writes: seq<bool>): seq<string> {
    if s.reply.Some? && WriteWorks(writes) then [s.reply.value] else []
  }

  predicate Stops<B>(s: Served<B>, writes: seq<bool>) {
    s.reply.Some? && !WriteWorks(writes) && !s.lax
  }

  lemma NothingServed<B>(step: Backend<B>, goal: Conversation<B>, sent: seq<string>, b: B, writes: seq<bool>)
    requires Continues(step, goal, sent, b, [], writes)
    ensures goal == Conversation(b, sent)
  {
    assert sent + [] == sent;
  }

  lemma OneLineServed<B>(step: Backend<B>, goal: Conversation<B>, sent: seq<string>,
                         b: B, lines: seq<string>, writes: seq<bool>)
    requires Continues(step, goal, sent, b, lines, writes) && lines != []
    ensures var s := ServeLine(step, b, lines[0]);
      if Stops(s, writes) then goal == Conversation(s.b, sent + Delivered(s, writes))
      else Continues(step, goal, sent + Delivered(s, writes), s.b, lines[1..],
                     if s.reply.Some? then NextWrites(writes) else writes)
  {
    var s := ServeLine(step, b, lines[0]);
    var rest := ServeLines(step, b, lines, writes);
    if Stops(s, writes) {
      assert sent + [] == sent;
    } else if s.reply.Some? && WriteWorks(writes) {
      var later := ServeLines(step, s.b, lines[1..], NextWrites(writes)).replies;
      assert sent + ([s.reply.value] + later) == (sent + [s.reply.value]) + later;
    } else {
      assert sent + [] == sent;
    }
  }

  /** Writes the reply to a served line; the loop goes on unless a write that is
      checked fails. */
  method Send<B>(conn: Conn, s: Served<B>) returns (go: bool)
    modifies conn`writes, conn`out
    ensures conn.out == old(conn.out) + Delivered(s, old(conn.writes))
    ensures conn.writes == if s.reply.Some? then NextWrites(old(conn.writes)) else old(conn.writes)
    ensures go == !Stops(s, old(conn.writes))
  {
    go := true;
    if s.reply.Some? {
      var written := conn.WriteAll(s.reply.value);
      go := written || s.lax;
    }
  }

  predicate Remain(lines: seq<string>, buf: string, inbox: seq<string>) {
    lines == LinesOf(buf + Concat(inbox))
  }

  /** One turn of the loop: reads a line, asks, replies. */
  method ServeNext<B>(step: Backend<B>, b0: B, conn: Conn, buf0: string,
                      ghost goal: Conversation<B>, ghost sent: seq<string>, ghost lines: seq<string>)
    returns (go: bool, b: B, buf: string, ghost more: seq<string>)
    requires Remain(lines, buf0, conn.inbox)
    requires Continues(step, goal, sent, b0, lines, conn.writes)
    modifies conn
    ensures conn.out == old(conn.out) + more
    ensures go ==> lines != [] && Remain(lines[1..], buf, conn.inbox)
    ensures go ==> Continues(step, goal, sent + more, b, lines[1..], conn.writes)
    ensures !go ==> goal == Conversation(b, sent + more)
  {
    var ok, line;
    ok, line, buf := NextLine(conn, buf0);
    if ok {
      ghost var rest := LinesOf(buf + Concat(conn.inbox));
      assert lines == [line] + rest && lines[1..] == rest;
      OneLineServed(step, goal, sent, b0, lines, conn.writes);
      var s := Answer(step, b0, line);
      b := s.b;
      more := Delivered(s, conn.writes);
      go := Send(conn, s);
    } else {
      NothingServed(step, goal, sent, b0, conn.writes);
      go, b, more := false, b0, [];
      assert sent + [] == sent && conn.out + [] == conn.out;
    }
  }

  /** Serves requests until the stream ends or a write fails. */
  method ServeConn<B>(step: Backend<B>, b0: B, conn: Conn) returns (b: B)
    modifies conn
    ensures var c := ServeLines(step, b0, LinesOf(Concat(old(conn.inbox))), old(conn.writes));
      b == c.b && conn.out == old(conn.out) + c.replies
  {
    b := b0;
    var buf, go := "", true;
    assert "" + Concat(conn.inbox) == Concat(conn.inbox);
    ghost var lines := LinesOf(Concat(conn.inbox));
    ghost var goal := ServeLines(step, b0, lines, conn.writes);
    ghost var sent: seq<string> := [];
    ghost var more: seq<string>;
    while go
      invariant conn.out == old(conn.out) + sent
      invariant go ==> Remain(lines, buf, conn.inbox)
      invariant go ==> Continues(step, goal, sent, b, lines, conn.writes)
      invariant !go ==> goal == Conversation(b, sent)
      decreases go, |lines|
    {
      go, b, buf, more := ServeNext(step, b, conn, buf, goal, sent, lines);
      Reassociate(old(conn.out), sent, more);
      sent := sent + more;
      lines := if lines == [] then [] else lines[1..];
    }
  }
}
