/** The client: it dials when it has no connection, sends one request line, reads one
    reply line and decodes it. */
module Client {
  import opened Lines
  import opened Proto
  import opened Wrappers
  import opened Wire
  import opened Sockets
  import opened Relay

  /** What the next attempt to connect will give. */
  datatype Dial = Refusal | Accepted(inbox: seq<string>, writes: seq<bool>)

  datatype Failure = NoConnection | NotSent | NoReply

  datatype Answer = Answered(response: Response) | Broken(why: Failure)

  /** The far end as the next request finds it: the bytes not yet consumed, whatever
      their pieces, and the outcomes of the writes to come. */
  datatype Peer = Down | Up(stream: string, writes: seq<bool>)

  function AfterLine(stream: string): string {
    var nl := NewlineAt(stream);
    if nl < 0 then stream else stream[nl + 1..]
  }

  /** The far end after a request was tried on it. */
  function Faced(p: Peer): Peer
    requires p.Up?
  {
    Up(if WriteWorks(p.writes) then AfterLine(p.stream) else p.stream, NextWrites(p.writes))
  }

  predicate Receives(p: Peer) {
    p.Up? && WriteWorks(p.writes)
  }

  /** What a request comes to. */
  function Expected(q: Request, p: Peer): Answer {
    if p.Down? then Broken(NoConnection)
    else if !WriteWorks(p.writes) then Broken(NotSent)
    else
      var nl := NewlineAt(p.stream);
      if nl < 0 then Broken(NoReply) else Answered(Decode(q, p.stream[..nl]))
  }

  class Client {
    const conn: Conn
    var up: bool
    var rxbuf: string
    var dials: seq<Dial>

    constructor (dials: seq<Dial>)
      ensures fresh(conn) && !up && rxbuf == "" && this.dials == dials
    {
      conn := new Conn([], []);
      this.up, this.rxbuf, this.dials := false, "", dials;
    }

    ghost function Facing(): Peer
      reads this, conn
    {
      if up then Up(rxbuf + Concat(conn.inbox), conn.writes)
      else if dials == [] || dials[0].Refusal? then Down
      else Up(Concat(dials[0].inbox), dials[0].writes)
    }

    method Close()
      modifies `up, `rxbuf
      ensures !up && rxbuf == ""
    {
      up, rxbuf := false, "";
    }

    /** Drops the old connection and every byte left over from it. */
    method Connect() returns (ok: bool)
      modifies this, conn
      ensures ok == up == (old(dials) != [] && old(dials)[0].Accepted?)
      ensures dials == (if old(dials) == [] then [] else old(dials)[1..]) && rxbuf == ""
      ensures ok ==> conn.inbox == old(dials)[0].inbox && conn.writes == old(dials)[0].writes && conn.out == []
    {
      Close();
      ok := dials != [] && dials[0].Accepted?;
      if ok {
        conn.inbox, conn.writes, conn.out := dials[0].inbox, dials[0].writes, [];
        up := true;
      }
      dials := if dials == [] then [] else dials[1..];
    }

    /** Reads the next line of the stream. */
    method RecvLine() returns (ok: bool, line: string)
      requires up
      modifies `rxbuf, conn`inbox
      ensures Facing() == Up(AfterLine(old(Facing()).stream), conn.writes)
      ensures var nl := NewlineAt(old(Facing()).stream);
        ok == (nl >= 0) && (ok ==> line == old(Facing()).stream[..nl])
    {
      ghost var stream := Facing().stream;
      ok, line, rxbuf := ReadLine(conn, rxbuf);
      if ok {
        assert stream == line + "\n" + (rxbuf + Concat(conn.inbox));
        NewlineIsUnique(stream, |line|);
      } else {
        assert rxbuf + Concat(conn.inbox) == stream;
      }
    }

    /** The effect of one request: dial if need be, at most one message out, at most one
        line in, and nothing else of the stream touched. */
    twostate predicate Tried(message: string)
      reads this, conn
    {
      var p := old(Facing());
      && (p.Up? ==> up && Facing() == Faced(p))
      && (p.Down? ==> !up && dials == if old(dials) == [] then [] else old(dials)[1..])
      && (Receives(p) ==> conn.out == (if old(up) then old(conn.out) else []) + [message])
      && (p.Up? && !Receives(p) ==> conn.out == if old(up) then old(conn.out) else [])
    }

    /** Dials if there is no connection. */
    method Ready() returns (ok: bool)
      modifies this, conn
      ensures ok == up == old(Facing()).Up?
      ensures ok ==> Facing() == old(Facing()) && conn.out == if old(up) then old(conn.out) else []
      ensures !ok ==> dials == if old(dials) == [] then [] else old(dials)[1..]
    {
      ok := true;
      if !up {
        ok := Connect();
        AppendNothing(Concat(conn.inbox));
      }
    }

    /** Sends a message and reads the next line. */
    method Deliver(message: string) returns (failure: Option<Failure>, line: string)
      requires up
      modifies `rxbuf, conn
      ensures Facing() == Faced(old(Facing()))
      ensures var p := old(Facing());
        && conn.out == (if Receives(p) then old(conn.out) + [message] else old(conn.out))
        && failure == (if !Receives(p) then Some(NotSent)
                       else if NewlineAt(p.stream) < 0 then Some(NoReply)
                       else None)
        && (failure.None? ==> line == p.stream[..NewlineAt(p.stream)])
    {
      line := "";
      var sent := conn.WriteAll(message);
      if !sent {
        return Some(NotSent), line;
      }
      var received;
      received, line := RecvLine();
      failure := if received then None else Some(NoReply);
    }

    /** Dials if there is no connection, sends the fields, reads a line. */
    method Exchange(fields: seq<string>) returns (failure: Option<Failure>, line: string)
      modifies this, conn
      ensures Tried(Joined(fields) + "\n")
      ensures var p := old(Facing());
        && failure == (if p.Down? then Some(NoConnection)
                       else if !Receives(p) then Some(NotSent)
                       else if NewlineAt(p.stream) < 0 then Some(NoReply)
                       else None)
        && (failure.None? ==> line == p.stream[..NewlineAt(p.stream)])
    {
      line := "";
      var connected := Ready();
      if !connected {
        return Some(NoConnection), line;
      }
      var message := JoinTabs(fields);
      failure, line := Deliver(message);
    }

    /** `convert`, `candidates` and `session-candidates`. */
    method RequestList(q: Request) returns (a: Answer)
      requires AsksForList(q)
      modifies this, conn
      ensures Tried(RequestLine(q) + "\n") && a == Expected(q, old(Facing()))
    {
      var failure, line := Exchange([Name(VerbFor(q))] + Args(q));
      if failure.Some? {
        return Broken(failure.value);
      }
      var f := SplitTabs(line);
      var r := ReadList(f);
      a := Answered(r);
    }

    method CandidatesEx(q: Request) returns (a: Answer)
      requires q.QCandidatesEx?
      modifies this, conn
      ensures Tried(RequestLine(q) + "\n") && a == Expected(q, old(Facing()))
    {
      var failure, line := Exchange([Name(VerbFor(q))] + Args(q));
      if failure.Some? {
        return Broken(failure.value);
      }
      var f := SplitTabs(line);
      if f[0] == "err" {
        return Answered(ErrOf(f));
      }
      if f[0] != "okx" {
        return Answered(Refused("unexpected reply: " + f[0]));
      }
      var res := Regroup(f);
      a := Answered(Result(res));
    }

    method Ping() returns (a: Answer)
      modifies this, conn
      ensures Tried(RequestLine(QPing) + "\n") && a == Expected(QPing, old(Facing()))
    {
      var failure, line := Exchange([Name(VerbFor(QPing))] + Args(QPing));
      if failure.Some? {
        return Broken(failure.value);
      }
      a := Answered(if StartsWith(line, "pong") then Said("") else Refused("no pong: " + line));
    }

    /** The session requests: one optional argument, one expected verb, one text. */
    method SimpleReq(q: Request) returns (a: Answer)
      requires !q.QPing? && !q.QCandidatesEx? && !AsksForList(q)
      modifies this, conn
      ensures Tried(RequestLine(q) + "\n") && a == Expected(q, old(Facing()))
    {
      var failure, line := Exchange([Name(VerbFor(q))] + Args(q));
      if failure.Some? {
        return Broken(failure.value);
      }
      var f := SplitTabs(line);
      if f[0] == "err" {
        return Answered(ErrOf(f));
      }
      if f[0] != (if q.QCommit? then "commit" else "ok") {
        return Answered(Refused("unexpected reply: " + f[0]));
      }
      a := Answered(Said(if |f| > 1 && !q.QCancel? then f[1] else ""));
    }
  }

  /** A flat reply: the verb, the commit and the candidates, or only the verb. */
  method ReadList(f: seq<string>) returns (r: Response)
    requires |f| > 0
    ensures r == DecodeList(f)
  {
    if f[0] == "err" {
      return ErrOf(f);
    }
    if f[0] != "ok" {
      return Refused("unexpected reply: " + f[0]);
    }
    var commit := if |f| > 1 then f[1] else "";
    var start := if |f| > 1 then 2 else 1;
    r := Result(ConvertResult(commit, f[start..], []));
  }

  lemma SurfacesOfAppended(ex: seq<Candidate>, c: Candidate)
    ensures SurfacesOf(ex + [c]) == SurfacesOf(ex) + [c.surface]
  {
  }

  /** The loop that groups the fields behind the commit by three. */
  method Regroup(f: seq<string>) returns (res: ConvertResult)
    ensures var ex := Unflattened(f, 2);
      res == ConvertResult(if |f| > 1 then f[1] else "", SurfacesOf(ex), ex)
  {
    var flat: seq<string>, ex: seq<Candidate> := [], [];
    var i := 2;
    AppendNothing(Unflattened(f, 2));
    while i < |f|
      invariant i >= 2
      invariant ex + Unflattened(f, i) == Unflattened(f, 2)
      invariant flat == SurfacesOf(ex)
      decreases |f| - i
    {
      var c := Candidate(f[i], if i + 1 < |f| then f[i + 1] else "", if i + 2 < |f| then f[i + 2] else "");
      AppendNothing(Unflattened(f, i + 3));
      if c.surface != "" {
        Reassociate(ex, [c], Unflattened(f, i + 3));
        SurfacesOfAppended(ex, c);
        flat := flat + [c.surface];
        ex := ex + [c];
      }
      i := i + 3;
    }
    AppendNothing(ex);
    res := ConvertResult(if |f| > 1 then f[1] else "", flat, ex);
  }

  // ----- client and daemon together -----

  /** What a series of requests over one connection comes to. */
  function Asked(qs: seq<Request>, p: Peer): seq<Answer>
    requires p.Up?
    decreases |qs|
  {
    if qs == [] then [] else [Expected(qs[0], p)] + Asked(qs[1..], Faced(p))
  }

  lemma FirstLine(stream: string)
    requires LinesOf(stream) != []
    ensures var nl := NewlineAt(stream);
      nl >= 0 && LinesOf(stream)[0] == stream[..nl] && LinesOf(AfterLine(stream)) == LinesOf(stream)[1..]
  {
    assert ([stream[..NewlineAt(stream)]] + LinesOf(AfterLine(stream)))[1..] == LinesOf(AfterLine(stream));
  }

  lemma {:induction false} AskedReadsLines(qs: seq<Request>, p: Peer)
    requires p.Up? && p.writes == [] && |LinesOf(p.stream)| >= |qs|
    ensures var lines, answers := LinesOf(p.stream), Asked(qs, p);
      && |answers| == |qs|
      && forall k :: 0 <= k < |qs| ==> answers[k] == Answered(Decode(qs[k], lines[k]))
    decreases |qs|
  {
    if qs != [] {
      FirstLine(p.stream);
      AskedReadsLines(qs[1..], Faced(p));
      var lines, later := LinesOf(p.stream), Asked(qs[1..], Faced(p));
      forall k | 0 < k < |qs| ensures Asked(qs, p)[k] == Answered(Decode(qs[k], lines[k])) {
        assert later[k - 1] == Answered(Decode(qs[1..][k - 1], lines[1..][k - 1]));
      }
    }
  }

  /** A client that sends its requests to a daemon serving the same requests gets, answer
      for answer, what it would have been handed by calling the backend itself. */
  lemma ClientOverDaemonIsDirect<B(!new)>(step: Backend<B>, b: B, qs: seq<Request>)
    requires CleanTalk(step, b, qs) && NoCutBelowOne(step)
    ensures var stream := Concat(ServeLines(step, b, RequestLines(qs), []).replies);
      var answers, direct := Asked(qs, Up(stream, [])), DirectCalls(step, b, qs).1;
      && |answers| == |direct| == |qs|
      && forall k :: 0 <= k < |qs| ==> answers[k] == Answered(direct[k])
  {
    var stream := Concat(ServeLines(step, b, RequestLines(qs), []).replies);
    StreamAnswersRequests(step, b, qs);
    AskedReadsLines(qs, Up(stream, []));
    var direct := DirectCalls(step, b, qs).1;
    forall k | 0 <= k < |qs| ensures Asked(qs, Up(stream, []))[k] == Answered(direct[k]) {
      assert Decode(qs[k], LinesOf(stream)[k]) == direct[k];
    }
  }
}
