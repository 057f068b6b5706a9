/** The two classes joined: what the client writes is what the daemon reads, and what the
    daemon writes is what the client reads. */
module EndToEnd {
  import opened Lines
  import opened Proto
  import opened Wrappers
  import opened Wire
  import opened Sockets
  import opened Relay
  import opened Client
  import Daemon
  import opened Stack
  import opened Candidates
  import opened Session

  /** One request by the method of the class that makes it. */
  method AskOne(client: Client, q: Request) returns (a: Answer)
    modifies client, client.conn
    ensures client.Tried(RequestLine(q) + "\n") && a == Expected(q, old(client.Facing()))
  {
    if q.QPing? {
      a := client.Ping();
    } else if q.QCandidatesEx? {
      a := client.CandidatesEx(q);
    } else if AsksForList(q) {
      a := client.RequestList(q);
    } else {
      a := client.SimpleReq(q);
    }
  }

  /** A series of requests over one connection that takes every write. */
  method AskAll(client: Client, qs: seq<Request>) returns (answers: seq<Answer>)
    requires client.Facing().Up? && client.Facing().writes == []
    modifies client, client.conn
    ensures answers == Asked(qs, old(client.Facing()))
    ensures qs == [] ==> unchanged(client) && unchanged(client.conn)
    ensures qs != [] ==>
      client.up && client.conn.out == (if old(client.up) then old(client.conn.out) else []) + Messages(qs)
    decreases |qs|
  {
    if qs == [] {
      return [];
    }
    ghost var before := if client.up then client.conn.out else [];
    var a := AskOne(client, qs[0]);
    Reassociate(before, [RequestLine(qs[0]) + "\n"], Messages(qs[1..]));
    var rest := AskAll(client, qs[1..]);
    answers := [a] + rest;
    if qs[1..] == [] {
      assert Messages(qs) == [RequestLine(qs[0]) + "\n"] + [];
      AppendNothing([RequestLine(qs[0]) + "\n"]);
    }
  }

  /** The daemon on a connection that delivers these pieces. */
  method ServeBytes<B>(step: Backend<B>, b0: B, up: seq<string>) returns (b: B, down: seq<string>)
    ensures var c := ServeLines(step, b0, LinesOf(Concat(up)), []); b == c.b && down == c.replies
  {
    var conn := new Conn(up, []);
    b := Daemon.ServeConn(step, b0, conn);
    down := conn.out;
    AppendNothing(down);
  }

  /** A new client whose connection delivers these pieces. */
  method AskOver(qs: seq<Request>, down: seq<string>) returns (answers: seq<Answer>, written: seq<string>)
    ensures answers == Asked(qs, Up(Concat(down), []))
    ensures qs != [] ==> written == Messages(qs)
  {
    var client := new Client([Accepted(down, [])]);
    answers := AskAll(client, qs);
    written := client.conn.out;
    AppendNothing(Messages(qs));
  }

  /** A conversation through both classes.  The daemon reads the client's bytes in any
      pieces; the client reads the daemon's replies; the backend ends where direct calls
      would leave it, and every answer is the direct one. */
  method Converse<B(!new)>(step: Backend<B>, b0: B, qs: seq<Request>, up: seq<string>)
    returns (b: B, answers: seq<Answer>, written: seq<string>)
    requires CleanTalk(step, b0, qs) && NoCutBelowOne(step)
    requires Concat(up) == Concat(Messages(qs))
    ensures b == DirectCalls(step, b0, qs).0
    ensures qs != [] ==> Concat(written) == Concat(up)
    ensures AreDirect(answers, DirectCalls(step, b0, qs).1)
  {
    var down;
    b, down := ServeBytes(step, b0, up);
    answers, written := AskOver(qs, down);
    ServedAnswers(step, b0, qs, up, down);
  }

  predicate AreDirect(answers: seq<Answer>, direct: seq<Response>) {
    |answers| == |direct| && forall k :: 0 <= k < |answers| ==> answers[k] == Answered(direct[k])
  }

  /** The same as a statement about bytes, for every division of both streams: the lines of
      the client's messages are served, the stream of the replies is decoded. */
  lemma ServedAnswers<B(!new)>(step: Backend<B>, b: B, qs: seq<Request>, up: seq<string>, down: seq<string>)
    requires CleanTalk(step, b, qs) && NoCutBelowOne(step)
    requires Concat(up) == Concat(Messages(qs))
    requires Concat(down) == Concat(ServeLines(step, b, LinesOf(Concat(up)), []).replies)
    ensures ServeLines(step, b, LinesOf(Concat(up)), []).b == DirectCalls(step, b, qs).0
    ensures AreDirect(Asked(qs, Up(Concat(down), [])), DirectCalls(step, b, qs).1)
  {
    TalkIsOfCleanRequests(step, b, qs);
    MessagesAreRequestLines(qs);
    ConversationIsDirect(step, b, qs);
    ClientOverDaemonIsDirect(step, b, qs);
  }

  /** For the stack as it is: the answers that the client gets over the socket are those of
      calling `Session` and `SessionEngine` directly with the caller's own arguments. */
  lemma StackOverSocketIsDirect(b: Stack, qs: seq<Request>, up: seq<string>, down: seq<string>)
    requires CleanTalk(StackStep, b, qs)
    requires Concat(up) == Concat(Messages(qs))
    requires Concat(down) == Concat(ServeLines(StackStep, b, LinesOf(Concat(up)), []).replies)
    ensures ServeLines(StackStep, b, LinesOf(Concat(up)), []).b == DirectCalls(StackStep, b, qs).0
    ensures AreDirect(Asked(qs, Up(Concat(down), [])), DirectCalls(StackStep, b, qs).1)
  {
    StackCutsNothingBelowOne();
    ServedAnswers(StackStep, b, qs, up, down);
  }

  /** What such a list answer is: the outcome of the one `Session` call, cut to the
      caller's own maximum. */
  lemma DirectListIsTheSessionCall(b: Stack, r: string, max: int)
    ensures var rested := Rested(b);
      var (h, top, conv) := Consult(rested.harn, r);
      var (ok, res, m) := CandidatesCall(rested.mem, r, max, top, conv);
      DirectCall(StackStep, b, QCandidates(r, max)).1
        == if ok then Result(res.(candidatesEx := [])) else Refused(conv.err)
  {
  }
}
