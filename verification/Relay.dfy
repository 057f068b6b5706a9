/** Calling through client and daemon is calling the backend directly. */
module Relay {
  import opened Lines
  import opened Proto
  import opened Wrappers
  import opened Wire

  lemma ArgsAreClean(q: Request)
    requires CleanRequest(q)
    ensures AllClean([Name(VerbFor(q))] + Args(q))
    ensures Fields(RequestLine(q)) == [Name(VerbFor(q))] + Args(q)
  {
    VerbOfName(VerbFor(q));
    if (q.QCandidates? || q.QCandidatesEx? || q.QSessionCandidates?) && q.max > 0 {
      NumberRoundTrip(q.max);
    }
    FieldsOfJoined([Name(VerbFor(q))] + Args(q));
  }

  lemma MaxIsRead(name: string, r: string, max: int)
    ensures MaxOf([name] + (if max > 0 then [r, ToString(max)] else [r])) == if max > 0 then max else 0
  {
    if max > 0 {
      NumberRoundTrip(max);
      assert ([name] + [r, ToString(max)])[2] == ToString(max);
    }
  }

  lemma VerbIsPlanned(q: Request, name: string)
    requires !q.QPing?
    ensures PlanForVerb(VerbFor(q), [name] + Args(q)) == Ask(Sent(CallFor(q)))
  {
    match q
    case QCandidates(r, max) => MaxIsRead(name, r, max);
    case QCandidatesEx(r, max) => MaxIsRead(name, r, max);
    case QSessionCandidates(r, max) => MaxIsRead(name, r, max);
    case _ =>
  }

  /** The daemon understands every request the client sends. */
  lemma RequestIsUnderstood(q: Request)
    requires CleanRequest(q) && !q.QPing?
    ensures var f := Fields(RequestLine(q));
      VerbOf(f[0]) == Some(VerbFor(q)) && PlanFor(f) == Ask(Sent(CallFor(q)))
  {
    ArgsAreClean(q);
    VerbOfName(VerbFor(q));
    VerbIsPlanned(q, Name(VerbFor(q)));
  }

  lemma ReplyVerbs()
    ensures "ok" != "err" && "okx" != "err" && "okx" != "ok" && "commit" != "err" && "commit" != "ok"
    ensures Clean("ok") && Clean("okx") && Clean("commit") && Clean("err")
  {
    assert |"okx"| == |"err"| && "okx"[0] == 'o' && "err"[0] == 'e';
  }

  /** A message of clean fields is one line, and its fields are read back. */
  lemma MessageIsOneLine(fs: seq<string>)
    requires |fs| > 0 && AllClean(fs)
    ensures '\n' !in Joined(fs) && Fields(Joined(fs)) == fs
  {
    FieldsOfJoined(fs);
    JoinedHasNoNewline(fs);
  }

  /** A reply without its newline. */
  function Body(reply: string): string {
    if reply == "" then "" else reply[..|reply| - 1]
  }

  /** One line, ended by the only newline in it. */
  predicate OneLine(reply: string) {
    reply == Body(reply) + "\n" && '\n' !in Body(reply)
  }

  /** A reply is one line, and the client reads the response in it. */
  predicate ReadAs(q: Request, reply: string, response: Response) {
    OneLine(reply) && Decode(q, Body(reply)) == response
  }

  predicate Conveys(q: Request, reply: string, o: Outcome) {
    ReadAs(q, reply, Direct(q, o))
  }

  lemma FailureConveys(q: Request, err: string)
    requires Clean(err) && !q.QPing?
    ensures Conveys(q, ErrLine(err), Failed(err))
  {
    ReplyVerbs();
    var fs := ["err", err];
    MessageIsOneLine(fs);
    assert ErrLine(err)[..|ErrLine(err)| - 1] == Joined(fs);
  }

  lemma ListConveys(q: Request, o: Outcome)
    requires AsksForList(q) && o.Done? && CleanOutcome(VerbFor(q), o)
    ensures Conveys(q, Joined(["ok", o.res.commit] + o.res.candidates) + "\n", o)
  {
    ReplyVerbs();
    var fs := ["ok", o.res.commit] + o.res.candidates;
    MessageIsOneLine(fs);
    var reply := Joined(fs) + "\n";
    assert reply[..|reply| - 1] == Joined(fs);
    assert fs[2..] == o.res.candidates;
  }

  lemma EnrichedConveys(q: Request, o: Outcome)
    requires q.QCandidatesEx? && o.Done? && CleanOutcome(VerbFor(q), o)
    ensures Conveys(q, Joined(["okx", o.res.commit] + Flattened(Offered(o.res))) + "\n", o)
  {
    ReplyVerbs();
    var head, ex := ["okx", o.res.commit], Offered(o.res);
    assert CleanEntries(ex);
    FlattenedIsClean(ex);
    var fs := head + Flattened(ex);
    MessageIsOneLine(fs);
    TriplesRoundTrip(head, ex);
    var reply := Joined(fs) + "\n";
    assert reply[..|reply| - 1] == Joined(fs);
  }

  lemma CommitConveys(o: Outcome)
    requires o.Done? && Clean(o.text)
    ensures Conveys(QCommit, Joined(["commit", o.text]) + "\n", o)
  {
    ReplyVerbs();
    var fs := ["commit", o.text];
    MessageIsOneLine(fs);
    assert (Joined(fs) + "\n")[..|Joined(fs)|] == Joined(fs);
  }

  /** An empty payload is a bare verb on the wire and empty again for the client. */
  lemma TextConveys(q: Request, o: Outcome, text: string)
    requires !q.QPing? && !q.QCandidatesEx? && !AsksForList(q) && !q.QCommit?
    requires o.Done? && Clean(text) && text == (if q.QCancel? then "" else o.text)
    ensures Conveys(q, OkLine(text), o)
  {
    ReplyVerbs();
    var fs := if text == "" then ["ok"] else ["ok", text];
    MessageIsOneLine(fs);
    assert OkLine(text) == Joined(fs) + "\n";
    assert OkLine(text)[..|Joined(fs)|] == Joined(fs);
  }

  lemma ReplyShape(q: Request, res: ConvertResult, text: string)
    requires !q.QPing?
    ensures var reply := ReplyFor(VerbFor(q), Done(res, text));
      if AsksForList(q) then reply == Joined(["ok", res.commit] + res.candidates) + "\n"
      else if q.QCandidatesEx? then reply == Joined(["okx", res.commit] + Flattened(Offered(res))) + "\n"
      else if q.QCommit? then reply == Joined(["commit", text]) + "\n"
      else reply == OkLine(if q.QCancel? then "" else text)
  {
  }

  /** The client reads in every reply exactly what a direct caller is handed. */
  lemma ReplyIsUnderstood(q: Request, o: Outcome)
    requires !q.QPing? && CleanOutcome(VerbFor(q), o)
    ensures Conveys(q, ReplyFor(VerbFor(q), o), o)
  {
    if o.Failed? {
      FailureConveys(q, o.err);
    } else {
      ReplyShape(q, o.res, o.text);
      if AsksForList(q) {
        ListConveys(q, o);
      } else if q.QCandidatesEx? {
        EnrichedConveys(q, o);
      } else if q.QCommit? {
        CommitConveys(o);
      } else {
        TextConveys(q, o, if q.QCancel? then "" else o.text);
      }
    }
  }

  /** Cleanness is the exact condition: except for enriched entries without a surface,
      which are dropped anyway, the client reads the direct response if and only if the
      fields of the reply are clean. */
  lemma ConveysExactlyWhenClean(q: Request, o: Outcome)
    requires !q.QPing? && !q.QCandidatesEx?
    ensures Conveys(q, ReplyFor(VerbFor(q), o), o) <==> CleanOutcome(VerbFor(q), o)
  {
    var reply := ReplyFor(VerbFor(q), o);
    if CleanOutcome(VerbFor(q), o) {
      ReplyIsUnderstood(q, o);
    } else if Conveys(q, reply, o) {
      var f := Fields(Body(reply));
      WhatIsReadIsClean(q, f, o);
    }
  }

  lemma UnexpectedIsClean(verb: string)
    requires Clean(verb)
    ensures Clean("unexpected reply: " + verb)
  {
    var head := "unexpected reply: ";
    assert Clean(head);
  }

  /** Every text that a client gets out of clean fields is clean. */
  lemma WhatIsReadIsClean(q: Request, f: seq<string>, o: Outcome)
    requires !q.QPing? && !q.QCandidatesEx? && |f| > 0 && AllClean(f)
    requires Direct(q, o) ==
      if AsksForList(q) then DecodeList(f) else DecodeText(f, if q.QCommit? then "commit" else "ok", !q.QCancel?)
    ensures CleanOutcome(VerbFor(q), o)
  {
    UnexpectedIsClean(f[0]);
    assert Clean("engine error") && Clean("");
    if o.Done? && AsksForList(q) {
      assert |f| > 1 ==> AllClean(f[2..]);
    }
  }

  lemma PingIsAnswered<B>(step: Backend<B>, b: B)
    ensures ServeLine(step, b, RequestLine(QPing)) == Served(b, Some("pong" + "\n"), false)
    ensures ReadAs(QPing, "pong" + "\n", Said(""))
  {
    ArgsAreClean(QPing);
    VerbOfName(Ping);
    assert ("pong" + "\n")[..4] == "pong";
  }

  /** A request whose outcome, when it is made directly in this state, fits on a line. */
  predicate CleanCall<B>(step: Backend<B>, b: B, q: Request) {
    CleanRequest(q) && (!q.QPing? ==> CleanOutcome(VerbFor(q), step(b, CallFor(q)).1))
  }

  /** One request through client and daemon: the backend makes the direct call's step,
      and the client gets the direct call's response out of a single line. */
  lemma RelayIsDirect<B(!new)>(step: Backend<B>, b: B, q: Request)
    requires CleanCall(step, b, q) && NoCutBelowOne(step)
    ensures var s, d := ServeLine(step, b, RequestLine(q)), DirectCall(step, b, q);
      s.b == d.0 && s.reply.Some? && ReadAs(q, s.reply.value, d.1)
  {
    if q.QPing? {
      PingIsAnswered(step, b);
    } else {
      RequestIsUnderstood(q);
      assert step(b, Sent(CallFor(q))) == step(b, CallFor(q));
      ReplyIsUnderstood(q, step(b, CallFor(q)).1);
    }
  }

  // ----- whole conversations -----

  /** The requests and the outcomes met along this conversation fit on lines. */
  predicate CleanTalk<B>(step: Backend<B>, b: B, qs: seq<Request>)
    decreases |qs|
  {
    qs == [] || (CleanCall(step, b, qs[0]) && CleanTalk(step, DirectCall(step, b, qs[0]).0, qs[1..]))
  }

  function RequestLines(qs: seq<Request>): seq<string> {
    if qs == [] then [] else [RequestLine(qs[0])] + RequestLines(qs[1..])
  }

  function DirectCalls<B>(step: Backend<B>, b: B, qs: seq<Request>): (B, seq<Response>)
    decreases |qs|
  {
    if qs == [] then (b, [])
    else
      var (b1, r) := DirectCall(step, b, qs[0]);
      var (b2, rs) := DirectCalls(step, b1, qs[1..]);
      (b2, [r] + rs)
  }

  /** While writes succeed, a conversation of any length is the same conversation held
      directly: the same final backend, one reply per request, and the k-th reply
      is the answer to the k-th request. */
  lemma {:induction false} ConversationIsDirect<B(!new)>(step: Backend<B>, b: B, qs: seq<Request>)
    requires CleanTalk(step, b, qs) && NoCutBelowOne(step)
    ensures var c, d := ServeLines(step, b, RequestLines(qs), []), DirectCalls(step, b, qs);
      && c.b == d.0 && |c.replies| == |d.1| == |qs|
      && forall k :: 0 <= k < |qs| ==> ReadAs(qs[k], c.replies[k], d.1[k])
    decreases |qs|
  {
    if qs != [] {
      var q, lines := qs[0], RequestLines(qs);
      RelayIsDirect(step, b, q);
      var s := ServeLine(step, b, lines[0]);
      var (b1, r) := DirectCall(step, b, q);
      ConversationIsDirect(step, b1, qs[1..]);
      assert lines[1..] == RequestLines(qs[1..]);
      var rest, rs := ServeLines(step, b1, lines[1..], []), DirectCalls(step, b1, qs[1..]).1;
      assert ServeLines(step, b, lines, []).replies == [s.reply.value] + rest.replies;
      assert DirectCalls(step, b, qs).1 == [r] + rs;
      forall k | 0 <= k < |qs| ensures ReadAs(qs[k], ([s.reply.value] + rest.replies)[k], ([r] + rs)[k]) {
        if k > 0 {
          assert ReadAs(qs[1..][k - 1], rest.replies[k - 1], rs[k - 1]);
        }
      }
    }
  }

  /** What the client writes for a series of requests. */
  function Messages(qs: seq<Request>): seq<string> {
    if qs == [] then [] else [RequestLine(qs[0]) + "\n"] + Messages(qs[1..])
  }

  /** On the daemon's side: the lines of the bytes written are the request lines. */
  lemma {:induction false} MessagesAreRequestLines(qs: seq<Request>)
    requires forall i :: 0 <= i < |qs| ==> CleanRequest(qs[i])
    ensures LinesOf(Concat(Messages(qs))) == RequestLines(qs)
  {
    if qs != [] {
      assert CleanRequest(qs[0]);
      ArgsAreClean(qs[0]);
      JoinedHasNoNewline([Name(VerbFor(qs[0]))] + Args(qs[0]));
      LinesOfCons(RequestLine(qs[0]), Concat(Messages(qs[1..])));
      MessagesAreRequestLines(qs[1..]);
      assert Messages(qs)[1..] == Messages(qs[1..]);
    }
  }

  lemma {:induction false} TalkIsOfCleanRequests<B>(step: Backend<B>, b: B, qs: seq<Request>)
    requires CleanTalk(step, b, qs)
    ensures forall i :: 0 <= i < |qs| ==> CleanRequest(qs[i])
    decreases |qs|
  {
    if qs != [] {
      TalkIsOfCleanRequests(step, DirectCall(step, b, qs[0]).0, qs[1..]);
      forall i | 0 < i < |qs| ensures CleanRequest(qs[i]) {
        assert qs[i] == qs[1..][i - 1];
      }
    }
  }

  function Bodies(replies: seq<string>): seq<string> {
    if replies == [] then [] else [Body(replies[0])] + Bodies(replies[1..])
  }

  /** On the client's side: the lines of the byte stream are the replies, in order. */
  lemma {:induction false} StreamIsReplies(replies: seq<string>)
    requires forall i :: 0 <= i < |replies| ==> OneLine(replies[i])
    ensures LinesOf(Concat(replies)) == Bodies(replies)
  {
    StreamIsText(replies);
    LinesOfText(Bodies(replies));
  }

  lemma {:induction false} StreamIsText(replies: seq<string>)
    requires forall i :: 0 <= i < |replies| ==> OneLine(replies[i])
    ensures Concat(replies) == Text(Bodies(replies)) && NewlineFree(Bodies(replies))
  {
    if replies != [] {
      assert OneLine(replies[0]);
      StreamIsText(replies[1..]);
    }
  }

  /** End to end: the k-th line of the byte stream that the client receives decodes to
      the direct answer to its k-th request, and there are no other lines. */
  lemma StreamAnswersRequests<B(!new)>(step: Backend<B>, b: B, qs: seq<Request>)
    requires CleanTalk(step, b, qs) && NoCutBelowOne(step)
    ensures var lines := LinesOf(Concat(ServeLines(step, b, RequestLines(qs), []).replies));
      var direct := DirectCalls(step, b, qs).1;
      && |lines| == |direct| == |qs|
      && forall k :: 0 <= k < |qs| ==> Decode(qs[k], lines[k]) == direct[k]
  {
    ConversationIsDirect(step, b, qs);
    var replies, direct := ServeLines(step, b, RequestLines(qs), []).replies, DirectCalls(step, b, qs).1;
    forall k | 0 <= k < |replies| ensures OneLine(replies[k]) {
      assert ReadAs(qs[k], replies[k], direct[k]);
    }
    StreamIsReplies(replies);
    BodiesAt(replies);
    forall k | 0 <= k < |qs| ensures Decode(qs[k], Bodies(replies)[k]) == direct[k] {
      assert ReadAs(qs[k], replies[k], direct[k]);
    }
  }

  lemma {:induction false} BodiesAt(replies: seq<string>)
    ensures |Bodies(replies)| == |replies|
    ensures forall k :: 0 <= k < |replies| ==> Bodies(replies)[k] == Body(replies[k])
  {
    if replies != [] {
      BodiesAt(replies[1..]);
      forall k | 0 < k < |replies| ensures Bodies(replies)[k] == Body(replies[k]) {
        assert Bodies(replies[1..])[k - 1] == Body(replies[1..][k - 1]);
      }
    }
  }

  /** Any peer, any lines: while writes succeed there is one reply for each line with
      a non-empty first field and none for the others, in order. */
  predicate Asks(line: string) {
    Fields(line)[0] != ""
  }

  function AskingLines(lines: seq<string>): seq<string> {
    if lines == [] then [] else (if Asks(lines[0]) then [lines[0]] else []) + AskingLines(lines[1..])
  }

  /** The backend state in which the k-th asking line is served. */
  function Before<B>(step: Backend<B>, b: B, lines: seq<string>, k: nat): B
    decreases k
  {
    if k == 0 || lines == [] then b else Before(step, ServeLine(step, b, lines[0]).b, lines[1..], k - 1)
  }

  lemma ReplyExactlyWhenAsked<B>(step: Backend<B>, b: B, line: string)
    ensures ServeLine(step, b, line).reply.Some? <==> Asks(line)
    ensures !Asks(line) ==> ServeLine(step, b, line).b == b
  {
  }

  lemma {:induction false} OneReplyPerRequest<B>(step: Backend<B>, b: B, lines: seq<string>)
    ensures var c, asking := ServeLines(step, b, lines, []), AskingLines(lines);
      && |c.replies| == |asking|
      && c.b == Before(step, b, asking, |asking|)
      && forall k :: 0 <= k < |asking| ==>
           ServeLine(step, Before(step, b, asking, k), asking[k]).reply == Some(c.replies[k])
    decreases |lines|
  {
    if lines != [] {
      var s := ServeLine(step, b, lines[0]);
      ReplyExactlyWhenAsked(step, b, lines[0]);
      OneReplyPerRequest(step, s.b, lines[1..]);
      var asking, rest := AskingLines(lines), AskingLines(lines[1..]);
      if Asks(lines[0]) {
        assert asking[0] == lines[0] && asking[1..] == rest;
        var c := ServeLines(step, b, lines, []);
        forall k | 0 <= k < |asking|
          ensures ServeLine(step, Before(step, b, asking, k), asking[k]).reply == Some(c.replies[k])
        {
          if k > 0 {
            assert Before(step, b, asking, k) == Before(step, s.b, rest, k - 1) && asking[k] == rest[k - 1];
          }
        }
      } else {
        assert asking == rest;
      }
    }
  }

  // ----- replies under failing writes -----

  predicate WorksAt(writes: seq<bool>, k: nat) {
    k < |writes| ==> writes[k]
  }

  /** The replies whose own write works. */
  function Delivered(replies: seq<string>, writes: seq<bool>): seq<string>
    decreases |replies|
  {
    if replies == [] then []
    else (if WriteWorks(writes) then [replies[0]] else []) + Delivered(replies[1..], NextWrites(writes))
  }

  /** The connection goes on after the k-th reply: it was written, or it is a lax one. */
  predicate GoesOn<B>(step: Backend<B>, b: B, asking: seq<string>, writes: seq<bool>, k: nat)
    requires k < |asking|
  {
    WorksAt(writes, k) || ServeLine(step, Before(step, b, asking, k), asking[k]).lax
  }

  predicate ServedUpTo<B>(step: Backend<B>, b: B, asking: seq<string>, writes: seq<bool>, m: nat) {
    && m <= |asking|
    && (forall k :: 0 <= k < m - 1 ==> GoesOn(step, b, asking, writes, k))
    && (m < |asking| ==> m > 0 && !GoesOn(step, b, asking, writes, m - 1))
  }

  lemma {:induction false} OnlyAskingLinesCount<B>(step: Backend<B>, b: B, lines: seq<string>, writes: seq<bool>)
    ensures ServeLines(step, b, AskingLines(lines), writes) == ServeLines(step, b, lines, writes)
    decreases |lines|
  {
    if lines != [] {
      var s, rest := ServeLine(step, b, lines[0]), AskingLines(lines[1..]);
      ReplyExactlyWhenAsked(step, b, lines[0]);
      OnlyAskingLinesCount(step, s.b, lines[1..], writes);
      OnlyAskingLinesCount(step, s.b, lines[1..], NextWrites(writes));
      if Asks(lines[0]) {
        assert AskingLines(lines) == [lines[0]] + rest && ([lines[0]] + rest)[1..] == rest;
      } else {
        assert AskingLines(lines) == [] + rest == rest;
      }
    }
  }

  lemma {:induction false} AskingLinesAsk(lines: seq<string>)
    ensures forall i :: 0 <= i < |AskingLines(lines)| ==> Asks(AskingLines(lines)[i])
  {
    if lines != [] {
      AskingLinesAsk(lines[1..]);
    }
  }

  /** Whatever the writes do: the lines served are all up to the first whose reply could not
      be written and is not lax; the replies are those of these lines, in order, without
      the ones whose write failed. */
  lemma RepliesUnderFailingWrites<B>(step: Backend<B>, b: B, lines: seq<string>, writes: seq<bool>) returns (m: nat)
    ensures var c, asking := ServeLines(step, b, lines, writes), AskingLines(lines);
      && ServedUpTo(step, b, asking, writes, m)
      && c.b == Before(step, b, asking, m)
      && c.replies == Delivered(ServeLines(step, b, asking[..m], []).replies, writes)
  {
    OnlyAskingLinesCount(step, b, lines, writes);
    AskingLinesAsk(lines);
    m := AskingUnderFailingWrites(step, b, AskingLines(lines), writes);
  }

  lemma {:induction false} AskingUnderFailingWrites<B>(step: Backend<B>, b: B, asking: seq<string>, writes: seq<bool>)
      returns (m: nat)
    requires forall i :: 0 <= i < |asking| ==> Asks(asking[i])
    ensures ServedUpTo(step, b, asking, writes, m) && ServedAs(step, b, asking, writes, m)
    decreases |asking|
  {
    m := 0;
    if asking != [] {
      var s, later := ServeLine(step, b, asking[0]), NextWrites(writes);
      if WriteWorks(writes) || s.lax {
        var n := AskingUnderFailingWrites(step, s.b, asking[1..], later);
        m := n + 1;
        ServedLater(step, b, asking, writes, n);
        FirstServed(step, b, asking, writes, n);
      } else {
        m := 1;
        StoppedAtOnce(step, b, asking, writes);
      }
    }
  }

  ghost predicate ServedAs<B>(step: Backend<B>, b: B, asking: seq<string>, writes: seq<bool>, m: nat)
    requires m <= |asking|
  {
    var c := ServeLines(step, b, asking, writes);
    && c.b == Before(step, b, asking, m)
    && c.replies == Delivered(ServeLines(step, b, asking[..m], []).replies, writes)
  }

  lemma StoppedAtOnce<B>(step: Backend<B>, b: B, asking: seq<string>, writes: seq<bool>)
    requires asking != [] && Asks(asking[0]) && !WriteWorks(writes) && !ServeLine(step, b, asking[0]).lax
    ensures ServedUpTo(step, b, asking, writes, 1) && ServedAs(step, b, asking, writes, 1)
  {
    var s := ServeLine(step, b, asking[0]);
    ReplyExactlyWhenAsked(step, b, asking[0]);
    assert Before(step, b, asking, 1) == Before(step, s.b, asking[1..], 0);
    RepliesOfFirst(step, b, asking, 1);
    assert asking[1..1] == [];
    DeliveredCons(s.reply.value, [], writes);
  }

  lemma DeliveredCons(x: string, xs: seq<string>, writes: seq<bool>)
    ensures Delivered([x] + xs, writes) == (if WriteWorks(writes) then [x] else []) + Delivered(xs, NextWrites(writes))
  {
    assert ([x] + xs)[1..] == xs;
  }

  lemma RepliesOfFirst<B>(step: Backend<B>, b: B, asking: seq<string>, m: nat)
    requires 0 < m <= |asking| && Asks(asking[0])
    ensures var s := ServeLine(step, b, asking[0]);
      s.reply.Some? &&
      ServeLines(step, b, asking[..m], []).replies
        == [s.reply.value] + ServeLines(step, s.b, asking[1..m], []).replies
  {
    ReplyExactlyWhenAsked(step, b, asking[0]);
    assert asking[..m][1..] == asking[1..m];
  }

  lemma FirstServed<B>(step: Backend<B>, b: B, asking: seq<string>, writes: seq<bool>, n: nat)
    requires n < |asking| && Asks(asking[0])
    requires WriteWorks(writes) || ServeLine(step, b, asking[0]).lax
    requires ServedAs(step, ServeLine(step, b, asking[0]).b, asking[1..], NextWrites(writes), n)
    ensures ServedAs(step, b, asking, writes, n + 1)
  {
    var s, rest, later := ServeLine(step, b, asking[0]), asking[1..], NextWrites(writes);
    RepliesOfFirst(step, b, asking, n + 1);
    assert asking[1..n + 1] == rest[..n];
    var replies := ServeLines(step, s.b, rest[..n], []).replies;
    DeliveredCons(s.reply.value, replies, writes);
    AppendNothing(Delivered(replies, later));
  }

  lemma ServedLater<B>(step: Backend<B>, b: B, asking: seq<string>, writes: seq<bool>, n: nat)
    requires asking != [] && GoesOn(step, b, asking, writes, 0)
    requires ServedUpTo(step, ServeLine(step, b, asking[0]).b, asking[1..], NextWrites(writes), n)
    ensures ServedUpTo(step, b, asking, writes, n + 1)
  {
    var s, rest, later := ServeLine(step, b, asking[0]), asking[1..], NextWrites(writes);
    forall k | 0 < k < |asking| ensures GoesOn(step, b, asking, writes, k) == GoesOn(step, s.b, rest, later, k - 1) {
      assert Before(step, b, asking, k) == Before(step, s.b, rest, k - 1);
    }
  }

  lemma ErrIsOneLine(msg: string)
    requires Clean(msg)
    ensures OneLine(ErrLine(msg))
  {
    ReplyVerbs();
    var fs := ["err", msg];
    MessageIsOneLine(fs);
    assert ErrLine(msg)[..|Joined(fs)|] == Joined(fs);
  }

  lemma MessageWithNewlineIsOneLine(fs: seq<string>)
    requires |fs| > 0 && AllClean(fs)
    ensures OneLine(Joined(fs) + "\n")
  {
    MessageIsOneLine(fs);
    assert (Joined(fs) + "\n")[..|Joined(fs)|] == Joined(fs);
  }

  lemma OutcomeIsOneLine(v: Verb, o: Outcome)
    requires CleanOutcome(v, o)
    ensures OneLine(ReplyFor(v, o))
  {
    ReplyVerbs();
    match o
    case Failed(err) => ErrIsOneLine(err);
    case Done(res, text) =>
      match v {
        case CandidatesEx =>
          FlattenedIsClean(Offered(res));
          MessageWithNewlineIsOneLine(["okx", res.commit] + Flattened(Offered(res)));
        case Convert => MessageWithNewlineIsOneLine(["ok", res.commit] + res.candidates);
        case Candidates => MessageWithNewlineIsOneLine(["ok", res.commit] + res.candidates);
        case SessionCandidates => MessageWithNewlineIsOneLine(["ok", res.commit] + res.candidates);
        case Commit => MessageWithNewlineIsOneLine(["commit", text]);
        case Cancel => OkIsOneLine("");
        case _ => OkIsOneLine(text);
      }
  }

  lemma OkIsOneLine(text: string)
    requires Clean(text)
    ensures OneLine(OkLine(text))
  {
    ReplyVerbs();
    MessageWithNewlineIsOneLine(["ok", text]);
    MessageWithNewlineIsOneLine(["ok"]);
  }

  /** A complaint about a clean operation name is clean. */
  lemma ComplaintIsOneLine(before: string, op: string, behind: string)
    requires Clean(before) && Clean(op) && Clean(behind)
    ensures OneLine(ErrLine(before + op + behind))
  {
    ErrIsOneLine(before + op + behind);
  }

  lemma MissingRomajiIsOneLine(op: string)
    requires Clean(op)
    ensures OneLine(ErrLine(op + ": missing romaji"))
  {
    ComplaintIsOneLine("", op, ": missing romaji");
    assert "" + op + ": missing romaji" == op + ": missing romaji";
  }

  lemma UnknownOpIsOneLine(op: string)
    requires Clean(op)
    ensures OneLine(ErrLine("unknown op: " + op))
  {
    ComplaintIsOneLine("unknown op: ", op, "");
    assert "unknown op: " + op + "" == "unknown op: " + op;
  }

  lemma FixedRepliesAreOneLine()
    ensures OneLine(ErrLine("key: missing chars")) && OneLine("pong" + "\n")
  {
    ErrIsOneLine("key: missing chars");
    assert ("pong" + "\n")[..4] == "pong";
  }

  lemma VerbPlanIsOneLine(v: Verb, f: seq<string>)
    requires |f| > 0 && Clean(f[0])
    ensures PlanForVerb(v, f).Immediate? ==> OneLine(PlanForVerb(v, f).reply)
  {
    var p := PlanForVerb(v, f);
    if p.Immediate? {
      if v.Ping? || v.Key? {
        FixedRepliesAreOneLine();
      } else {
        MissingRomajiIsOneLine(f[0]);
      }
    }
  }

  lemma PlanIsOneLine(f: seq<string>)
    requires |f| > 0 && Clean(f[0])
    ensures PlanFor(f).Immediate? ==> OneLine(PlanFor(f).reply)
  {
    match VerbOf(f[0])
    case None => UnknownOpIsOneLine(f[0]);
    case Some(v) => VerbPlanIsOneLine(v, f);
  }

  /** What a planned line is answered. */
  lemma ServedByPlan<B>(step: Backend<B>, b: B, line: string, p: Plan)
    requires p == PlanFor(Fields(line))
    ensures ServeLine(step, b, line).reply ==
      match p
      case Skip => None
      case Immediate(reply, _) => Some(reply)
      case Ask(call) => Some(ReplyFor(VerbOf(Fields(line)[0]).value, step(b, call).1))
  {
  }

  /** Every reply of the daemon, to any line whatever, is one line. */
  lemma EveryReplyIsOneLine<B>(step: Backend<B>, b: B, line: string)
    requires Asks(line)
    requires var p := PlanFor(Fields(line)); p.Ask? ==> CleanOutcome(VerbOf(Fields(line)[0]).value, step(b, p.call).1)
    ensures OneLine(ServeLine(step, b, line).reply.value)
  {
    var p := PlanFor(Fields(line));
    ServedByPlan(step, b, line, p);
    PlanIsOneLine(Fields(line));
    if p.Ask? {
      OutcomeIsOneLine(VerbOf(Fields(line)[0]).value, step(b, p.call).1);
    }
  }
}
