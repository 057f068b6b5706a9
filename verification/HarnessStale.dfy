/** When a reading is more than one command.  The worker prints a block for each command,
    the engine reads one block for each write, and the block left over answers the next
    call, whatever that asks. */
module HarnessStale {
  import opened Lines
  import opened Process
  import opened Proto
  import opened HarnessProtocol
  import opened WorkerInput
  import opened HarnessReplies

  function With(s: Harn, script: seq<Move>): Harn {
    s.(proc := s.proc.(script := script))
  }

  /** A text that is read as this result, on its own. */
  predicate Block(text: string, res: ConvertResult) {
    BlockText(text) && Fold(BlockLine, EMPTY_RESULT, LinesOf(text)) == Ended(res, [])
  }

  // ----- the printer prints such blocks -----

  lemma {:induction false} CandLinesHaveNoNewline(caps: seq<string>)
    requires NewlineFree(caps)
    ensures NewlineFree(CandLines(caps))
  {
    if caps != [] {
      assert '\n' !in caps[0];
      CandLinesHaveNoNewline(caps[1..]);
    }
  }

  lemma {:induction false} EndsAtTheEnd(out: ConvertResult, ls: seq<string>)
    requires Fold(BlockLine, out, ls).Ended? && Fold(BlockLine, out, ls).left == []
    ensures ls != [] && Unended(ls[..|ls| - 1])
    decreases |ls|
  {
    OnlyEndStops(out, ls[0]);
    if !EndLine(ls[0]) {
      EndsAtTheEnd(BlockLine(out, ls[0]).st, ls[1..]);
      assert ls[..|ls| - 1] == [ls[0]] + ls[1..][..|ls| - 2];
    }
  }

  function Printed(caps: seq<string>): string {
    Text(BlockLines(caps))
  }

  lemma LastEndIsOneBlock(ls: seq<string>)
    requires |ls| > 1 && BeginLine(ls[0]) && Unended(ls[..|ls| - 1])
    ensures OneBlock(ls)
  {
    forall i | 0 <= i < |ls| - 1 ensures !EndLine(ls[i]) {
      assert ls[..|ls| - 1][i] == ls[i];
    }
  }

  lemma BlockLinesHaveNoNewline(caps: seq<string>)
    requires NewlineFree(caps)
    ensures NewlineFree(BlockLines(caps))
  {
    assert caps != [] ==> '\n' !in caps[0];
    CandLinesHaveNoNewline(caps);
  }

  lemma BlockLinesBegin(caps: seq<string>)
    ensures |BlockLines(caps)| > 1 && BeginLine(BlockLines(caps)[0])
  {
    ChompCr("ATD BEGIN");
    assert BlockLines(caps)[0] == "ATD BEGIN" + "\r";
  }

  lemma PrintedIsABlock(caps: seq<string>)
    requires NewlineFree(caps)
    ensures Block(Printed(caps), Meaning(caps))
  {
    BlockLinesHaveNoNewline(caps);
    BlockLinesBegin(caps);
    BlockIsRead(EMPTY_RESULT, caps);
    EndsAtTheEnd(EMPTY_RESULT, BlockLines(caps));
    LastEndIsOneBlock(BlockLines(caps));
    TextIsWhole(BlockLines(caps));
  }

  // ----- two blocks for one write -----

  /** Behind quiet text, the first of two blocks is found and the second stays unread. */
  lemma FirstOfTwo(quiet: string, a: string, b: string, res: ConvertResult)
    requires QuietText(quiet) && Block(a, res) && WholeLines(b)
    ensures Scan(BlockLine, EMPTY_RESULT, quiet + (a + b)) == Halted(res, b)
  {
    var q, ls := LinesOf(quiet), LinesOf(a);
    var mid := UnendedStaysOpen(EMPTY_RESULT, q);
    ScanOfText(BlockLine, EMPTY_RESULT, q);
    ScanInPieces(BlockLine, EMPTY_RESULT, quiet, a + b);
    assert "" + (a + b) == a + b;
    BlockForgets(EMPTY_RESULT, mid, ls);
    ScanOfText(BlockLine, mid, ls);
    ScanInPieces(BlockLine, mid, a, b);
    assert "" + b == b;
  }

  /** Quiet text in the buffer never holds an answer. */
  lemma QuietIsStarved(buf: string, more: string)
    requires QuietText(buf + more)
    ensures Scan(BlockLine, EMPTY_RESULT, buf).Starved?
  {
    var q := LinesOf(buf + more);
    var mid := UnendedStaysOpen(EMPTY_RESULT, q);
    ScanOfText(BlockLine, EMPTY_RESULT, q);
    ScanInPieces(BlockLine, EMPTY_RESULT, buf, more);
  }

  /** An environment that takes a write, prints this for it, and delivers all of it. */
  function Printing(s: Harn, emits: string): seq<Move> {
    [Move(true, emits, 0, ""), Move(true, "", |s.proc.pipe| + |emits|, "")]
  }

  lemma WriteOnLive(s: Harn, line: string, attempts: nat, err: string)
    requires s.proc.running && s.proc.script != [] && s.proc.script[0].ok && attempts > 0
    ensures var emits := s.proc.script[0].emits;
      WriteCmd(s, line, attempts, err) ==
        (Harn(Proc(true, s.proc.pipe + emits, s.proc.script[1..]), s.rbuf, s.trace + [Sent(line, emits)]), true, err)
  {
    assert Attempt(s, line, err).1 == Delivered;
  }

  /** A write that is answered by two blocks returns the first and leaves the second. */
  lemma FirstBlockIsReturned(s: Harn, line: string, a: string, b: string, res: ConvertResult, more: seq<Move>)
    requires s.proc.running && Quiet(s) && Block(a, res) && WholeLines(b)
    ensures RunCmd(With(s, Printing(s, a + b) + more), line, EMPTY_RESULT) ==
      (Harn(Proc(true, "", more), b, s.trace + [Sent(line, a + b), Got(res)]), Answer(true, res, ""))
  {
    var ab := a + b;
    var script := Printing(s, ab) + more;
    assert script[1..] == [script[1]] + more && script[1..][1..] == more;
    WriteOnLive(With(s, script), line, 2, "");
    var t := WriteCmd(With(s, script), line, 2, "").0;
    QuietIsStarved(s.rbuf, s.proc.pipe);
    Reassociate(s.rbuf, s.proc.pipe, ab);
    FirstOfTwo(s.rbuf + s.proc.pipe, a, b, res);
    OneReadFinds(BlockLine, EMPTY_RESULT, t.rbuf, t.proc, CONVERT_TIMEOUT_MS);
    assert s.trace + [Sent(line, ab), Got(res)] == (s.trace + [Sent(line, ab)]) + [Got(res)];
  }

  /** A block left in the buffer answers the next command, whatever it is and whatever is
      printed for it. */
  lemma LeftBlockIsReturned(s: Harn, line: string, b: string, res: ConvertResult)
    requires s.proc.running && s.proc.script != [] && s.proc.script[0].ok
    requires s.rbuf == b && Block(b, res)
    ensures var emits := s.proc.script[0].emits;
      RunCmd(s, line, EMPTY_RESULT) ==
        (Harn(Proc(true, s.proc.pipe + emits, s.proc.script[1..]), "", s.trace + [Sent(line, emits), Got(res)]),
         Answer(true, res, ""))
  {
    var emits := s.proc.script[0].emits;
    WriteOnLive(s, line, 2, "");
    var t := WriteCmd(s, line, 2, "").0;
    ScanOfText(BlockLine, EMPTY_RESULT, LinesOf(b));
    FoundAtOnce(BlockLine, EMPTY_RESULT, t.rbuf, t.proc, 0, CONVERT_TIMEOUT_MS);
    assert s.trace + [Sent(line, emits), Got(res)] == (s.trace + [Sent(line, emits)]) + [Got(res)];
  }

  // ----- a worker to begin with -----

  /** The moves that launch a worker where none runs. */
  function Wake(s: Harn): seq<Move> {
    if s.proc.running then [] else [Move(true, READY, 0, ""), Move(true, "", 10, "")]
  }

  /** The state with a live worker that these moves lead to. */
  function Awake(s: Harn): Harn {
    if s.proc.running then s else Harn(Proc(true, "", []), "", s.trace + [Launched(true, READY)])
  }

  lemma WakesUp(s: Harn, line: string, more: seq<Move>)
    ensures RunCmd(With(s, Wake(s) + more), line, EMPTY_RESULT) == RunCmd(With(Awake(s), more), line, EMPTY_RESULT)
  {
    if s.proc.running {
      assert Wake(s) + more == more;
    } else {
      var script := Wake(s) + more;
      var t := With(s, script);
      assert script[1..] == [Move(true, "", 10, "")] + more && script[1..][1..] == more;
      BannerIsRead(AfterSpawn(t.proc));
      assert EnsureWarm(t, "") == (With(Awake(s), more), true, "");
      assert Attempt(t, line, "") == Attempt(With(Awake(s), more), line, "");
    }
  }

  lemma ReadyIsQuiet()
    ensures QuietText(READY)
  {
    var ls := ["ATD READY"];
    assert Text(ls) == READY;
    TextIsWhole(ls);
  }

  lemma AwakeIsQuiet(s: Harn)
    requires Inv(s) && AllPolite(s.trace)
    ensures Awake(s).proc.running && Quiet(Awake(s)) && AllPolite(Awake(s).trace)
  {
    ReadyIsQuiet();
    QuietAbsorbs();
    assert Awake(s).rbuf + Awake(s).proc.pipe == if s.proc.running then s.rbuf + s.proc.pipe else "";
  }

  // ----- the exact condition -----

  /** Making this call now is safe: over every environment with polite workers and whatever
      single commands are run afterwards, no block is ever stale. */
  ghost predicate CallIsSafe(s: Harn, c: Call) {
    forall script, calls ::
      (AllSingle(calls) && AllPolite(Run(Apply(With(s, script), c), calls).trace) ==>
         NoStale(Run(Apply(With(s, script), c), calls).trace))
  }

  function LineOf(c: Call): string
    requires c.CTopOne? || c.CConvert?
  {
    if c.CTopOne? then HenkanLine(c.romaji) else ConvertLine(c.romaji)
  }

  /** Two calls: the first one's write is answered by two blocks, and the second call, to
      which nothing at all is printed, returns the second block. */
  lemma SecondBlockIsStale(s: Harn, line: string, next: string, a: string, b: string,
                           resA: ConvertResult, resB: ConvertResult) returns (script: seq<Move>, t: Harn)
    requires Inv(s) && AllPolite(s.trace)
    requires Block(a, resA) && Block(b, resB)
    ensures RunCmd(With(s, script), line, EMPTY_RESULT) == (t, Answer(true, resA, ""))
    ensures t.trace == Awake(s).trace + [Sent(line, a + b), Got(resA)]
    ensures RunCmd(t, next, EMPTY_RESULT) ==
      (Harn(Proc(true, "", []), "", t.trace + [Sent(next, ""), Got(resB)]), Answer(true, resB, ""))
  {
    var w, last := Awake(s), [Move(true, "", 0, "")];
    script := Wake(s) + (Printing(w, a + b) + last);
    AwakeIsQuiet(s);
    WakesUp(s, line, Printing(w, a + b) + last);
    FirstBlockIsReturned(w, line, a, b, resA, last);
    t := Harn(Proc(true, "", last), b, w.trace + [Sent(line, a + b), Got(resA)]);
    AppendNothing("");
    assert last[1..] == [];
    LeftBlockIsReturned(t, next, b, resB);
  }

  /** Both calls are answered by polite workers, and the second answer is stale. */
  lemma TwoCommandsStray(s: Harn, line: string, next: string, capsA: seq<string>, capsB: seq<string>)
      returns (script: seq<Move>, t: Harn)
    requires Inv(s) && AllPolite(s.trace) && !Single(Commands(line)) && NewlineFree(capsA) && NewlineFree(capsB)
    ensures RunCmd(With(s, script), line, EMPTY_RESULT) == (t, Answer(true, Meaning(capsA), ""))
    ensures var (u, a) := RunCmd(t, next, EMPTY_RESULT);
      a == Answer(true, Meaning(capsB), "") && AllPolite(u.trace) && !NoStale(u.trace)
  {
    var cs, a, b, resA, resB := Commands(line), Printed(capsA), Printed(capsB), Meaning(capsA), Meaning(capsB);
    PrintedIsABlock(capsA);
    PrintedIsABlock(capsB);
    script, t := SecondBlockIsStale(s, line, next, a, b, resA, resB);
    var i, j :| 0 <= i < j < |cs| && cs[i] != "" && cs[j] != "";
    QuietAbsorbs();
    PrintsTwo(cs, i, j, a, b, BlockText, QuietText);
    PrintsNothing(Commands(next), BlockText, QuietText);
    AwakeIsQuiet(s);
    TwoMore(Awake(s).trace, Sent(line, a + b), Got(resA));
    TwoMore(t.trace, Sent(next, ""), Got(resB));
    StaleAtTheEnd(t.trace, next, resB);
  }

  lemma TwoMore(trace: seq<Event>, e: Event, g: Event)
    requires AllPolite(trace) && Polite(e) && g.Got?
    ensures AllPolite(trace + [e, g])
  {
  }

  lemma StaleAtTheEnd(trace: seq<Event>, line: string, res: ConvertResult)
    ensures !NoStale(trace + [Sent(line, ""), Got(res)])
  {
    var t := trace + [Sent(line, ""), Got(res)];
    assert !AnsweredAt(t, |trace| + 1) by {
      assert t[|trace|].emits == "" && LinesOf("") == [];
    }
  }

  lemma SingleIsSafe(s: Harn, c: Call)
    requires Inv(s) && SingleCall(c)
    ensures CallIsSafe(s, c)
  {
    forall script, calls | AllSingle(calls) && AllPolite(Run(Apply(With(s, script), c), calls).trace)
      ensures NoStale(Run(Apply(With(s, script), c), calls).trace)
    {
      ApplyKeepsInv(With(s, script), c);
      RunKeepsInv(Apply(With(s, script), c), calls);
    }
  }

  lemma PlainCallIsSingle(x: string)
    requires Uncut(x, Separator)
    ensures AllSingle([CTopOne(x)])
  {
    PlainReadingIsSingle(x);
  }

  lemma SingleCallsAreNeeded(s: Harn, c: Call, x: string)
    requires Inv(s) && AllPolite(s.trace) && (c.CTopOne? || c.CConvert?) && !SingleCall(c)
    requires Uncut(x, Separator)
    ensures !CallIsSafe(s, c)
  {
    var script, t := TwoCommandsStray(s, LineOf(c), HenkanLine(x), [], []);
    PlainCallIsSingle(x);
    ApplyRunsLine(With(s, script), c);
    OneCall(t, x);
    StraysOnce(s, c, script, [CTopOne(x)]);
  }

  lemma StraysOnce(s: Harn, c: Call, script: seq<Move>, calls: seq<Call>)
    requires AllSingle(calls)
    requires var trace := Run(Apply(With(s, script), c), calls).trace; AllPolite(trace) && !NoStale(trace)
    ensures !CallIsSafe(s, c)
  {
  }

  lemma ApplyRunsLine(s: Harn, c: Call)
    requires c.CTopOne? || c.CConvert?
    ensures Apply(s, c) == RunCmd(s, LineOf(c), EMPTY_RESULT).0
  {
  }

  lemma OneCall(t: Harn, x: string)
    ensures Run(t, [CTopOne(x)]) == TopOne(t, x, EMPTY_RESULT).0
  {
    assert Run(t, [CTopOne(x)]) == Run(Apply(t, CTopOne(x)), []);
  }

  /** The exact condition: a reading is safe if and only if its write holds at most one
      command. */
  lemma ReadingIsSafeExactlyWhenSingle(s: Harn, c: Call)
    requires Inv(s) && AllPolite(s.trace) && (c.CTopOne? || c.CConvert?)
    ensures CallIsSafe(s, c) <==> SingleCall(c)
  {
    if SingleCall(c) {
      SingleIsSafe(s, c);
    } else {
      SingleCallsAreNeeded(s, c, "");
    }
  }

  // ----- one such reading -----

  predicate PlainPart(r: string) {
    Uncut(r, Separator) && Uncut(r, IsNul)
  }

  /** A reading that carries another command on a line that is kept whole. */
  lemma CarriedReadingIsNotSingle(a: string, b: string)
    requires PlainPart(a) && PlainPart(b) && |a| + |b| + 15 <= LINE_MAX
    ensures !Single(Commands(HenkanLine(a + ";" + ("henkan " + b))))
  {
    var first, second := "henkan " + a, "henkan " + b;
    assert forall i :: 7 <= i < |first| ==> first[i] == a[i - 7];
    assert forall i :: 7 <= i < |second| ==> second[i] == b[i - 7];
    TwoCommandsAreNotSingle(first, second);
    assert HenkanLine(a + ";" + second) == first + [';'] + second + "\n";
  }

  /** From a fresh engine: asked for "ka;henkan ki" and then for any other reading, it
      returns for the other reading what was printed for "ki". */
  lemma StaleReadingRun(x: string, ka: seq<string>, ki: seq<string>)
    requires NewlineFree(ka) && NewlineFree(ki)
    ensures exists script ::
      var (t, a) := TopOne(Fresh(script), "ka" + ";" + ("henkan " + "ki"), EMPTY_RESULT);
      var (u, b) := TopOne(t, x, EMPTY_RESULT);
      && a == Answer(true, Meaning(ka), "") && b == Answer(true, Meaning(ki), "")
      && AllPolite(u.trace) && !NoStale(u.trace)
  {
    CarriedReadingIsNotSingle("ka", "ki");
    var r := "ka" + ";" + ("henkan " + "ki");
    var script, t := TwoCommandsStray(Fresh([]), HenkanLine(r), HenkanLine(x), ka, ki);
    assert With(Fresh([]), script) == Fresh(script);
    assert TopOne(Fresh(script), r, EMPTY_RESULT) == (t, Answer(true, Meaning(ka), ""));
  }
}
