/** When a typed text is more than one command.  The worker prints a reply for each command,
    the engine reads one reply for each write, and the one left over answers the next
    call, whatever that asks. */
module SessionStale {
  import opened Lines
  import opened Process
  import opened Wrappers
  import opened SessionProtocol
  import opened WorkerInput
  import opened SessionReplies

  function With(s: Sess, script: seq<Move>): Sess {
    s.(proc := s.proc.(script := script))
  }

  /** A payload that a reply line carries unchanged. */
  predicate Plain(x: string) {
    '\n' !in x && '\r' !in x
  }

  function PreText(x: string): string {
    "ATD PRE " + x + "\n"
  }

  lemma PreTextIsAReply(x: string, st: string)
    requires Plain(x)
    ensures Scan(PreLine, st, PreText(x)) == Halted(x, "") && ReplyText(PreText(x))
  {
    var line := "ATD PRE " + x;
    assert Chomp(line) == line by {
      assert line[|line| - 1] == if x == "" then ' ' else x[|x| - 1];
    }
    assert line[..8] == "ATD PRE " && line[8..] == x && line[7] == ' ';
    assert ReplyOf(false, line) == Some(x);
    ScanOneLine(PreLine, st, line);
    assert Text([line]) == line + "\n" + "";
    TextIsWhole([line]);
  }

  // ----- two replies for one write -----

  lemma FirstOfTwo(quiet: string, x: string, y: string)
    requires QuietText(quiet) && Plain(x)
    ensures Scan(PreLine, "", quiet + (PreText(x) + PreText(y))) == Halted(x, PreText(y))
  {
    var a, b := PreText(x), PreText(y);
    NoiseIsSkipped(false, "", LinesOf(quiet));
    ScanOfText(PreLine, "", LinesOf(quiet));
    ScanInPieces(PreLine, "", quiet, a + b);
    assert "" + (a + b) == a + b;
    PreTextIsAReply(x, "");
    ScanInPieces(PreLine, "", a, b);
    assert "" + b == b;
  }

  lemma QuietIsStarved(buf: string, more: string)
    requires QuietText(buf + more)
    ensures Scan(PreLine, "", buf).Starved?
  {
    NoiseIsSkipped(false, "", LinesOf(buf + more));
    ScanOfText(PreLine, "", LinesOf(buf + more));
    ScanInPieces(PreLine, "", buf, more);
  }

  /** An environment that takes a write, prints this for it, and delivers all of it. */
  function Printing(s: Sess, emits: string): seq<Move> {
    [Move(true, emits, 0, ""), Move(true, "", |s.proc.pipe| + |emits|, "")]
  }

  lemma SendOnLive(s: Sess, line: string)
    requires s.proc.running && s.proc.script != [] && s.proc.script[0].ok
    ensures var emits := s.proc.script[0].emits;
      WriteCmd(s, line) ==
        (Sess(Proc(true, s.proc.pipe + emits, s.proc.script[1..]), s.rbuf, s.active, s.trace + [Sent(line, emits)]), Ok(""))
  {
  }

  lemma FirstReplyIsReturned(s: Sess, line: string, x: string, y: string, more: seq<Move>)
    requires s.proc.running && Quiet(s) && Plain(x)
    ensures var ab := PreText(x) + PreText(y);
      RunCmd(With(s, Printing(s, ab) + more), line, false) ==
        (Sess(Proc(true, "", more), PreText(y), s.active, s.trace + [Sent(line, ab), Got(x)]), Ok(x))
  {
    var ab := PreText(x) + PreText(y);
    var script := Printing(s, ab) + more;
    assert script[1..] == [script[1]] + more && script[1..][1..] == more;
    SendOnLive(With(s, script), line);
    var t := WriteCmd(With(s, script), line).0;
    QuietIsStarved(s.rbuf, s.proc.pipe);
    Reassociate(s.rbuf, s.proc.pipe, ab);
    FirstOfTwo(s.rbuf + s.proc.pipe, x, y);
    OneReadFinds(PreLine, "", t.rbuf, t.proc, REPLY_TIMEOUT_MS);
    assert s.trace + [Sent(line, ab), Got(x)] == (s.trace + [Sent(line, ab)]) + [Got(x)];
  }

  /** A reply left in the buffer answers the next command, whatever it is and whatever is
      printed for it. */
  lemma LeftReplyIsReturned(s: Sess, line: string, y: string)
    requires s.proc.running && s.proc.script != [] && s.proc.script[0].ok && s.rbuf == PreText(y) && Plain(y)
    ensures var emits := s.proc.script[0].emits;
      RunCmd(s, line, false) ==
        (Sess(Proc(true, s.proc.pipe + emits, s.proc.script[1..]), "", s.active, s.trace + [Sent(line, emits), Got(y)]),
         Ok(y))
  {
    var emits := s.proc.script[0].emits;
    SendOnLive(s, line);
    var t := WriteCmd(s, line).0;
    PreTextIsAReply(y, "");
    FoundAtOnce(PreLine, "", t.rbuf, t.proc, 0, REPLY_TIMEOUT_MS);
    assert s.trace + [Sent(line, emits), Got(y)] == (s.trace + [Sent(line, emits)]) + [Got(y)];
  }

  // ----- the exact condition -----

  /** Typing this text now is safe: over every environment with polite workers and whatever
      is called afterwards with single commands, no reply is ever stale. */
  ghost predicate TypeIsSafe(s: Sess, ascii: string) {
    forall script, calls ::
      (AllSingle(calls) && AllPolite(Run(Type(With(s, script), ascii).0, calls).trace) ==>
         NoStale(Run(Type(With(s, script), ascii).0, calls).trace))
  }

  lemma TwoMore(trace: seq<Event>, e: Event, g: Event)
    requires AllPolite(trace) && Polite(e) && g.Got?
    ensures AllPolite(trace + [e, g])
  {
  }

  lemma StaleAtTheEnd(trace: seq<Event>, line: string, y: string)
    ensures !NoStale(trace + [Sent(line, ""), Got(y)])
  {
    var t := trace + [Sent(line, ""), Got(y)];
    assert !AnsweredAt(t, |trace| + 1) by {
      assert t[|trace|].emits == "" && LinesOf("") == [];
    }
  }

  /** A text of more than one command, and then a backspace: polite workers, and the
      backspace gets the reply to the second command. */
  lemma TwoCommandsStray(s: Sess, ascii: string, x: string, y: string) returns (script: seq<Move>)
    requires Inv(s) && AllPolite(s.trace) && s.active && s.proc.running && Plain(x) && Plain(y)
    requires !Single(Commands(TypeLine(ascii)))
    ensures var (t, r) := Type(With(s, script), ascii);
      var (u, q) := Backspace(t);
      r == Ok(x) && q == Ok(y) && AllPolite(u.trace) && !NoStale(u.trace)
  {
    var line, cs, a, b := TypeLine(ascii), Commands(TypeLine(ascii)), PreText(x), PreText(y);
    var last := [Move(true, "", 0, "")];
    script := Printing(s, a + b) + last;
    FirstReplyIsReturned(s, line, x, y, last);
    var t := Sess(Proc(true, "", last), b, true, s.trace + [Sent(line, a + b), Got(x)]);
    LeftReplyIsReturned(t, "sback" + "\n", y);
    PreTextIsAReply(x, "");
    PreTextIsAReply(y, "");
    NoiseAbsorbs();
    var i, j :| 0 <= i < j < |cs| && cs[i] != "" && cs[j] != "";
    PrintsTwo(cs, i, j, a, b, ReplyText, QuietText);
    PrintsNothing(Commands("sback" + "\n"), ReplyText, QuietText);
    TwoMore(s.trace, Sent(line, a + b), Got(x));
    TwoMore(t.trace, Sent("sback" + "\n", ""), Got(y));
    StaleAtTheEnd(t.trace, "sback" + "\n", y);
  }

  lemma SingleIsSafe(s: Sess, ascii: string)
    requires Inv(s) && Single(Commands(TypeLine(ascii)))
    ensures TypeIsSafe(s, ascii)
  {
    forall script, calls | AllSingle(calls) && AllPolite(Run(Type(With(s, script), ascii).0, calls).trace)
      ensures NoStale(Run(Type(With(s, script), ascii).0, calls).trace)
    {
      TypeKeepsInv(With(s, script), ascii);
      RunKeepsInv(Type(With(s, script), ascii).0, calls);
    }
  }

  lemma StraysOnce(s: Sess, ascii: string, script: seq<Move>, calls: seq<Call>)
    requires AllSingle(calls)
    requires var trace := Run(Type(With(s, script), ascii).0, calls).trace; AllPolite(trace) && !NoStale(trace)
    ensures !TypeIsSafe(s, ascii)
  {
  }

  lemma OneBackspace(t: Sess)
    ensures Run(t, [CBackspace]) == Backspace(t).0
  {
    assert Run(t, [CBackspace]) == Run(Apply(t, CBackspace).0, []);
  }

  /** The exact condition: in an active composition a text is safe if and only if its write
      holds at most one command. */
  lemma TypeIsSafeExactlyWhenSingle(s: Sess, ascii: string)
    requires Inv(s) && AllPolite(s.trace) && s.active && s.proc.running
    ensures TypeIsSafe(s, ascii) <==> Single(Commands(TypeLine(ascii)))
  {
    if Single(Commands(TypeLine(ascii))) {
      SingleIsSafe(s, ascii);
    } else {
      var script := TwoCommandsStray(s, ascii, "", "");
      OneBackspace(Type(With(s, script), ascii).0);
      StraysOnce(s, ascii, script, [CBackspace]);
    }
  }
}
