/** Result blocks: the native printer and the daemon's parser undo each other, and with
    polite workers and readings that stay one command no block is ever mistaken for
    another command's. */
module HarnessReplies {
  import opened Lines
  import opened Process
  import opened Proto
  import opened HarnessProtocol
  import opened WorkerInput

  // ----- what the parser reacts to -----

  predicate BeginLine(line: string) {
    Chomp(line) == "ATD BEGIN"
  }

  predicate EndLine(line: string) {
    Chomp(line) == "ATD END"
  }

  lemma TagOf(line: string, tag: string)
    requires Chomp(line) == "ATD " + tag
    ensures StartsWith(Chomp(line), "ATD ") && Chomp(line)[4..] == tag
  {
  }

  lemma BeginForgets(out: ConvertResult, line: string)
    requires BeginLine(line)
    ensures BlockLine(out, line) == More(EMPTY_RESULT)
  {
    TagOf(line, "BEGIN");
  }

  /** The parser stops at the first END line and nowhere else. */
  lemma OnlyEndStops(out: ConvertResult, line: string)
    ensures BlockLine(out, line).Stop? <==> EndLine(line)
    ensures EndLine(line) ==> BlockLine(out, line) == Stop(out)
  {
    var l := Chomp(line);
    if EndLine(line) {
      TagOf(line, "END");
    }
    if StartsWith(l, "ATD ") {
      assert l == "ATD " + l[4..];
    }
  }

  // ----- the printer, and the round trip -----

  /** Lines the parser passes over: anything without a known tag. */
  predicate Ignored(line: string) {
    var l := Chomp(line);
    StartsWith(l, "ATD ") ==>
      var rest := l[4..];
      && rest != "BEGIN" && rest != "END"
      && !StartsWith(rest, "COMMIT ") && !StartsWith(rest, "CAND ") && !StartsWith(rest, "CANDX ")
  }

  /** The lines that are left when the ignored ones are deleted. */
  function Heard(ls: seq<string>): seq<string> {
    if ls == [] then [] else (if Ignored(ls[0]) then [] else [ls[0]]) + Heard(ls[1..])
  }

  function CandLine(cap: string): string {
    "ATD CAND " + cap + "\r"
  }

  function CandLines(caps: seq<string>): seq<string> {
    if caps == [] then [] else [CandLine(caps[0])] + CandLines(caps[1..])
  }

  /** The block for a list of captured strings, CRLF-terminated on the wire. */
  function BlockLines(caps: seq<string>): seq<string> {
    ["ATD BEGIN" + "\r"]
    + (if caps == [] then [] else ["ATD COMMIT " + caps[0] + "\r"])
    + CandLines(caps)
    + ["ATD END" + "\r"]
  }

  lemma {:induction false} CandLinesOfConcat(a: seq<string>, b: seq<string>)
    ensures CandLines(a + b) == CandLines(a) + CandLines(b)
  {
    if a == [] {
      assert a + b == b;
    } else {
      assert (a + b)[1..] == a[1..] + b;
      CandLinesOfConcat(a[1..], b);
    }
  }

  lemma PrintOneMore(out: string, ls: seq<string>, line: string)
    requires out == Text(ls)
    ensures out + (line + "\n") == Text(ls + [line])
  {
    TextOfConcat(ls, [line]);
    assert Text([line]) == line + "\n" + Text([]);
  }

  /** `at_daemon_emit_result`: prints the captured strings as a block. */
  method EmitResult(caps: seq<string>) returns (out: string)
    ensures out == Text(BlockLines(caps))
  {
    ghost var ls := [];
    out := "";
    PrintOneMore(out, ls, "ATD BEGIN" + "\r");
    ls := ls + ["ATD BEGIN" + "\r"];
    out := out + ("ATD BEGIN" + "\r" + "\n");
    if |caps| > 0 {
      PrintOneMore(out, ls, "ATD COMMIT " + caps[0] + "\r");
      ls := ls + ["ATD COMMIT " + caps[0] + "\r"];
      out := out + ("ATD COMMIT " + caps[0] + "\r" + "\n");
    }
    ghost var head := ls;
    assert ls == ["ATD BEGIN" + "\r"] + (if caps == [] then [] else ["ATD COMMIT " + caps[0] + "\r"]);
    assert head + CandLines([]) == head;
    for k := 0 to |caps|
      invariant out == Text(ls) && ls == head + CandLines(caps[..k])
    {
      var line := "ATD CAND " + caps[k] + "\r";
      assert caps[..k + 1] == caps[..k] + [caps[k]];
      CandLinesOfConcat(caps[..k], [caps[k]]);
      assert CandLines([caps[k]]) == [line];
      PrintOneMore(out, ls, line);
      ls := ls + [line];
      out := out + (line + "\n");
    }
    assert caps[..|caps|] == caps;
    PrintOneMore(out, ls, "ATD END" + "\r");
    out := out + ("ATD END" + "\r" + "\n");
  }

  /** Ignored lines may stand anywhere: they change neither the result nor where
      the parser stops. */
  lemma {:induction false} NoiseIsTransparent(out: ConvertResult, ls: seq<string>)
    ensures var a, b := Fold(BlockLine, out, ls), Fold(BlockLine, out, Heard(ls));
      a.st == b.st && a.Ended? == b.Ended? && (a.Ended? ==> Heard(a.left) == b.left)
    decreases |ls|
  {
    if ls != [] {
      if Ignored(ls[0]) {
        assert BlockLine(out, ls[0]) == More(out);
        assert Heard(ls) == Heard(ls[1..]);
        NoiseIsTransparent(out, ls[1..]);
      } else {
        var hs := Heard(ls);
        assert hs[0] == ls[0] && hs[1..] == Heard(ls[1..]);
        match BlockLine(out, ls[0])
        case More(next) => NoiseIsTransparent(next, ls[1..]);
        case Stop(_) =>
      }
    }
  }

  lemma ChompCr(text: string)
    ensures Chomp(text + "\r") == text
  {
  }

  lemma CandLineAdds(out: ConvertResult, cap: string)
    ensures BlockLine(out, CandLine(cap)) == More(out.(candidates := out.candidates + [cap]))
  {
    var line := "ATD CAND " + cap + "\r";
    ChompCr("ATD CAND " + cap);
    assert "ATD CAND " + cap == "ATD " + ("CAND " + cap);
    TagOf(line, "CAND " + cap);
    var rest := "CAND " + cap;
    assert rest[..5] == "CAND " && rest[5..] == cap && rest[4] == ' ';
    assert "BEGIN"[0] == 'B' && "END"[0] == 'E' && "COMMIT "[1] == 'O' && rest[1] == 'A';
  }

  lemma CommitLineSets(out: ConvertResult, cap: string)
    ensures BlockLine(out, "ATD COMMIT " + cap + "\r") == More(out.(commit := cap))
  {
    var line := "ATD COMMIT " + cap + "\r";
    ChompCr("ATD COMMIT " + cap);
    assert "ATD COMMIT " + cap == "ATD " + ("COMMIT " + cap);
    TagOf(line, "COMMIT " + cap);
    var rest := "COMMIT " + cap;
    assert rest[..7] == "COMMIT " && rest[7..] == cap && rest[0] == 'C';
  }

  function WithCands(out: ConvertResult, caps: seq<string>): ConvertResult {
    out.(candidates := out.candidates + caps)
  }

  ghost predicate AddsCands(f: Handler<ConvertResult>) {
    forall out, cap :: f(out, CandLine(cap)) == More(WithCands(out, [cap]))
  }

  lemma {:induction false} CandLinesAdd(f: Handler<ConvertResult>, out: ConvertResult, caps: seq<string>, tail: seq<string>)
    requires AddsCands(f)
    ensures Fold(f, out, CandLines(caps) + tail) == Fold(f, WithCands(out, caps), tail)
    decreases |caps|
  {
    if caps == [] {
      AppendNothing(tail);
      AppendNothing(out.candidates);
    } else {
      var more, next := CandLines(caps[1..]) + tail, WithCands(out, [caps[0]]);
      FoldCons(f, out, CandLine(caps[0]), more, next);
      Reassociate([CandLine(caps[0])], CandLines(caps[1..]), tail);
      CandLinesAdd(f, next, caps[1..], tail);
      Reassociate(out.candidates, [caps[0]], caps[1..]);
      assert [caps[0]] + caps[1..] == caps;
    }
  }

  lemma CandLinesAreRead(out: ConvertResult, caps: seq<string>, tail: seq<string>)
    ensures Fold(BlockLine, out, CandLines(caps) + tail) == Fold(BlockLine, WithCands(out, caps), tail)
  {
    forall st, cap ensures BlockLine(st, CandLine(cap)) == More(WithCands(st, [cap])) {
      CandLineAdds(st, cap);
    }
    CandLinesAdd(BlockLine, out, caps, tail);
  }

  /** What a block stands for. */
  function Meaning(caps: seq<string>): ConvertResult {
    ConvertResult(if caps == [] then "" else caps[0], caps, [])
  }

  lemma BlockIsRead(out: ConvertResult, caps: seq<string>)
    ensures Fold(BlockLine, out, BlockLines(caps)) == Ended(Meaning(caps), [])
  {
    var ls := BlockLines(caps);
    ChompCr("ATD BEGIN");
    BeginForgets(out, ls[0]);
    var end := ["ATD END" + "\r"];
    EndIsRead(Meaning(caps));
    var start := EMPTY_RESULT;
    if caps == [] {
      assert ls[1..] == CandLines(caps) + end;
      CandLinesAreRead(start, caps, end);
    } else {
      var line := "ATD COMMIT " + caps[0] + "\r";
      assert ls[1..][0] == line && ls[1..][1..] == CandLines(caps) + end;
      CommitLineSets(start, caps[0]);
      CandLinesAreRead(start.(commit := caps[0]), caps, end);
      assert start.candidates + caps == caps;
    }
  }

  lemma EndIsRead(st: ConvertResult)
    ensures Fold(BlockLine, st, ["ATD END" + "\r"]) == Ended(st, [])
  {
    ChompCr("ATD END");
    OnlyEndStops(st, "ATD END" + "\r");
  }

  /** The round trip.  Whatever the result held before, and whatever unended lines
      came before, a printed block interleaved with any ignored lines is read back
      as the captured list with its head as the commit; what is left unread holds
      nothing the parser would react to. */
  lemma PrintedBlockIsReadBack(out: ConvertResult, before: seq<string>, caps: seq<string>, ls: seq<string>)
    requires NewlineFree(before) && forall i :: 0 <= i < |before| ==> !EndLine(before[i])
    requires NewlineFree(ls) && Heard(ls) == BlockLines(caps)
    ensures exists left ::
      Heard(left) == [] && Scan(BlockLine, out, Text(before) + Text(ls)) == Halted(Meaning(caps), Text(left))
  {
    var mid := UnendedStaysOpen(out, before);
    FoldOfConcat(BlockLine, out, before, ls);
    NoiseIsTransparent(mid, ls);
    BlockIsRead(mid, caps);
    TextOfConcat(before, ls);
    ScanOfText(BlockLine, out, before + ls);
    var left := Fold(BlockLine, mid, ls).left;
    assert Heard(left) == [];
  }

  /** The same through the pipe: whatever part of the stream is already in the buffer and
      however the rest is divided into reads, with empty polls below the limit. */
  lemma PrintedBlockThroughThePipe(s: Harn, out: ConvertResult, err: string,
                                   before: seq<string>, caps: seq<string>, ls: seq<string>, k: nat)
    requires NewlineFree(before) && forall i :: 0 <= i < |before| ==> !EndLine(before[i])
    requires NewlineFree(ls) && Heard(ls) == BlockLines(caps)
    requires s.rbuf + s.proc.pipe == Text(before) + Text(ls)
    requires Works(s.proc, k) && AfterReads(s.proc, k).pipe == ""
    requires EmptyPolls(s.proc, k) * POLL_MS < CONVERT_TIMEOUT_MS
    ensures ReadBlock(s, out, err).1 == Answer(true, Meaning(caps), err)
  {
    PrintedBlockIsReadBack(out, before, caps, ls);
    DrainedStreamIsAnswered(BlockLine, out, s.rbuf, s.proc, 0, CONVERT_TIMEOUT_MS, k);
  }

  /** Without an END line the parser is still reading. */
  lemma {:induction false} UnendedStaysOpen(out: ConvertResult, ls: seq<string>) returns (st: ConvertResult)
    requires forall i :: 0 <= i < |ls| ==> !EndLine(ls[i])
    ensures Fold(BlockLine, out, ls) == Open(st)
    decreases |ls|
  {
    st := out;
    if ls != [] {
      OnlyEndStops(out, ls[0]);
      st := UnendedStaysOpen(BlockLine(out, ls[0]).st, ls[1..]);
    }
  }

  // ----- no stale blocks -----

  /** At most one END line, and a BEGIN line somewhere before it. */
  predicate OneBlock(ls: seq<string>) {
    && (forall i, j :: 0 <= i < j < |ls| ==> !EndLine(ls[i]) || !EndLine(ls[j]))
    && (forall i :: 0 <= i < |ls| && EndLine(ls[i]) ==> exists b :: 0 <= b < i && BeginLine(ls[b]))
  }

  predicate Unended(ls: seq<string>) {
    forall i :: 0 <= i < |ls| ==> !EndLine(ls[i])
  }

  predicate QuietText(unread: string) {
    WholeLines(unread) && Unended(LinesOf(unread))
  }

  predicate BlockText(emits: string) {
    WholeLines(emits) && OneBlock(LinesOf(emits))
  }

  /** Polite: at most one block for each command that is read, and none before. */
  predicate Polite(e: Event) {
    match e
    case Launched(_, banner) => QuietText(banner)
    case Sent(line, emits) => PrintedBy(Commands(line), emits, BlockText, QuietText)
    case _ => true
  }

  predicate AllPolite(trace: seq<Event>) {
    forall i :: 0 <= i < |trace| ==> Polite(trace[i])
  }

  /** The block in the output for a write, read on its own. */
  predicate Answers(emits: string, res: ConvertResult) {
    var r := Fold(BlockLine, EMPTY_RESULT, LinesOf(emits));
    r.Ended? && r.st == res
  }

  /** An accepted block is the one printed for the write right before it. */
  predicate AnsweredAt(trace: seq<Event>, i: nat)
    requires i < |trace|
  {
    trace[i].Got? ==> 0 < i && trace[i - 1].Sent? && Answers(trace[i - 1].emits, trace[i].res)
  }

  predicate NoStale(trace: seq<Event>) {
    forall i :: 0 <= i < |trace| ==> AnsweredAt(trace, i)
  }

  /** The trace ends with this line, sent, and this result, accepted. */
  predicate EndsWith(trace: seq<Event>, line: string, res: ConvertResult) {
    var n := |trace|;
    n >= 2 && trace[n - 1] == Got(res) && trace[n - 2].Sent? && trace[n - 2].line == line
  }

  /** And the result was printed for that line. */
  predicate EndsAnswered(trace: seq<Event>, line: string, res: ConvertResult) {
    EndsWith(trace, line, res) && Answers(trace[|trace| - 2].emits, res)
  }

  lemma LastIsAnswered(trace: seq<Event>, line: string, res: ConvertResult)
    requires NoStale(trace) && EndsWith(trace, line, res)
    ensures EndsAnswered(trace, line, res)
  {
    assert AnsweredAt(trace, |trace| - 1);
  }

  lemma StillAnswered(trace: seq<Event>, e: Event)
    requires NoStale(trace)
    requires e.Got? ==> trace != [] && trace[|trace| - 1].Sent? && Answers(trace[|trace| - 1].emits, e.res)
    ensures NoStale(trace + [e])
  {
    var t := trace + [e];
    forall i | 0 <= i < |trace| ensures AnsweredAt(t, i) {
      assert AnsweredAt(trace, i);
    }
    assert AnsweredAt(t, |trace|);
  }

  predicate Quiet(s: Harn) {
    QuietText(s.rbuf + s.proc.pipe)
  }

  predicate Inv(s: Harn) {
    AllPolite(s.trace) ==> NoStale(s.trace) && (s.proc.running ==> Quiet(s))
  }

  lemma OneBlockAround(q: seq<string>, e: seq<string>)
    requires Unended(q) && OneBlock(e)
    ensures OneBlock(q + e) && OneBlock(e + q)
  {
    var qe, eq := q + e, e + q;
    assert forall i :: 0 <= i < |e| ==> qe[|q| + i] == e[i] && eq[i] == e[i];
    forall i | 0 <= i < |qe| && EndLine(qe[i]) ensures exists b :: 0 <= b < i && BeginLine(qe[b]) {
      var b :| 0 <= b < i - |q| && BeginLine(e[b]);
      assert BeginLine(qe[|q| + b]);
    }
    forall i | 0 <= i < |eq| && EndLine(eq[i]) ensures exists b :: 0 <= b < i && BeginLine(eq[b]) {
      var b :| 0 <= b < i && BeginLine(e[b]);
      assert BeginLine(eq[b]);
    }
  }

  lemma QuietAbsorbs()
    ensures Absorbs(BlockText, QuietText)
  {
    assert LinesOf("") == [] && Text([]) == "";
    forall a, b | QuietText(a) && QuietText(b) ensures QuietText(a + b) {
      WholeOfConcat(a, b);
    }
    forall a, b | QuietText(a) && BlockText(b) ensures BlockText(a + b) && BlockText(b + a) {
      WholeOfConcat(a, b);
      WholeOfConcat(b, a);
      OneBlockAround(LinesOf(a), LinesOf(b));
    }
  }

  lemma SingleIsOneBlock(line: string, emits: string)
    requires Single(Commands(line)) && Polite(Sent(line, emits))
    ensures BlockText(emits)
  {
    QuietAbsorbs();
    SingleWrite(Commands(line), emits, BlockText, QuietText);
  }

  /** Dropping a first line that is neither BEGIN nor END keeps the shape. */
  lemma TailIsOneBlock(ls: seq<string>)
    requires OneBlock(ls) && ls != [] && !BeginLine(ls[0])
    ensures OneBlock(ls[1..]) && !EndLine(ls[0])
  {
    var rest := ls[1..];
    forall i | 0 <= i < |rest| && EndLine(rest[i]) ensures exists k :: 0 <= k < i && BeginLine(rest[k]) {
      assert EndLine(ls[i + 1]);
      var k :| 0 <= k < i + 1 && BeginLine(ls[k]);
      assert BeginLine(rest[k - 1]);
    }
  }

  /** A block that begins before it ends does not depend on what came before. */
  lemma {:induction false} BlockForgets(a: ConvertResult, b: ConvertResult, ls: seq<string>)
    requires OneBlock(ls) && Fold(BlockLine, a, ls).Ended?
    ensures Fold(BlockLine, b, ls) == Fold(BlockLine, a, ls)
    decreases |ls|
  {
    if BeginLine(ls[0]) {
      BeginForgets(a, ls[0]);
      BeginForgets(b, ls[0]);
    } else {
      TailIsOneBlock(ls);
      OnlyEndStops(a, ls[0]);
      OnlyEndStops(b, ls[0]);
      BlockForgets(BlockLine(a, ls[0]).st, BlockLine(b, ls[0]).st, ls[1..]);
    }
  }

  lemma {:induction false} AfterTheEnd(out: ConvertResult, ls: seq<string>)
    requires forall i, j :: 0 <= i < j < |ls| ==> !EndLine(ls[i]) || !EndLine(ls[j])
    requires Fold(BlockLine, out, ls).Ended?
    ensures Unended(Fold(BlockLine, out, ls).left) && (NewlineFree(ls) ==> NewlineFree(Fold(BlockLine, out, ls).left))
    decreases |ls|
  {
    OnlyEndStops(out, ls[0]);
    if !EndLine(ls[0]) {
      AfterTheEnd(BlockLine(out, ls[0]).st, ls[1..]);
    }
  }

  /** Reading the block of a command whose output joined a quiet stream. */
  lemma BlockIsTheAnswer(out: ConvertResult, quiet: string, emits: string, res: ConvertResult, rest: string)
    requires QuietText(quiet)
    requires BlockText(emits)
    requires Scan(BlockLine, out, quiet + emits) == Halted(res, rest)
    ensures Answers(emits, res) && QuietText(rest)
  {
    var q, e := LinesOf(quiet), LinesOf(emits);
    TextOfConcat(q, e);
    ScanOfText(BlockLine, out, q + e);
    FoldOfConcat(BlockLine, out, q, e);
    var mid := UnendedStaysOpen(out, q);
    BlockForgets(mid, EMPTY_RESULT, e);
    AfterTheEnd(mid, e);
    TextIsWhole(Fold(BlockLine, mid, e).left);
  }

  lemma {:induction false} ReadyLeavesQuiet(ls: seq<string>)
    requires Unended(ls) && Fold(ReadyLine, (), ls).Ended?
    ensures Unended(Fold(ReadyLine, (), ls).left)
    ensures NewlineFree(ls) ==> NewlineFree(Fold(ReadyLine, (), ls).left)
  {
    if ReadyLine((), ls[0]).More? {
      ReadyLeavesQuiet(ls[1..]);
    }
  }

  lemma PoliteBefore(trace: seq<Event>, e: Event)
    requires AllPolite(trace + [e])
    ensures AllPolite(trace) && Polite(e)
  {
    var t := trace + [e];
    assert forall i :: 0 <= i < |trace| ==> trace[i] == t[i];
    assert t[|trace|] == e;
  }

  lemma AddEvent(trace: seq<Event>, e: Event)
    requires AllPolite(trace) ==> NoStale(trace)
    requires !e.Got?
    ensures AllPolite(trace + [e]) ==> AllPolite(trace) && NoStale(trace + [e]) && Polite(e)
  {
    if AllPolite(trace + [e]) {
      PoliteBefore(trace, e);
      StillAnswered(trace, e);
    }
  }

  lemma WarmKeepsInv(s: Harn, err: string)
    requires AllPolite(s.trace) ==> NoStale(s.trace)
    ensures Inv(EnsureWarm(s, err).0)
  {
    var p := AfterSpawn(s.proc);
    var e := Launched(p.running, p.pipe);
    var trace := s.trace + [e];
    AddEvent(s.trace, e);
    if p.running {
      match ReadUntil(ReadyLine, (), "", p, 0, READY_TIMEOUT_MS)
      case Hit(_, rest, q) =>
        if AllPolite(trace) {
          HitIsOnePass(ReadyLine, (), "", p, 0, READY_TIMEOUT_MS);
          assert "" + p.pipe == p.pipe;
          var ls := LinesOf(p.pipe);
          ScanOfText(ReadyLine, (), ls);
          ReadyLeavesQuiet(ls);
          TextIsWhole(Fold(ReadyLine, (), ls).left);
        }
      case Miss(_, rest, q, _, _) => AddEvent(trace, Killed);
    }
  }

  /** The state right after a command was delivered: the trace ends with it, and
      its output stands behind unread output that is quiet. */
  predicate JustSent(s: Harn, before: seq<Event>, e: Event, quiet: string) {
    && e.Sent? && s.trace == before + [e]
    && s.rbuf + s.proc.pipe == quiet + e.emits
    && (AllPolite(before) ==> NoStale(before) && QuietText(quiet))
  }

  lemma Deliver(s: Harn, line: string)
    requires Inv(s) && WriteWorks(s.proc)
    ensures var e := Sent(line, NextMove(s.proc).emits);
      JustSent(s.(proc := AfterWrite(s.proc), trace := s.trace + [e]), s.trace, e, s.rbuf + s.proc.pipe)
  {
    Reassociate(s.rbuf, s.proc.pipe, NextMove(s.proc).emits);
  }

  lemma {:induction false} WriteReaches(s: Harn, line: string, attempts: nat, err: string)
      returns (before: seq<Event>, e: Event, quiet: string)
    requires Inv(s)
    ensures var (t, ok, _) := WriteCmd(s, line, attempts, err);
      if ok then JustSent(t, before, e, quiet) && e.line == line else Inv(t)
    decreases attempts
  {
    before, e, quiet := [], Killed, "";
    if attempts > 0 {
      var (t, warm, err') := if s.proc.running then (s, true, err) else EnsureWarm(s, err);
      if !s.proc.running {
        WarmKeepsInv(s, err);
      }
      if warm {
        var m := NextMove(t.proc);
        if WriteWorks(t.proc) {
          Deliver(t, line);
          before, e, quiet := t.trace, Sent(line, m.emits), t.rbuf + t.proc.pipe;
        } else {
          var u := t.(proc := AfterWrite(t.proc), trace := t.trace + [Sent(line, m.emits)]);
          AddEvent(t.trace, Sent(line, m.emits));
          AddEvent(u.trace, Killed);
          before, e, quiet := WriteReaches(Kill(u), line, attempts - 1, m.err);
        }
      }
    }
  }

  /** Reading the block after a delivered command. */
  lemma ReadKeepsInv(s: Harn, out: ConvertResult, err: string, before: seq<Event>, e: Event, quiet: string)
    requires JustSent(s, before, e, quiet) && Single(Commands(e.line))
    ensures var (t, a) := ReadBlock(s, out, err);
      if a.ok then Inv(t) else AllPolite(t.trace) ==> NoStale(t.trace)
  {
    AddEvent(before, e);
    match ReadUntil(BlockLine, out, s.rbuf, s.proc, 0, CONVERT_TIMEOUT_MS)
    case Hit(res, rest, q) =>
      if AllPolite(s.trace) {
        HitIsOnePass(BlockLine, out, s.rbuf, s.proc, 0, CONVERT_TIMEOUT_MS);
        SingleIsOneBlock(e.line, e.emits);
        BlockIsTheAnswer(out, quiet, e.emits, res, rest + q.pipe);
      }
      AddBlock(s.trace, res);
    case Miss(_, _, _, _, _) =>
  }

  lemma AddBlock(trace: seq<Event>, res: ConvertResult)
    requires trace != [] && trace[|trace| - 1].Sent?
    requires AllPolite(trace) ==> NoStale(trace) && Answers(trace[|trace| - 1].emits, res)
    ensures AllPolite(trace + [Got(res)]) ==> AllPolite(trace) && NoStale(trace + [Got(res)])
  {
    if AllPolite(trace + [Got(res)]) {
      PoliteBefore(trace, Got(res));
      StillAnswered(trace, Got(res));
    }
  }

  lemma RunCmdKeepsInv(s: Harn, line: string, out: ConvertResult)
    requires Inv(s) && Single(Commands(line))
    ensures Inv(RunCmd(s, line, out).0)
  {
    var before, e, quiet := WriteReaches(s, line, 2, "");
    var (t, sent, err) := WriteCmd(s, line, 2, "");
    if sent {
      ReadKeepsInv(t, out, err, before, e, quiet);
      var (u, a) := ReadBlock(t, out, err);
      if !a.ok {
        AddEvent(u.trace, Killed);
      }
    }
  }

  /** A reading that stays one command. */
  predicate SingleCall(c: Call) {
    match c
    case CTopOne(romaji) => Single(Commands(HenkanLine(romaji)))
    case CConvert(romaji, _) => Single(Commands(ConvertLine(romaji)))
    case _ => true
  }

  predicate AllSingle(calls: seq<Call>) {
    forall i :: 0 <= i < |calls| ==> SingleCall(calls[i])
  }

  lemma ApplyKeepsInv(s: Harn, c: Call)
    requires Inv(s) && SingleCall(c)
    ensures Inv(Apply(s, c))
  {
    match c
    case CTopOne(romaji) => RunCmdKeepsInv(s, HenkanLine(romaji), EMPTY_RESULT);
    case CConvert(romaji, max) => RunCmdKeepsInv(s, ConvertLine(romaji), EMPTY_RESULT);
    case CStop => AddEvent(s.trace, Killed);
    case CStart => WarmKeepsInv(s.(proc := s.proc.(script := RestOf(s.proc))), "");
  }

  lemma {:induction false} RunKeepsInv(s: Harn, calls: seq<Call>)
    requires Inv(s) && AllSingle(calls)
    ensures Inv(Run(s, calls))
    decreases |calls|
  {
    if calls != [] {
      assert SingleCall(calls[0]);
      ApplyKeepsInv(s, calls[0]);
      RunKeepsInv(Apply(s, calls[0]), calls[1..]);
    }
  }

  /** Whole runs over polite workers, with readings that stay one command: every block the
      engine accepted is the one printed for the command just sent, read on its own. */
  lemma BlocksAreNeverStale(script: seq<Move>, calls: seq<Call>)
    requires AllSingle(calls) && AllPolite(Run(Fresh(script), calls).trace)
    ensures NoStale(Run(Fresh(script), calls).trace)
  {
    RunKeepsInv(Fresh(script), calls);
  }

  lemma PlainReadingIsSingle(r: string)
    requires Uncut(r, Separator)
    ensures Single(Commands(HenkanLine(r))) && Single(Commands(ConvertLine(r)))
  {
    PlainBehindHead("henkan ", r);
    PlainBehindHead("convert ", r);
  }

  lemma PlainBehindHead(head: string, r: string)
    requires Uncut(head, Separator) && Uncut(r, Separator)
    ensures Single(Commands(head + r + "\n"))
  {
    var line := head + r;
    assert forall i :: |head| <= i < |line| ==> line[i] == r[i - |head|];
    PlainLineIsSingle(line);
  }

  predicate PlainCall(c: Call) {
    (c.CTopOne? || c.CConvert?) ==> Uncut(c.romaji, Separator)
  }

  /** What a caller can check before the call: no CR, no LF, no semicolon. */
  lemma PlainBlocksAreNeverStale(script: seq<Move>, calls: seq<Call>)
    requires forall i :: 0 <= i < |calls| ==> PlainCall(calls[i])
    requires AllPolite(Run(Fresh(script), calls).trace)
    ensures NoStale(Run(Fresh(script), calls).trace)
  {
    forall i | 0 <= i < |calls| ensures SingleCall(calls[i]) {
      assert PlainCall(calls[i]);
      if calls[i].CTopOne? || calls[i].CConvert? {
        PlainReadingIsSingle(calls[i].romaji);
      }
    }
    BlocksAreNeverStale(script, calls);
  }

  /** The trace a command was delivered on: what came before it, and the command. */
  lemma {:induction false} DeliveredLast(s: Harn, line: string, attempts: nat, err: string)
    ensures var (t, ok, _) := WriteCmd(s, line, attempts, err);
      ok ==> t.trace != [] && t.trace[|t.trace| - 1].Sent? && t.trace[|t.trace| - 1].line == line
    decreases attempts
  {
    if attempts > 0 {
      var (t, outcome, e) := Attempt(s, line, err);
      if outcome.Lost? {
        DeliveredLast(t, line, attempts - 1, e);
      }
    }
  }

  /** A successful command ends the trace with its own line, sent, and the very result it
      returns, accepted. */
  lemma CommandEndsWithItsBlock(s: Harn, line: string, out: ConvertResult)
    ensures var (t, a) := RunCmd(s, line, out); a.ok ==> EndsWith(t.trace, line, a.res)
  {
    DeliveredLast(s, line, 2, "");
  }

  lemma CommandAnswers(s: Harn, line: string, out: ConvertResult)
    requires Inv(s) && Single(Commands(line))
    requires AllPolite(RunCmd(s, line, out).0.trace) && RunCmd(s, line, out).1.ok
    ensures EndsAnswered(RunCmd(s, line, out).0.trace, line, RunCmd(s, line, out).1.res)
  {
    RunCmdKeepsInv(s, line, out);
    CommandEndsWithItsBlock(s, line, out);
    var (t, a) := RunCmd(s, line, out);
    LastIsAnswered(t.trace, line, a.res);
  }

  /** Whole runs, and then one more command: over polite workers, the result returned is
      the block printed for the line of this command, read on its own. */
  lemma AnswersAreNeverStale(script: seq<Move>, calls: seq<Call>, line: string, out: ConvertResult)
    requires AllSingle(calls) && Single(Commands(line))
    requires var (t, a) := RunCmd(Run(Fresh(script), calls), line, out); a.ok && AllPolite(t.trace)
    ensures var (t, a) := RunCmd(Run(Fresh(script), calls), line, out); EndsAnswered(t.trace, line, a.res)
  {
    RunKeepsInv(Fresh(script), calls);
    CommandAnswers(Run(Fresh(script), calls), line, out);
  }
}
