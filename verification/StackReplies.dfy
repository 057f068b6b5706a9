/** Which texts from the socket keep the answers of the two workers apart.  A reading or a
    key text has no line end, so its write is one line; a semicolon still divides it. */
module StackReplies {
  import opened Proto
  import opened Wrappers
  import opened Wire
  import opened WorkerInput
  import opened Stack
  import B = Session
  import H = HarnessProtocol
  import S = SessionProtocol
  import HR = HarnessReplies
  import HS = HarnessStale
  import SR = SessionReplies

  predicate SingleReading(r: string) {
    Single(Commands(H.HenkanLine(r))) && Single(Commands(H.ConvertLine(r)))
  }

  /** A call that is one command in each of its writes. */
  predicate SingleCall(c: Call) {
    match c
    case Top1(r) => SingleReading(r)
    case List(r, _) => SingleReading(r)
    case SKey(text) => Single(Commands(S.TypeLine(text)))
    case _ => true
  }

  predicate SingleLine(line: string) {
    match PlanFor(Fields(line))
    case Ask(call) => SingleCall(call)
    case _ => true
  }

  /** The text that a call hands to a worker. */
  function TextOf(c: Call): string {
    match c
    case Top1(r) => r
    case List(r, _) => r
    case SKey(text) => text
    case _ => ""
  }

  // ----- what the daemon lets through -----

  /** What the daemon hands to a worker holds no line end; only a semicolon can make it more
      than one command. */
  lemma DaemonTextsAreOneLine(line: string)
    ensures match PlanFor(Fields(line))
      case Ask(call) => Uncut(TextOf(call), EndsLine) && (Uncut(TextOf(call), IsSemicolon) ==> SingleLine(line))
      case _ => SingleLine(line)
  {
    var f := Fields(line);
    match PlanFor(f)
    case Ask(call) =>
      var text := TextOf(call);
      assert text == "" || (text == f[1] && Clean(f[1]));
      if Uncut(text, IsSemicolon) {
        HR.PlainReadingIsSingle(text);
        SR.PlainTextIsSingle(text);
      }
    case _ =>
  }

  /** The semicolon gets through: this request asks for a list of two commands. */
  lemma ReadingOfTwoGetsThrough()
    ensures var r := "a" + ";" + ("convert " + "b");
      var line := Joined(["candidates", r]);
      PlanFor(Fields(line)) == Ask(List(r, 0)) && !SingleLine(line)
  {
    var r := "a" + ";" + ("convert " + "b");
    var fs := ["candidates", r];
    assert Clean(fs[0]) && Clean(fs[1]);
    FieldsOfJoined(fs);
    assert Name(Candidates) == fs[0];
    VerbOfName(Candidates);
    TwoConverts("a", "b");
  }

  lemma TwoConverts(a: string, b: string)
    requires HS.PlainPart(a) && HS.PlainPart(b) && |a| + |b| + 17 <= LINE_MAX
    ensures !Single(Commands(H.ConvertLine(a + ";" + ("convert " + b))))
  {
    var first, second := "convert " + a, "convert " + b;
    assert forall i :: 8 <= i < |first| ==> first[i] == a[i - 8];
    assert forall i :: 8 <= i < |second| ==> second[i] == b[i - 8];
    TwoCommandsAreNotSingle(first, second);
    assert H.ConvertLine(a + ";" + second) == first + [';'] + second + "\n";
  }

  // ----- serving -----

  /** Both engines are in order, and so is the reading left for the prefetch. */
  predicate Inv(b: Stack) {
    HR.Inv(b.harn) && SR.Inv(b.sess) && (b.pending != "" ==> SingleReading(b.pending))
  }

  lemma ConsultKeepsInv(h: H.Harn, r: string)
    requires HR.Inv(h) && SingleReading(r)
    ensures HR.Inv(B.Consult(h, r).0)
  {
    HR.ApplyKeepsInv(h, H.CTopOne(r));
    HR.ApplyKeepsInv(H.TopOne(h, r, EMPTY_RESULT).0, H.CConvert(r, 0));
  }

  lemma RestKeepsInv(b: Stack)
    requires Inv(b)
    ensures Inv(Rested(b))
  {
    if b.pending != "" {
      ConsultKeepsInv(b.harn, b.pending);
    }
  }

  lemma StepKeepsInv(b: Stack, c: Call)
    requires Inv(b) && SingleCall(c)
    ensures Inv(StackStep(b, c).0)
  {
    RestKeepsInv(b);
    match c
    case Top1(r) => HR.ApplyKeepsInv(Rested(b).harn, H.CTopOne(r));
    case List(r, _) => ConsultKeepsInv(Rested(b).harn, r);
    case _ => SR.ApplyKeepsInv(Rested(b).sess, SessionCall(c));
  }

  lemma LineKeepsInv(b: Stack, line: string)
    requires Inv(b) && SingleLine(line)
    ensures Inv(ServeLine(StackStep, b, line).b)
  {
    match PlanFor(Fields(line))
    case Ask(call) => StepKeepsInv(b, call);
    case _ =>
  }

  lemma {:induction false} ServingKeepsInv(b: Stack, lines: seq<string>, writes: seq<bool>)
    requires Inv(b) && forall i :: 0 <= i < |lines| ==> SingleLine(lines[i])
    ensures Inv(ServeLines(StackStep, b, lines, writes).b)
    decreases |lines|
  {
    if lines != [] {
      LineKeepsInv(b, lines[0]);
      var s := ServeLine(StackStep, b, lines[0]);
      ServingKeepsInv(s.b, lines[1..], writes);
      ServingKeepsInv(s.b, lines[1..], NextWrites(writes));
    }
  }

  /** Whatever lines any peer sends whose texts stay one command, whichever writes fail and
      whenever the prefetch has its turn: over polite workers, no block and no reply that
      the two engines accepted belongs to another write. */
  lemma ServingIsNeverStale(b: Stack, lines: seq<string>, writes: seq<bool>)
    requires Inv(b) && forall i :: 0 <= i < |lines| ==> SingleLine(lines[i])
    ensures var end := ServeLines(StackStep, b, lines, writes).b;
      && (HR.AllPolite(end.harn.trace) ==> HR.NoStale(end.harn.trace))
      && (SR.AllPolite(end.sess.trace) ==> SR.NoStale(end.sess.trace))
  {
    ServingKeepsInv(b, lines, writes);
  }
}
