/** What the batch commands mean.  A worker is described by the items it prints for each
    question; over such a worker a call returns exactly these items: the last commit, the
    flat candidates and the enriched entries, in order, cut only where the caller asks. */
module BatchMeaning {
  import opened Lines
  import opened Process
  import opened Proto
  import opened Wrappers
  import opened HarnessProtocol
  import opened WorkerInput
  import opened HarnessReplies

  // ----- what a worker says -----

  /** The top conversion of a reading, or its full list. */
  datatype Question = Henkan(r: string) | FullList(r: string)

  /** The command words on the pipe. */
  function QuestionOf(line: string): Option<Question> {
    if |line| > 7 && line[..7] == "henkan " then Some(Henkan(line[7..|line| - 1]))
    else if |line| > 8 && line[..8] == "convert " then Some(FullList(line[8..|line| - 1]))
    else None
  }

  /** A commit, a flat candidate, or an enriched entry given by its fields: the surface, then
      the reading and the part of speech, which can be missing. */
  datatype Item = ItsCommit(x: string) | Flat(x: string) | Rich(fields: seq<string>)

  predicate Sayable(i: Item) {
    match i
    case ItsCommit(x) => '\n' !in x && '\r' !in x
    case Flat(x) => '\n' !in x && '\r' !in x
    case Rich(fields) => fields != [] && AllClean(fields)
  }

  predicate AllSayable(items: seq<Item>) {
    forall k :: 0 <= k < |items| ==> Sayable(items[k])
  }

  function ItemLine(i: Item): string {
    match i
    case ItsCommit(x) => "ATD COMMIT " + x
    case Flat(x) => "ATD CAND " + x
    case Rich(fields) => "ATD CANDX " + Joined(fields)
  }

  /** The lines of a block, each with the same end: nothing or a carriage return. */
  function ItemLines(items: seq<Item>, end: string): seq<string> {
    if items == [] then [] else [ItemLine(items[0]) + end] + ItemLines(items[1..], end)
  }

  function Block(items: seq<Item>, end: string): seq<string> {
    ["ATD BEGIN" + end] + ItemLines(items, end) + ["ATD END" + end]
  }

  // ----- what the items mean -----

  function LastCommit(items: seq<Item>): string {
    if items == [] then ""
    else if items[|items| - 1].ItsCommit? then items[|items| - 1].x
    else LastCommit(items[..|items| - 1])
  }

  function Flats(items: seq<Item>): seq<string> {
    if items == [] then []
    else Flats(items[..|items| - 1]) + if items[|items| - 1].Flat? then [items[|items| - 1].x] else []
  }

  function FieldAt(fields: seq<string>, k: nat): string {
    if k < |fields| then fields[k] else ""
  }

  /** Surface, reading, part of speech; an entry without a surface is none. */
  function Entries(items: seq<Item>): seq<Candidate> {
    if items == [] then []
    else
      var i := items[|items| - 1];
      Entries(items[..|items| - 1])
      + if i.Rich? && FieldAt(i.fields, 0) != ""
        then [Candidate(FieldAt(i.fields, 0), FieldAt(i.fields, 1), FieldAt(i.fields, 2))] else []
  }

  function Said(items: seq<Item>): ConvertResult {
    ConvertResult(LastCommit(items), Flats(items), Entries(items))
  }

  // ----- one line -----

  predicate LineEnd(end: string) {
    end == "" || end == "\r"
  }

  lemma ChompEither(text: string, end: string)
    requires text != "" && text[|text| - 1] != '\r' && LineEnd(end)
    ensures Chomp(text + end) == text
  {
    if end == "" {
      assert text + end == text;
    }
  }

  /** A commit line sets the commit. */
  lemma CommitIsRead(out: ConvertResult, x: string, end: string)
    requires '\r' !in x && LineEnd(end)
    ensures BlockLine(out, "ATD COMMIT " + x + end) == More(out.(commit := x))
  {
    var l := "ATD COMMIT " + x;
    ChompEither(l, end);
    TagOf(l + end, "COMMIT " + x);
    var rest := "COMMIT " + x;
    assert "ATD " + rest == l && rest[..7] == "COMMIT " && rest[7..] == x && rest[0] == 'C';
  }

  /** A flat candidate joins the flat list at its end. */
  lemma FlatIsRead(out: ConvertResult, x: string, end: string)
    requires '\r' !in x && LineEnd(end)
    ensures BlockLine(out, "ATD CAND " + x + end) == More(out.(candidates := out.candidates + [x]))
  {
    var l := "ATD CAND " + x;
    ChompEither(l, end);
    TagOf(l + end, "CAND " + x);
    var rest := "CAND " + x;
    assert "ATD " + rest == l && rest[..5] == "CAND " && rest[5..] == x && rest[4] == ' ' && rest[1] == 'A';
    assert "BEGIN"[0] == 'B' && "END"[0] == 'E' && "COMMIT "[1] == 'O';
  }

  lemma RichTextIsRead(out: ConvertResult, text: string, end: string)
    requires '\r' !in text && LineEnd(end)
    ensures BlockLine(out, "ATD CANDX " + text + end) ==
      More(if Enriched(text).surface == "" then out
           else out.(candidatesEx := out.candidatesEx + [Enriched(text)]))
  {
    var l, rest := "ATD CANDX " + text, "CANDX " + text;
    assert "ATD " + rest == l;
    ChompEither(l, end);
    TagOf(l + end, rest);
    assert rest[..6] == "CANDX " && rest[6..] == text && rest[4] == 'X' && rest[1] == 'A' && rest[0] == 'C';
    assert "BEGIN"[0] == 'B' && "END"[0] == 'E' && "COMMIT "[1] == 'O' && "CAND "[4] == ' ';
  }

  /** The fields of an enriched line are surface, reading and part of speech, in this order;
      missing ones are empty, and without a surface the line adds nothing. */
  lemma RichIsRead(out: ConvertResult, fields: seq<string>, end: string)
    requires fields != [] && AllClean(fields) && LineEnd(end)
    ensures BlockLine(out, "ATD CANDX " + Joined(fields) + end) ==
      More(if fields[0] == "" then out
           else out.(candidatesEx := out.candidatesEx
                       + [Candidate(fields[0], FieldAt(fields, 1), FieldAt(fields, 2))]))
  {
    JoinedHasNoReturn(fields);
    FieldsOfJoined(fields);
    assert Enriched(Joined(fields)) == Candidate(fields[0], FieldAt(fields, 1), FieldAt(fields, 2));
    RichTextIsRead(out, Joined(fields), end);
  }

  lemma {:induction false} JoinedHasNoReturn(fields: seq<string>)
    requires AllClean(fields)
    ensures '\r' !in Joined(fields)
  {
    if |fields| > 1 {
      JoinedHasNoReturn(fields[..|fields| - 1]);
      assert Clean(fields[|fields| - 1]);
    } else if |fields| == 1 {
      assert Clean(fields[0]);
    }
  }

  /** The usual enriched line. */
  lemma TripleIsRead(out: ConvertResult, surface: string, reading: string, hinsi: string)
    requires Clean(surface) && Clean(reading) && Clean(hinsi) && surface != ""
    ensures BlockLine(out, "ATD CANDX " + Joined([surface, reading, hinsi])) ==
      More(out.(candidatesEx := out.candidatesEx + [Candidate(surface, reading, hinsi)]))
  {
    RichIsRead(out, [surface, reading, hinsi], "");
    AppendNothing("ATD CANDX " + Joined([surface, reading, hinsi]));
  }

  // ----- a block -----

  lemma OneMoreItem(items: seq<Item>, i: Item, end: string)
    requires Sayable(i) && LineEnd(end)
    ensures BlockLine(Said(items), ItemLine(i) + end) == More(Said(items + [i]))
  {
    var all := items + [i];
    assert all[..|items|] == items && all[|items|] == i && |all| - 1 == |items|;
    AppendNothing(Flats(items));
    AppendNothing(Entries(items));
    match i
    case ItsCommit(x) => CommitIsRead(Said(items), x, end);
    case Flat(x) => FlatIsRead(Said(items), x, end);
    case Rich(fields) => RichIsRead(Said(items), fields, end);
  }

  lemma LinesOfFirst(items: seq<Item>, end: string, tail: seq<string>)
    requires items != []
    ensures ItemLines(items, end) + tail == [ItemLine(items[0]) + end] + (ItemLines(items[1..], end) + tail)
  {
    Reassociate([ItemLine(items[0]) + end], ItemLines(items[1..], end), tail);
  }

  lemma AppendedInTurn(before: seq<Item>, items: seq<Item>)
    requires items != []
    ensures (before + [items[0]]) + items[1..] == before + items
  {
  }

  lemma {:induction false} ItemsAreRead(before: seq<Item>, items: seq<Item>, end: string, tail: seq<string>)
    requires AllSayable(items) && LineEnd(end)
    ensures Fold(BlockLine, Said(before), ItemLines(items, end) + tail) == Fold(BlockLine, Said(before + items), tail)
    decreases |items|
  {
    if items == [] {
      AppendNothing(tail);
      AppendNothing(before);
    } else {
      var next, more := before + [items[0]], ItemLines(items[1..], end) + tail;
      LinesOfFirst(items, end, tail);
      OneMoreItem(before, items[0], end);
      FoldCons(BlockLine, Said(before), ItemLine(items[0]) + end, more, Said(next));
      ItemsAreRead(next, items[1..], end, tail);
      AppendedInTurn(before, items);
    }
  }

  /** A block is read as what its items say, whatever the result held before. */
  lemma BlockIsSaid(out: ConvertResult, items: seq<Item>, end: string)
    requires AllSayable(items) && LineEnd(end)
    ensures Fold(BlockLine, out, Block(items, end)) == Ended(Said(items), [])
  {
    var body, last := ItemLines(items, end), ["ATD END" + end];
    ChompEither("ATD BEGIN", end);
    ChompEither("ATD END", end);
    BeginForgets(out, "ATD BEGIN" + end);
    FoldCons(BlockLine, out, "ATD BEGIN" + end, body + last, EMPTY_RESULT);
    Reassociate(["ATD BEGIN" + end], body, last);
    assert Said([]) == EMPTY_RESULT;
    ItemsAreRead([], items, end, last);
    AppendNothing(items);
    OnlyEndStops(Said(items), "ATD END" + end);
    assert last[1..] == [];
  }

  /** The same through `readBlock`: behind any unended lines, among any ignored ones, and for
      every division into reads with empty polls below the limit. */
  lemma BlockThroughThePipe(s: Harn, out: ConvertResult, err: string, before: seq<string>,
                            items: seq<Item>, end: string, ls: seq<string>, k: nat)
    requires AllSayable(items) && LineEnd(end)
    requires NewlineFree(before) && Unended(before)
    requires NewlineFree(ls) && Heard(ls) == Block(items, end)
    requires s.rbuf + s.proc.pipe == Text(before) + Text(ls)
    requires Works(s.proc, k) && AfterReads(s.proc, k).pipe == ""
    requires EmptyPolls(s.proc, k) * POLL_MS < CONVERT_TIMEOUT_MS
    ensures ReadBlock(s, out, err).1 == Answer(true, Said(items), err)
  {
    var mid := UnendedStaysOpen(out, before);
    FoldOfConcat(BlockLine, out, before, ls);
    NoiseIsTransparent(mid, ls);
    BlockIsSaid(mid, items, end);
    TextOfConcat(before, ls);
    ScanOfText(BlockLine, out, before + ls);
    DrainedStreamIsAnswered(BlockLine, out, s.rbuf, s.proc, 0, CONVERT_TIMEOUT_MS, k);
  }

  // ----- faithful workers -----

  type Answering = Question -> seq<Item>

  ghost predicate PrintsItems(emits: string, items: seq<Item>) {
    AllSayable(items) && exists end :: LineEnd(end) && Heard(LinesOf(emits)) == Block(items, end)
  }

  ghost predicate FaithfulAt(say: Answering, trace: seq<Event>, i: nat)
    requires i < |trace|
  {
    trace[i].Sent? && QuestionOf(trace[i].line).Some? ==>
      PrintsItems(trace[i].emits, say(QuestionOf(trace[i].line).value))
  }

  /** Every worker prints, for every question, what it has to say to it. */
  ghost predicate Faithful(say: Answering, trace: seq<Event>) {
    forall i :: 0 <= i < |trace| ==> FaithfulAt(say, trace, i)
  }

  lemma AnswerIsSaid(emits: string, items: seq<Item>, res: ConvertResult)
    requires PrintsItems(emits, items) && Answers(emits, res)
    ensures res == Said(items)
  {
    var end :| LineEnd(end) && Heard(LinesOf(emits)) == Block(items, end);
    NoiseIsTransparent(EMPTY_RESULT, LinesOf(emits));
    BlockIsSaid(EMPTY_RESULT, items, end);
  }

  /** A question that is answered is answered by what the worker has to say to it. */
  lemma CommandIsAnswered(say: Answering, s: Harn, line: string, q: Question)
    requires Inv(s) && Single(Commands(line)) && QuestionOf(line) == Some(q)
    requires var (t, a) := RunCmd(s, line, EMPTY_RESULT); a.ok && AllPolite(t.trace) && Faithful(say, t.trace)
    ensures RunCmd(s, line, EMPTY_RESULT).1.res == Said(say(q))
  {
    CommandAnswers(s, line, EMPTY_RESULT);
    var (t, a) := RunCmd(s, line, EMPTY_RESULT);
    AnsweredIsSaid(say, t.trace, line, q, a.res);
  }

  lemma AnsweredIsSaid(say: Answering, trace: seq<Event>, line: string, q: Question, res: ConvertResult)
    requires EndsAnswered(trace, line, res) && Faithful(say, trace) && QuestionOf(line) == Some(q)
    ensures res == Said(say(q))
  {
    var n := |trace| - 2;
    assert FaithfulAt(say, trace, n);
    AnswerIsSaid(trace[n].emits, say(q), res);
  }

  lemma WordsAreQuestions(r: string)
    ensures QuestionOf(HenkanLine(r)) == Some(Henkan(r)) && QuestionOf(ConvertLine(r)) == Some(FullList(r))
  {
    var h, c := HenkanLine(r), ConvertLine(r);
    assert h[..7] == "henkan " && h[7..|h| - 1] == r;
    assert c[..8] == "convert " && c[8..|c| - 1] == r && c[0] == 'c' && "henkan "[0] == 'h';
  }

  /** The first `max` elements for a positive maximum, all of them otherwise. */
  predicate IsCut<T(==)>(xs: seq<T>, ys: seq<T>, max: int) {
    && xs <= ys
    && |xs| == if max > 0 && max < |ys| then max else |ys|
  }

  /** `topOne` returns what the worker says to the henkan question. */
  lemma TopOneIsSaid(say: Answering, s: Harn, r: string)
    requires Inv(s) && Single(Commands(HenkanLine(r)))
    requires var (t, a) := TopOne(s, r, EMPTY_RESULT); a.ok && AllPolite(t.trace) && Faithful(say, t.trace)
    ensures TopOne(s, r, EMPTY_RESULT).1.res == Said(say(Henkan(r)))
  {
    WordsAreQuestions(r);
    CommandIsAnswered(say, s, HenkanLine(r), Henkan(r));
  }

  lemma CappedIsCut(res: ConvertResult, max: int)
    ensures var c := Capped(res, max);
      && c.commit == res.commit
      && IsCut(c.candidates, res.candidates, max)
      && IsCut(c.candidatesEx, res.candidatesEx, max)
  {
  }

  /** `convert` returns what the worker says to the list question, both lists cut to the first
      `max` and the commit kept. */
  lemma ConvertIsSaid(say: Answering, s: Harn, r: string, max: int)
    requires Inv(s) && Single(Commands(ConvertLine(r)))
    requires var (t, a) := Convert(s, r, max, EMPTY_RESULT); a.ok && AllPolite(t.trace) && Faithful(say, t.trace)
    ensures var res := Convert(s, r, max, EMPTY_RESULT).1.res;
      var items := say(FullList(r));
      && res.commit == LastCommit(items)
      && IsCut(res.candidates, Flats(items), max)
      && IsCut(res.candidatesEx, Entries(items), max)
  {
    WordsAreQuestions(r);
    CommandIsAnswered(say, s, ConvertLine(r), FullList(r));
    CappedIsCut(RunCmd(s, ConvertLine(r), EMPTY_RESULT).1.res, max);
  }

  // ----- the native printer -----

  function FlatItems(caps: seq<string>): seq<Item> {
    if caps == [] then [] else [Flat(caps[0])] + FlatItems(caps[1..])
  }

  /** What the printer says for a list of captured strings: the first as the commit, and each as
      a flat candidate. */
  function Captured(caps: seq<string>): seq<Item> {
    (if caps == [] then [] else [ItsCommit(caps[0])]) + FlatItems(caps)
  }

  lemma {:induction false} FlatItemLines(caps: seq<string>)
    ensures ItemLines(FlatItems(caps), "\r") == CandLines(caps)
  {
    if caps != [] {
      FlatItemLines(caps[1..]);
      assert ([Flat(caps[0])] + FlatItems(caps[1..]))[1..] == FlatItems(caps[1..]);
    }
  }

  /** The lines that the native loop prints are the block of these items, with carriage returns. */
  lemma PrinterSaysItsStrings(caps: seq<string>)
    ensures BlockLines(caps) == Block(Captured(caps), "\r")
  {
    FlatItemLines(caps);
    if caps == [] {
      AppendNothing(FlatItems(caps));
    } else {
      assert Captured(caps)[0] == ItsCommit(caps[0]) && Captured(caps)[1..] == FlatItems(caps);
    }
  }
}
