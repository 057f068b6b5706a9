/** What the commands in a write mean for the composition of a session worker.

    The handlers of the session commands are not part of this model; their words
    are those of the protocol. */
module SessionWorker {
  import opened Lines
  import opened SessionProtocol
  import opened WorkerInput

  // ----- what commands mean for a composition -----

  /** Commands that act on a composition in progress. */
  predicate NeedsComposition(c: string) {
    StartsWith(c, "stype") || c == "sback" || c == "sconv" || c == "spre" || c == "scommit"
  }

  predicate Ends(c: string) {
    c == "scommit" || c == "scancel"
  }

  predicate Resets(c: string) {
    c == "sreset"
  }

  /** The words of the protocol by what they do to a composition. */
  lemma Roles(keys: string)
    ensures NeedsComposition("stype " + keys) && NeedsComposition("sback") && NeedsComposition("sconv")
    ensures NeedsComposition("spre") && NeedsComposition("scommit")
    ensures !NeedsComposition("sreset") && !NeedsComposition("scancel")
    ensures Ends("scommit") && Ends("scancel") && Resets("sreset")
    ensures !Ends("sback") && !Ends("sconv") && !Ends("spre") && !Ends("sreset")
  {
    assert ("stype " + keys)[..5] == "stype";
    assert "sreset"[1] == 'r' && "scancel"[1] == 'c' && "stype"[1] == 't';
    assert "scancel"[2] == 'a' && "scommit"[2] == 'o' && "sconv"[3] == 'n' && "scommit"[3] == 'm';
  }

  /** A composition is open when an `sreset` was acknowledged and nothing since ended it;
      `asked` is an `sreset` still to be acknowledged.  The next reply that is accepted
      counts as the acknowledgement: replies do not name their command, so where an
      `sreset` stands behind other commands of one write it can be the reply to one of those. */
  datatype Stage = Stage(open: bool, asked: bool)

  const SHUT := Stage(false, false)
  const OPEN := Stage(true, false)

  function ReadOne(g: Stage, c: string): Stage {
    if Resets(c) then g.(asked := true) else if Ends(c) then SHUT else g
  }

  function Reads(g: Stage, cs: seq<string>): Stage
    decreases |cs|
  {
    if cs == [] then g else Reads(ReadOne(g, cs[0]), cs[1..])
  }

  /** Every command that needs a composition is read while one is open. */
  predicate Fine(g: Stage, cs: seq<string>)
    decreases |cs|
  {
    cs == [] || ((NeedsComposition(cs[0]) ==> g.open) && Fine(ReadOne(g, cs[0]), cs[1..]))
  }

  /** The stage of the current worker after a trace. */
  function StageOf(trace: seq<Event>): Stage {
    if trace == [] then SHUT else Step(StageOf(trace[..|trace| - 1]), trace[|trace| - 1])
  }

  function Step(g: Stage, e: Event): Stage {
    match e
    case Spawned(_) => SHUT
    case Killed => SHUT
    case Sent(line, _) => Reads(g, Commands(line))
    case Got(_) => Stage(g.open || g.asked, false)
  }

  /** No worker ever reads an edit, a query or a commit outside a composition. */
  predicate Disciplined(trace: seq<Event>) {
    forall i :: 0 <= i < |trace| && trace[i].Sent? ==> Fine(StageOf(trace[..i]), Commands(trace[i].line))
  }

  lemma StageOfExtended(trace: seq<Event>, e: Event)
    ensures StageOf(trace + [e]) == Step(StageOf(trace), e)
  {
    assert (trace + [e])[..|trace|] == trace;
  }

  lemma Extends(trace: seq<Event>, e: Event)
    requires Disciplined(trace)
    requires e.Sent? ==> Fine(StageOf(trace), Commands(e.line))
    ensures Disciplined(trace + [e])
  {
    var t := trace + [e];
    forall i | 0 <= i < |t| && t[i].Sent? ensures Fine(StageOf(t[..i]), Commands(t[i].line)) {
      assert t[..i] == trace[..i];
      assert trace[..|trace|] == trace;
    }
  }

  // ----- an open stage is what it says -----

  predicate NoEnds(cs: seq<string>) {
    forall k :: 0 <= k < |cs| ==> !Ends(cs[k])
  }

  /** A reset with no end behind it. */
  ghost predicate EndsReset(cs: seq<string>) {
    exists k :: 0 <= k < |cs| && Resets(cs[k]) && NoEnds(cs[k + 1..])
  }

  lemma NoEndsCons(c: string, cs: seq<string>)
    ensures NoEnds([c] + cs) <==> !Ends(c) && NoEnds(cs)
  {
    var all := [c] + cs;
    assert forall k :: 0 <= k < |cs| ==> all[k + 1] == cs[k];
    if NoEnds(all) {
      assert !Ends(all[0]);
    }
  }

  lemma EndsResetCons(c: string, cs: seq<string>)
    ensures EndsReset([c] + cs) <==> EndsReset(cs) || (Resets(c) && NoEnds(cs))
  {
    var all := [c] + cs;
    if k :| 0 <= k < |cs| && Resets(cs[k]) && NoEnds(cs[k + 1..]) {
      assert all[k + 1] == cs[k] && all[k + 2..] == cs[k + 1..];
    }
    assert all[1..] == cs && all[0] == c;
    if k :| 0 <= k < |all| && Resets(all[k]) && NoEnds(all[k + 1..]) {
      if k > 0 {
        assert all[k] == cs[k - 1] && all[k + 1..] == cs[k..];
      }
    }
  }

  /** What a write does to the stage, said by positions. */
  lemma {:induction false} ReadsExactly(g: Stage, cs: seq<string>)
    ensures Reads(g, cs).open <==> g.open && NoEnds(cs)
    ensures Reads(g, cs).asked <==> EndsReset(cs) || (g.asked && NoEnds(cs))
    decreases |cs|
  {
    if cs != [] {
      assert cs == [cs[0]] + cs[1..];
      ReadsExactly(ReadOne(g, cs[0]), cs[1..]);
      NoEndsCons(cs[0], cs[1..]);
      EndsResetCons(cs[0], cs[1..]);
    }
  }

  /** An event that leaves an open composition open. */
  predicate EndsNothing(e: Event) {
    !e.Spawned? && !e.Killed? && (e.Sent? ==> NoEnds(Commands(e.line)))
  }

  ghost predicate ResetAt(trace: seq<Event>, j: nat) {
    j < |trace| && trace[j].Sent? && EndsReset(Commands(trace[j].line))
  }

  predicate NothingEndedSince(trace: seq<Event>, j: nat) {
    forall i :: j < i < |trace| ==> EndsNothing(trace[i])
  }

  lemma SinceExtended(trace: seq<Event>, e: Event, j: nat)
    requires j < |trace| && NothingEndedSince(trace, j) && EndsNothing(e)
    ensures NothingEndedSince(trace + [e], j)
  {
    assert forall i :: 0 <= i < |trace| ==> (trace + [e])[i] == trace[i];
  }

  /** An open stage: an `sreset` was read, a reply was accepted after it, and since then
      there was no respawn, no kill and no command that ends a composition. */
  lemma {:induction false} OpenMeansAcknowledged(trace: seq<Event>) returns (j: nat, k: nat)
    requires StageOf(trace).open
    ensures j < k < |trace| && ResetAt(trace, j) && trace[k].Got? && NothingEndedSince(trace, j)
  {
    var n := |trace| - 1;
    var before, e := trace[..n], trace[n];
    assert trace == before + [e];
    if e.Sent? {
      ReadsExactly(StageOf(before), Commands(e.line));
    }
    if StageOf(before).open {
      j, k := OpenMeansAcknowledged(before);
    } else {
      j := AskedMeansReset(before);
      k := n;
    }
    SinceExtended(before, e, j);
  }

  lemma {:induction false} AskedMeansReset(trace: seq<Event>) returns (j: nat)
    requires StageOf(trace).asked
    ensures ResetAt(trace, j) && NothingEndedSince(trace, j)
  {
    var n := |trace| - 1;
    var before, e := trace[..n], trace[n];
    assert trace == before + [e];
    ReadsExactly(StageOf(before), Commands(e.line));
    if EndsReset(Commands(e.line)) {
      j := n;
    } else {
      j := AskedMeansReset(before);
      SinceExtended(before, e, j);
    }
  }

  /** Fine, said by positions: whatever needs a composition finds one that no earlier
      command of the write has ended. */
  lemma {:induction false} FineExactly(g: Stage, cs: seq<string>)
    ensures Fine(g, cs) <==>
      forall l :: 0 <= l < |cs| && NeedsComposition(cs[l]) ==> g.open && NoEnds(cs[..l])
    decreases |cs|
  {
    if cs != [] {
      var h, rest := ReadOne(g, cs[0]), cs[1..];
      FineExactly(h, rest);
      forall l | 0 < l < |cs| ensures cs[l] == rest[l - 1] && (NoEnds(cs[..l]) <==> !Ends(cs[0]) && NoEnds(rest[..l - 1])) {
        assert cs[..l] == [cs[0]] + rest[..l - 1];
        NoEndsCons(cs[0], rest[..l - 1]);
      }
      if Fine(g, cs) {
        forall l | 0 <= l < |cs| && NeedsComposition(cs[l]) ensures g.open && NoEnds(cs[..l]) {
          assert l > 0 ==> cs[l] == rest[l - 1];
        }
      } else if Fine(h, rest) {
        assert NeedsComposition(cs[0]) && !g.open;
      } else {
        var l :| 0 <= l < |rest| && NeedsComposition(rest[l]) && !(h.open && NoEnds(rest[..l]));
        assert cs[l + 1] == rest[l] && !(g.open && NoEnds(cs[..l + 1]));
      }
    }
  }

  // ----- typed texts -----

  /** A typed text that leaves a composition as it was: nothing it carries acts outside a
      composition, and it ends none without beginning one again. */
  predicate Harmless(ascii: string) {
    var cs := Commands(TypeLine(ascii));
    Fine(OPEN, cs) && (Reads(OPEN, cs).open || Reads(OPEN, cs).asked)
  }

  /** In terms of the commands that end a composition: either the text carries none, or
      an `sreset` follows the last of them and nothing needs a composition after the first. */
  lemma HarmlessExactly(ascii: string)
    ensures var cs := Commands(TypeLine(ascii));
      Harmless(ascii) <==>
        && (NoEnds(cs) || EndsReset(cs))
        && forall l :: 0 <= l < |cs| && NeedsComposition(cs[l]) ==> NoEnds(cs[..l])
  {
    var cs := Commands(TypeLine(ascii));
    ReadsExactly(OPEN, cs);
    FineExactly(OPEN, cs);
  }

  /** A text without separators is one command, an `stype`... */
  lemma PlainTextIsOneCommand(ascii: string) returns (c: string)
    requires Uncut(ascii, Separator)
    ensures Commands(TypeLine(ascii)) == [c, ""] && StartsWith(c, "stype")
  {
    var line := "stype " + ascii;
    assert Uncut(line, EndsLine) && Uncut(line, IsSemicolon) by {
      assert forall i :: 6 <= i < |line| ==> line[i] == ascii[i - 6];
      assert Uncut("stype ", Separator);
    }
    assert TypeLine(ascii) == line + "\n";
    OneLineOfCommands(line);
    var kept := Kept(line);
    var cut := if |line| > LINE_MAX then line[..LINE_MAX] else line;
    assert cut[..5] == "stype";
    HeadPiece(cut, IsNul, 5);
    OfPrefix(kept, line, IsSemicolon);
    PiecesOfUncut(kept, IsSemicolon, ';');
    assert kept[..5] == cut[..5];
    assert kept[0] == "stype"[0];
    LoweredStype(kept);
    c := Lowered(kept);
    assert LineCommands(line) == [c] + Tidied([]);
  }

  lemma LoweredStype(kept: string)
    requires StartsWith(kept, "stype")
    ensures Trimmed(kept) == kept && StartsWith(Lowered(kept), "stype")
  {
    LoweredAt(kept);
    assert forall i :: 0 <= i < 5 ==> kept[i] == kept[..5][i];
  }

  /** ...and so harmless. */
  lemma PlainTextIsHarmless(ascii: string)
    requires Uncut(ascii, Separator)
    ensures Harmless(ascii)
  {
    var c := PlainTextIsOneCommand(ascii);
    assert c[1] == c[..5][1] == 't' && "sreset"[1] == 'r' && "scommit"[1] == 'c' && "scancel"[1] == 'c';
    TwoCommands(c);
  }

  lemma TwoCommands(c: string)
    requires !Resets(c) && !Ends(c)
    ensures Fine(OPEN, [c, ""]) && Reads(OPEN, [c, ""]) == OPEN
  {
    assert [c, ""][1..] == [""] && [""][1..] == [];
    assert Fine(OPEN, [""]) && Reads(OPEN, [""]) == OPEN;
  }

  // ----- a text that carries a commit -----

  /** A line end inside a typed text begins another command. */
  lemma CarriedCommand(ascii: string, sep: char, w: string)
    requires Uncut(ascii, EndsLine) && EndsLine(sep) && IsWord(w)
    ensures Commands(TypeLine(ascii + [sep] + w)) == LineCommands("stype " + ascii) + [w, ""]
  {
    var line := "stype " + ascii;
    assert Uncut(line, EndsLine) by {
      assert forall i :: 6 <= i < |line| ==> line[i] == ascii[i - 6];
      assert Uncut("stype ", EndsLine);
    }
    PiecesOfTwo(line, w + "\n", EndsLine, sep);
    assert TypeLine(ascii + [sep] + w) == line + [sep] + (w + "\n");
    WordIsOneCommand(w);
    assert ([line] + Pieces(w + "\n", EndsLine))[1..] == Pieces(w + "\n", EndsLine);
  }

  lemma CarriedCommitIsHarmful(ascii: string, sep: char)
    requires Uncut(ascii, EndsLine) && EndsLine(sep)
    ensures !Harmless(ascii + [sep] + "scommit")
  {
    CarriedCommand(ascii, sep, "scommit");
    var cs, n := Commands(TypeLine(ascii + [sep] + "scommit")), |LineCommands("stype " + ascii)|;
    assert cs[n] == "scommit" && |cs| == n + 2 && cs[n + 1] == "";
    ReadsExactly(OPEN, cs);
    forall k | 0 <= k < |cs| && Resets(cs[k]) ensures !NoEnds(cs[k + 1..]) {
      assert k < n;
      assert cs[k + 1..][n - k - 1] == cs[n];
    }
  }

  lemma CommandsAroundSemicolon(ascii: string, w: string) returns (c: string)
    requires Uncut(ascii, Separator) && Uncut(ascii, IsNul) && IsWord(w) && |ascii| + 7 + |w| <= LINE_MAX
    ensures Commands(TypeLine(ascii + ";" + w)) == [c, w, ""] && StartsWith(c, "stype")
  {
    var head := "stype " + ascii;
    var line := head + [';'] + w;
    assert TypeLine(ascii + ";" + w) == line + "\n";
    assert Uncut(w, Separator) && Uncut(w, IsNul);
    LoweredWord(w);
    SemicolonLine(head, w);
    OneLineOfCommands(line);
    assert head[..5] == "stype";
    LoweredStype(head);
    assert w[0] != ' ' && Trimmed(w) == w;
    c := Lowered(head);
  }

  /** So does a semicolon, on a line that is kept whole. */
  lemma CommitBehindSemicolonIsHarmful(ascii: string)
    requires Uncut(ascii, Separator) && Uncut(ascii, IsNul) && |ascii| + 14 <= LINE_MAX
    ensures !Harmless(ascii + ";" + "scommit")
  {
    var c := CommandsAroundSemicolon(ascii, "scommit");
    assert c[1] == c[..5][1] == 't' && "sreset"[1] == 'r';
    var cs := Commands(TypeLine(ascii + ";" + "scommit"));
    ReadsExactly(OPEN, cs);
    assert cs[1] == "scommit" && !Resets(cs[0]) && !Resets(cs[1]) && !Resets(cs[2]);
  }
}
