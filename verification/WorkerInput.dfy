/** What a worker reads, and what it prints for it.  The engines write whole texts; the
    worker cuts its input into lines at every CR and LF, keeps the head of each line,
    and cuts the line into commands at every semicolon.  One write can therefore be
    several commands, and each of them can print an answer. */
module WorkerInput {
  import opened Lines

  // ----- from a write to commands -----

  /** A line buffer of 512 characters keeps 511 and the end mark. */
  const LINE_MAX := 511

  predicate EndsLine(c: char) {
    c == '\r' || c == '\n'
  }

  predicate IsSemicolon(c: char) {
    c == ';'
  }

  predicate IsNul(c: char) {
    c == '\0'
  }

  predicate Separator(c: char) {
    EndsLine(c) || IsSemicolon(c)
  }

  /** The text between cuts; one piece more than there are cuts. */
  function Pieces(s: string, cut: char -> bool): (ps: seq<string>)
    ensures ps != []
  {
    if s == "" then [""]
    else
      var ps := Pieces(s[1..], cut);
      if cut(s[0]) then [""] + ps else [[s[0]] + ps[0]] + ps[1..]
  }

  /** The part of a line that reaches the dispatcher as a C string. */
  function Kept(line: string): string {
    Pieces(if |line| > LINE_MAX then line[..LINE_MAX] else line, IsNul)[0]
  }

  function Trimmed(s: string): string {
    if s != "" && (s[0] == ' ' || s[0] == '\t') then Trimmed(s[1..]) else s
  }

  function Lower(c: char): char {
    if 'A' <= c <= 'Z' then (c as int - 'A' as int + 'a' as int) as char else c
  }

  function Lowered(s: string): string {
    if s == "" then "" else [Lower(s[0])] + Lowered(s[1..])
  }

  /** Commands as the dispatcher compares them: without leading blanks and without
      regard to case. */
  function Tidied(ps: seq<string>): seq<string> {
    if ps == [] then [] else [Lowered(Trimmed(ps[0]))] + Tidied(ps[1..])
  }

  function LineCommands(line: string): seq<string> {
    Tidied(Pieces(Kept(line), IsSemicolon))
  }

  function CommandsOf(ls: seq<string>): seq<string> {
    if ls == [] then [] else LineCommands(ls[0]) + CommandsOf(ls[1..])
  }

  /** The commands a worker reads in one write; empty ones do nothing. */
  function Commands(text: string): seq<string> {
    CommandsOf(Pieces(text, EndsLine))
  }

  // ----- what is printed for the commands of a write -----

  /** At most one command that is not empty; empty ones are passed over. */
  predicate Single(cs: seq<string>) {
    forall i, j :: 0 <= i < j < |cs| ==> cs[i] == "" || cs[j] == ""
  }

  /** The output of a write is that of its commands, one part each: `one` says what a
      command may print, `none` what is printed for an empty one. */
  predicate PrintedBy(cs: seq<string>, emits: string, one: string -> bool, none: string -> bool)
    decreases |cs|
  {
    if cs == [] then emits == ""
    else exists k :: 0 <= k <= |emits| && PrintedBy(cs[1..], emits[k..], one, none)
                     && if cs[0] == "" then none(emits[..k]) else one(emits[..k])
  }

  /** Text that answers nothing can stand around an answer. */
  ghost predicate Absorbs(one: string -> bool, none: string -> bool) {
    && none("")
    && (forall a :: none(a) ==> one(a))
    && (forall a, b :: none(a) && none(b) ==> none(a + b))
    && (forall a, b :: none(a) && one(b) ==> one(a + b) && one(b + a))
  }

  lemma {:induction false} SilentWrite(cs: seq<string>, emits: string, one: string -> bool, none: string -> bool)
    requires Absorbs(one, none) && PrintedBy(cs, emits, one, none)
    requires forall i :: 0 <= i < |cs| ==> cs[i] == ""
    ensures none(emits)
    decreases |cs|
  {
    if cs != [] {
      var k :| 0 <= k <= |emits| && none(emits[..k]) && PrintedBy(cs[1..], emits[k..], one, none);
      SilentWrite(cs[1..], emits[k..], one, none);
      assert emits[..k] + emits[k..] == emits;
    }
  }

  /** A write of one command is answered at most once... */
  lemma {:induction false} SingleWrite(cs: seq<string>, emits: string, one: string -> bool, none: string -> bool)
    requires Absorbs(one, none) && PrintedBy(cs, emits, one, none) && Single(cs)
    ensures one(emits)
    decreases |cs|
  {
    if cs != [] {
      var k :| 0 <= k <= |emits|
        && (if cs[0] == "" then none(emits[..k]) else one(emits[..k])) && PrintedBy(cs[1..], emits[k..], one, none);
      assert emits[..k] + emits[k..] == emits;
      if cs[0] == "" {
        SingleWrite(cs[1..], emits[k..], one, none);
      } else {
        SilentWrite(cs[1..], emits[k..], one, none);
      }
    }
  }

  lemma {:induction false} PrintsNothing(cs: seq<string>, one: string -> bool, none: string -> bool)
    requires one("") && none("")
    ensures PrintedBy(cs, "", one, none)
    decreases |cs|
  {
    if cs != [] {
      PrintsNothing(cs[1..], one, none);
      assert ""[..0] == "" && ""[0..] == "";
    }
  }

  lemma {:induction false} PrintsOne(cs: seq<string>, i: nat, a: string, one: string -> bool, none: string -> bool)
    requires i < |cs| && cs[i] != "" && one("") && none("") && one(a)
    ensures PrintedBy(cs, a, one, none)
    decreases |cs|
  {
    if i == 0 {
      PrintsNothing(cs[1..], one, none);
      assert a[..|a|] == a && a[|a|..] == "";
    } else {
      PrintsOne(cs[1..], i - 1, a, one, none);
      assert a[..0] == "" && a[0..] == a;
    }
  }

  /** ...and one of two commands can be answered twice. */
  lemma {:induction false} PrintsTwo(cs: seq<string>, i: nat, j: nat, a: string, b: string,
                                     one: string -> bool, none: string -> bool)
    requires i < j < |cs| && cs[i] != "" && cs[j] != "" && one("") && none("") && one(a) && one(b)
    ensures PrintedBy(cs, a + b, one, none)
    decreases |cs|
  {
    var ab := a + b;
    if i == 0 {
      PrintsOne(cs[1..], j - 1, b, one, none);
      assert ab[..|a|] == a && ab[|a|..] == b;
    } else {
      PrintsTwo(cs[1..], i - 1, j - 1, a, b, one, none);
      assert ab[..0] == "" && ab[0..] == ab;
    }
  }

  // ----- texts that are one command, and texts that are not -----

  predicate Uncut(s: string, cut: char -> bool) {
    forall i :: 0 <= i < |s| ==> !cut(s[i])
  }

  lemma {:induction false} PiecesOfUncut(s: string, cut: char -> bool, end: char)
    requires Uncut(s, cut)
    ensures Pieces(s, cut) == [s]
    ensures cut(end) ==> Pieces(s + [end], cut) == [s, ""]
  {
    if s == "" {
      assert (s + [end])[1..] == "";
    } else {
      PiecesOfUncut(s[1..], cut, end);
      assert (s + [end])[1..] == s[1..] + [end];
      assert [s[0]] + s[1..] == s;
      assert [s[1..]][1..] == [] && [s[1..], ""][1..] == [""];
    }
  }

  /** Without a line end inside, a write is one line. */
  lemma OneLineOfCommands(line: string)
    requires Uncut(line, EndsLine)
    ensures Commands(line + "\n") == LineCommands(line) + [""]
  {
    PiecesOfUncut(line, EndsLine, '\n');
    assert [line, ""][1..] == [""];
    assert CommandsOf([""]) == LineCommands("") + [];
    PiecesOfUncut("", IsNul, '\0');
    PiecesOfUncut("", IsSemicolon, ';');
    assert LineCommands("") == [""];
  }

  /** A plain word is read as it was written. */
  predicate IsWord(w: string) {
    0 < |w| <= LINE_MAX && forall i :: 0 <= i < |w| ==> 'a' <= w[i] <= 'z'
  }

  lemma {:induction false} LoweredWord(w: string)
    requires forall i :: 0 <= i < |w| ==> 'a' <= w[i] <= 'z'
    ensures Lowered(w) == w
  {
    if w != "" {
      LoweredWord(w[1..]);
    }
  }

  lemma WordIsOneCommand(w: string)
    requires IsWord(w)
    ensures Commands(w + "\n") == [w, ""]
  {
    OneLineOfCommands(w);
    PiecesOfUncut(w, IsNul, '\0');
    PiecesOfUncut(w, IsSemicolon, ';');
    LoweredWord(w);
    assert Tidied([w]) == [w] + Tidied([]);
  }

  lemma {:induction false} HeadPiece(s: string, cut: char -> bool, n: nat)
    requires n <= |s| && Uncut(s[..n], cut)
    ensures var h := Pieces(s, cut)[0]; n <= |h| <= |s| && h == s[..|h|]
  {
    if s != "" {
      if n > 0 {
        assert s[..n][0] == s[0];
      }
      var m := if n > 0 then n - 1 else 0;
      assert forall i :: 0 <= i < m ==> s[1..][..m][i] == s[..n][i + 1];
      HeadPiece(s[1..], cut, m);
      var h := Pieces(s[1..], cut)[0];
      assert !cut(s[0]) ==> [s[0]] + h == s[..|h| + 1];
    }
  }

  lemma {:induction false} LoweredAt(s: string)
    ensures |Lowered(s)| == |s| && forall i :: 0 <= i < |s| ==> Lowered(s)[i] == Lower(s[i])
  {
    if s != "" {
      LoweredAt(s[1..]);
    }
  }

  lemma {:induction false} OfPrefix(h: string, line: string, cut: char -> bool)
    requires Uncut(line, cut) && h <= line
    ensures Uncut(h, cut)
  {
    assert forall i :: 0 <= i < |h| ==> h[i] == line[i];
  }

  lemma {:induction false} PiecesOfTwo(a: string, b: string, cut: char -> bool, sep: char)
    requires Uncut(a, cut) && cut(sep)
    ensures Pieces(a + [sep] + b, cut) == [a] + Pieces(b, cut)
  {
    var s := a + [sep] + b;
    if a == "" {
      assert s[1..] == b;
    } else {
      PiecesOfTwo(a[1..], b, cut, sep);
      assert s[1..] == a[1..] + [sep] + b;
      assert [a[0]] + a[1..] == a && ([a[1..]] + Pieces(b, cut))[1..] == Pieces(b, cut);
    }
  }

  lemma UncutAround(a: string, sep: char, b: string, cut: char -> bool)
    requires Uncut(a, cut) && !cut(sep) && Uncut(b, cut)
    ensures Uncut(a + [sep] + b, cut)
  {
  }

  /** A semicolon divides a line that is kept whole. */
  lemma SemicolonLine(a: string, b: string)
    requires Uncut(a, Separator) && Uncut(a, IsNul) && Uncut(b, Separator) && Uncut(b, IsNul)
    requires |a| + 1 + |b| <= LINE_MAX
    ensures Uncut(a + [';'] + b, EndsLine)
    ensures LineCommands(a + [';'] + b) == [Lowered(Trimmed(a)), Lowered(Trimmed(b))]
  {
    var line := a + [';'] + b;
    UncutAround(a, ';', b, EndsLine);
    UncutAround(a, ';', b, IsNul);
    PiecesOfUncut(line, IsNul, '\0');
    PiecesOfTwo(a, b, IsSemicolon, ';');
    PiecesOfUncut(b, IsSemicolon, ';');
    assert Kept(line) == line;
    TidiedPair(a, b);
  }

  lemma TidiedPair(a: string, b: string)
    ensures Tidied([a] + [b]) == [Lowered(Trimmed(a)), Lowered(Trimmed(b))]
  {
    TidiedCons(a, [b]);
    TidiedCons(b, []);
    AppendNothing([Lowered(Trimmed(b))]);
  }

  lemma TidiedCons(p: string, ps: seq<string>)
    ensures Tidied([p] + ps) == [Lowered(Trimmed(p))] + Tidied(ps)
  {
    assert ([p] + ps)[1..] == ps;
  }

  lemma KeptIsOneCommand(line: string)
    requires Uncut(line, IsSemicolon)
    ensures LineCommands(line) == [Lowered(Trimmed(Kept(line)))]
  {
    var cut := if |line| > LINE_MAX then line[..LINE_MAX] else line;
    HeadPiece(cut, IsNul, 0);
    OfPrefix(Kept(line), line, IsSemicolon);
    PiecesOfUncut(Kept(line), IsSemicolon, ';');
    TidiedCons(Kept(line), []);
    AppendNothing([Lowered(Trimmed(Kept(line)))]);
    assert [Kept(line)] + [] == [Kept(line)] && Tidied([]) == [];
  }

  lemma OneIsSingle(c: string)
    ensures Single([c] + [""])
  {
  }

  /** A line without separators is one command. */
  lemma PlainLineIsSingle(line: string)
    requires Uncut(line, Separator)
    ensures Single(Commands(line + "\n"))
  {
    assert Uncut(line, EndsLine) && Uncut(line, IsSemicolon);
    OneLineOfCommands(line);
    KeptIsOneCommand(line);
    OneIsSingle(Lowered(Trimmed(Kept(line))));
  }

  /** Two commands with a semicolon between them, on a line that is kept whole. */
  lemma TwoCommandsAreNotSingle(a: string, b: string)
    requires Uncut(a, Separator) && Uncut(a, IsNul) && Uncut(b, Separator) && Uncut(b, IsNul)
    requires |a| + 1 + |b| <= 511 && Trimmed(a) != "" && Trimmed(b) != ""
    ensures Commands(a + [';'] + b + "\n") == [Lowered(Trimmed(a)), Lowered(Trimmed(b)), ""]
    ensures !Single(Commands(a + [';'] + b + "\n"))
  {
    SemicolonLine(a, b);
    OneLineOfCommands(a + [';'] + b);
    LoweredAt(Trimmed(a));
    LoweredAt(Trimmed(b));
    var cs := Commands(a + [';'] + b + "\n");
    assert cs[0] != "" && cs[1] != "";
  }

  // ----- long lines, case and blanks -----

  /** What stands behind the first 511 characters of a line is dropped, commands included. */
  lemma LongLineIsCut(a: string, b: string)
    requires Uncut(a, Separator) && Uncut(b, EndsLine) && |a| >= 511
    ensures Commands(a + b + "\n") == Commands(a[..511] + "\n") && Single(Commands(a + b + "\n"))
  {
    var line, head := a + b, a[..511];
    assert forall i :: |a| <= i < |line| ==> line[i] == b[i - |a|];
    OneLineOfCommands(line);
    OneLineOfCommands(head);
    assert line[..511] == head;
    if |line| == 511 {
      assert line == head;
    }
    assert Kept(line) == Kept(head);
    PlainLineIsSingle(head);
  }

  /** A command is the same in capitals and behind blanks. */
  lemma CaseAndBlanksDoNotMatter(w: string, v: string, blanks: string)
    requires IsWord(w) && |v| == |w| && forall i :: 0 <= i < |w| ==> v[i] == w[i] || v[i] as int + 32 == w[i] as int
    requires (forall i :: 0 <= i < |blanks| ==> blanks[i] == ' ' || blanks[i] == '\t') && |blanks| + |v| <= 511
    ensures Commands(blanks + v + "\n") == [w, ""]
  {
    var line := blanks + v;
    assert forall i :: |blanks| <= i < |line| ==> line[i] == v[i - |blanks|];
    OneLineOfCommands(line);
    PiecesOfUncut(line, IsNul, '\0');
    PiecesOfUncut(line, IsSemicolon, ';');
    TrimmedOfBlanks(blanks, v);
    LoweredAt(v);
    assert Lowered(v) == w;
    TidiedCons(line, []);
    assert Tidied([line]) == [w] + Tidied([]);
  }

  lemma {:induction false} TrimmedOfBlanks(blanks: string, v: string)
    requires (forall i :: 0 <= i < |blanks| ==> blanks[i] == ' ' || blanks[i] == '\t')
    requires v != "" && v[0] != ' ' && v[0] != '\t'
    ensures Trimmed(blanks + v) == v
  {
    if blanks == "" {
      assert blanks + v == v;
    } else {
      assert (blanks + v)[1..] == blanks[1..] + v;
      TrimmedOfBlanks(blanks[1..], v);
    }
  }

  /** A line ends for the dispatcher at its first NUL. */
  lemma NulEndsTheLine(a: string, b: string)
    requires Uncut(a, EndsLine) && Uncut(b, EndsLine) && Uncut(a, IsNul) && |a| < 511
    ensures Commands(a + ['\0'] + b + "\n") == Commands(a + "\n")
  {
    var line := a + ['\0'] + b;
    UncutAround(a, '\0', b, EndsLine);
    OneLineOfCommands(line);
    OneLineOfCommands(a);
    var cut := if |line| > LINE_MAX then line[..LINE_MAX] else line;
    var rest := cut[|a| + 1..];
    assert cut == a + ['\0'] + rest;
    PiecesOfTwo(a, rest, IsNul, '\0');
    PiecesOfUncut(a, IsNul, '\0');
    assert Kept(line) == a == Kept(a);
  }
}
