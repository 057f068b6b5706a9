/** Line-buffered parsing of a byte stream that arrives in arbitrary pieces.
    `ensureWarm`, `readReply`, `readBlock`, `recv_line` and `read_line` share this
    shape: take whole lines off the front of a buffer, feed each one to a
    line handler, and ask for more bytes when no newline is left. */
module Lines {

  /** What a line handler says after one line: keep reading, or done. */
  datatype Verdict<S> = More(st: S) | Stop(st: S)

  /** The outcome of consuming a buffer: finished, with the unread rest, or out of
      complete lines, with the partial line that remains. */
  datatype Scanned<S> = Halted(st: S, rest: string) | Starved(st: S, rest: string)

  type Handler<!S> = (S, string) -> Verdict<S>

  /** The position of the first newline, or -1. */
  function NewlineAt(s: string): (i: int)
    ensures -1 <= i < |s|
    ensures i < 0 ==> '\n' !in s
    ensures 0 <= i ==> s[i] == '\n' && '\n' !in s[..i]
  {
    if s == "" then -1
    else if s[0] == '\n' then 0
    else
      var i := NewlineAt(s[1..]);
      if i < 0 then -1 else
        assert s[..i + 1] == [s[0]] + s[1..][..i];
        i + 1
  }

  lemma NewlineIsUnique(s: string, i: nat)
    requires i < |s| && s[i] == '\n' && '\n' !in s[..i]
    ensures NewlineAt(s) == i
  {
  }

  /** A line without one trailing carriage return. */
  function Chomp(line: string): string {
    if line != "" && line[|line| - 1] == '\r' then line[..|line| - 1] else line
  }

  predicate StartsWith(s: string, prefix: string) {
    |prefix| <= |s| && s[..|prefix|] == prefix
  }

  /** One pass of a handler over all complete lines of a buffer. */
  function Scan<S>(f: Handler<S>, st: S, buf: string): Scanned<S>
    decreases |buf|
  {
    var nl := NewlineAt(buf);
    if nl < 0 then Starved(st, buf)
    else match f(st, buf[..nl])
      case More(st') => Scan(f, st', buf[nl + 1..])
      case Stop(st') => Halted(st', buf[nl + 1..])
  }

  /** Continues an interrupted scan with more bytes. */
  function Resume<S>(f: Handler<S>, r: Scanned<S>, more: string): Scanned<S> {
    match r
    case Halted(st, rest) => Halted(st, rest + more)
    case Starved(st, rest) => Scan(f, st, rest + more)
  }

  /** Scanning a stream in two pieces is scanning it whole. */
  lemma {:induction false} ScanInPieces<S>(f: Handler<S>, st: S, a: string, b: string)
    ensures Scan(f, st, a + b) == Resume(f, Scan(f, st, a), b)
    decreases |a|
  {
    var nl := NewlineAt(a);
    if nl >= 0 {
      assert (a + b)[..nl] == a[..nl];
      NewlineIsUnique(a + b, nl);
      assert (a + b)[nl + 1..] == a[nl + 1..] + b;
      match f(st, a[..nl])
      case More(st') => ScanInPieces(f, st', a[nl + 1..], b);
      case Stop(_) =>
    }
  }

  /** The stream that carries the given lines, each ended by a newline. */
  function Text(ls: seq<string>): string {
    if ls == [] then "" else ls[0] + "\n" + Text(ls[1..])
  }

  predicate NewlineFree(ls: seq<string>) {
    forall i :: 0 <= i < |ls| ==> '\n' !in ls[i]
  }

  /** A handler applied to a list of lines; on `Stop` the lines after it are left. */
  datatype Folded<S> = Ended(st: S, left: seq<string>) | Open(st: S)

  function Fold<S>(f: Handler<S>, st: S, ls: seq<string>): Folded<S> {
    if ls == [] then Open(st)
    else match f(st, ls[0])
      case More(st') => Fold(f, st', ls[1..])
      case Stop(st') => Ended(st', ls[1..])
  }

  lemma FoldCons<S>(f: Handler<S>, st: S, line: string, ls: seq<string>, next: S)
    requires f(st, line) == More(next)
    ensures Fold(f, st, [line] + ls) == Fold(f, next, ls)
  {
    assert ([line] + ls)[1..] == ls;
  }

  /** Scanning the text of a list of lines is folding the handler over the list. */
  lemma {:induction false} ScanOfText<S>(f: Handler<S>, st: S, ls: seq<string>)
    requires NewlineFree(ls)
    ensures Scan(f, st, Text(ls)) ==
      match Fold(f, st, ls)
      case Ended(st', left) => Halted(st', Text(left))
      case Open(st') => Starved(st', "")
  {
    if ls != [] {
      var buf := Text(ls);
      assert buf[..|ls[0]|] == ls[0];
      NewlineIsUnique(buf, |ls[0]|);
      assert buf[|ls[0]| + 1..] == Text(ls[1..]);
      match f(st, ls[0])
      case More(st') => ScanOfText(f, st', ls[1..]);
      case Stop(_) =>
    }
  }

  lemma ScanOneLine<S>(f: Handler<S>, st: S, line: string)
    requires '\n' !in line && f(st, line).Stop?
    ensures Scan(f, st, line + "\n") == Halted(f(st, line).st, "")
  {
    NewlineIsUnique(line + "\n", |line|);
    assert (line + "\n")[..|line|] == line;
  }

  lemma {:induction false} FoldOfConcat<S>(f: Handler<S>, st: S, a: seq<string>, b: seq<string>)
    ensures Fold(f, st, a + b) ==
      match Fold(f, st, a)
      case Ended(st', left) => Ended(st', left + b)
      case Open(st') => Fold(f, st', b)
  {
    if a == [] {
      assert a + b == b;
    } else {
      assert (a + b)[1..] == a[1..] + b;
      match f(st, a[0])
      case More(st') => FoldOfConcat(f, st', a[1..], b);
      case Stop(_) =>
    }
  }

  lemma {:induction false} TextOfConcat(a: seq<string>, b: seq<string>)
    ensures Text(a + b) == Text(a) + Text(b)
  {
    if a == [] {
      assert a + b == b;
    } else {
      assert (a + b)[1..] == a[1..] + b;
      TextOfConcat(a[1..], b);
    }
  }

  /** All complete lines of a stream. */
  function LinesOf(buf: string): (ls: seq<string>)
    ensures NewlineFree(ls)
    decreases |buf|
  {
    var nl := NewlineAt(buf);
    if nl < 0 then [] else [buf[..nl]] + LinesOf(buf[nl + 1..])
  }

  /** A printed list of lines is read back as that list. */
  lemma {:induction false} LinesOfText(ls: seq<string>)
    requires NewlineFree(ls)
    ensures LinesOf(Text(ls)) == ls
  {
    if ls != [] {
      var buf := Text(ls);
      assert buf[..|ls[0]|] == ls[0];
      NewlineIsUnique(buf, |ls[0]|);
      assert buf[|ls[0]| + 1..] == Text(ls[1..]);
      LinesOfText(ls[1..]);
    }
  }

  /** Text in which every line is ended by a newline. */
  predicate WholeLines(s: string) {
    Text(LinesOf(s)) == s
  }

  lemma TextIsWhole(ls: seq<string>)
    requires NewlineFree(ls)
    ensures WholeLines(Text(ls)) && LinesOf(Text(ls)) == ls
  {
    LinesOfText(ls);
  }

  lemma WholeOfConcat(a: string, b: string)
    requires WholeLines(a) && WholeLines(b)
    ensures WholeLines(a + b) && LinesOf(a + b) == LinesOf(a) + LinesOf(b)
  {
    TextOfConcat(LinesOf(a), LinesOf(b));
    TextIsWhole(LinesOf(a) + LinesOf(b));
  }

  lemma Reassociate<T>(a: seq<T>, b: seq<T>, c: seq<T>)
    ensures a + (b + c) == (a + b) + c
  {
  }

  lemma AppendNothing<T>(a: seq<T>)
    ensures a + [] == a && [] + a == a
  {
  }

  /** The bytes of a stream that arrives in pieces. */
  function Concat(pieces: seq<string>): string {
    if pieces == [] then "" else pieces[0] + Concat(pieces[1..])
  }

  /** The first line of a stream and the rest of it. */
  lemma LinesOfCons(line: string, rest: string)
    requires '\n' !in line
    ensures LinesOf(line + "\n" + rest) == [line] + LinesOf(rest)
  {
    var s := line + "\n" + rest;
    assert s[..|line|] == line && s[|line| + 1..] == rest;
    NewlineIsUnique(s, |line|);
  }
}
