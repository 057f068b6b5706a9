/** What the engines make of tidy output.  When everything a worker prints is whole lines
    that a handler can take without harm, whatever the handler computes is harmless, in
    whatever pieces the lines arrive and however the read loop ends. */
module Tidy {
  import opened Lines
  import opened Process
  import opened Proto

  predicate TidyText(t: string, tidy: string -> bool) {
    WholeLines(t) && forall i :: 0 <= i < |LinesOf(t)| ==> tidy(LinesOf(t)[i])
  }

  predicate TidyMove(m: Move, tidy: string -> bool) {
    Clean(m.err) && TidyText(m.emits, tidy)
  }

  predicate TidyScript(script: seq<Move>, tidy: string -> bool) {
    forall i :: 0 <= i < |script| ==> TidyMove(script[i], tidy)
  }

  /** A child with tidy output to come, and tidy output unread if it runs. */
  predicate TidyProc(p: Proc, buf: string, tidy: string -> bool) {
    TidyScript(p.script, tidy) && (p.running ==> TidyText(buf + p.pipe, tidy))
  }

  ghost predicate Keeps<S(!new)>(f: Handler<S>, good: S -> bool, tidy: string -> bool) {
    forall st, line :: good(st) && tidy(line) ==> good(f(st, line).st)
  }

  lemma NothingIsTidy(tidy: string -> bool)
    ensures TidyText("", tidy) && TidyMove(SILENCE, tidy)
  {
    assert LinesOf("") == [] && Text([]) == "";
  }

  lemma TidyOfConcat(a: string, b: string, tidy: string -> bool)
    requires TidyText(a, tidy) && TidyText(b, tidy)
    ensures TidyText(a + b, tidy)
  {
    WholeOfConcat(a, b);
  }

  lemma FirstLineIsTidy(buf: string, more: string, tidy: string -> bool)
    requires TidyText(buf + more, tidy) && NewlineAt(buf) >= 0
    ensures var nl := NewlineAt(buf); tidy(buf[..nl]) && TidyText(buf[nl + 1..] + more, tidy)
  {
    var nl, t := NewlineAt(buf), buf + more;
    assert t[..nl] == buf[..nl] && t[nl + 1..] == buf[nl + 1..] + more;
    NewlineIsUnique(t, nl);
    var rest := LinesOf(t[nl + 1..]);
    assert LinesOf(t) == [t[..nl]] + rest && LinesOf(t)[0] == t[..nl];
    assert Text([t[..nl]] + rest) == t[..nl] + "\n" + Text(rest) by {
      assert ([t[..nl]] + rest)[1..] == rest;
    }
    assert Text(rest) == t[nl + 1..];
    forall i | 0 <= i < |rest| ensures tidy(rest[i]) {
      assert rest[i] == LinesOf(t)[i + 1];
    }
  }

  lemma {:induction false} ScanKeeps<S(!new)>(f: Handler<S>, good: S -> bool, tidy: string -> bool,
                                              st: S, buf: string, more: string)
    requires Keeps(f, good, tidy) && good(st) && TidyText(buf + more, tidy)
    ensures var r := Scan(f, st, buf); good(r.st) && TidyText(r.rest + more, tidy)
    decreases |buf|
  {
    var nl := NewlineAt(buf);
    if nl >= 0 {
      FirstLineIsTidy(buf, more, tidy);
      ScanKeeps(f, good, tidy, f(st, buf[..nl]).st, buf[nl + 1..], more);
    }
  }

  lemma NextIsTidy(p: Proc, tidy: string -> bool)
    requires TidyScript(p.script, tidy)
    ensures TidyMove(NextMove(p), tidy) && TidyScript(RestOf(p), tidy)
  {
    NothingIsTidy(tidy);
  }

  /** However the loop ends, and in whatever pieces the lines arrive. */
  lemma {:induction false} ReadKeeps<S(!new)>(f: Handler<S>, good: S -> bool, tidy: string -> bool,
                                              st: S, buf: string, p: Proc, waited: int, limit: int)
    requires Keeps(f, good, tidy) && good(st) && p.running && TidyProc(p, buf, tidy)
    ensures var r := ReadUntil(f, st, buf, p, waited, limit);
      good(r.st) && TidyProc(r.proc, r.rest, tidy) && (r.Miss? ==> Clean(r.err))
    decreases |p.script|
  {
    var r := Scan(f, st, buf);
    ScanKeeps(f, good, tidy, st, buf, p.pipe);
    NextIsTidy(p, tidy);
    if r.Starved? {
      ChunkThenRest(p);
      if GivesUp(p, waited, limit) {
        assert r.rest + AfterRead(p).pipe == r.rest + p.pipe;
      } else {
        Reassociate(r.rest, Chunk(p), AfterRead(p).pipe);
        ReadKeeps(f, good, tidy, r.st, r.rest + Chunk(p), AfterRead(p), Spent(p, waited), limit);
      }
    }
  }

  lemma SpawnIsTidy(p: Proc, tidy: string -> bool)
    requires TidyScript(p.script, tidy)
    ensures TidyProc(AfterSpawn(p), "", tidy) && Clean(NextMove(p).err)
  {
    NextIsTidy(p, tidy);
    NothingIsTidy(tidy);
    assert "" + NextMove(p).emits == NextMove(p).emits;
  }

  lemma WriteIsTidy(p: Proc, buf: string, tidy: string -> bool)
    requires TidyProc(p, buf, tidy)
    ensures TidyProc(AfterWrite(p), buf, tidy) && Clean(NextMove(p).err)
  {
    NextIsTidy(p, tidy);
    if WriteWorks(p) {
      TidyOfConcat(buf + p.pipe, NextMove(p).emits, tidy);
      Reassociate(buf, p.pipe, NextMove(p).emits);
    }
  }

  // ----- a suffix of clean text -----

  lemma CleanSuffix(s: string, n: nat)
    requires Clean(s) && n <= |s|
    ensures Clean(s[n..])
  {
  }
}
