/** The harness child as the engines see it, and the bounded read loop over it.

    The outside world is a script of moves, consumed one per call: whether the
    call works, what the worker emits, and how many bytes a read delivers.  Every
    statement quantifies over all scripts, so spawn, write and read failures, slow
    replies and any division into chunks are covered; past its end a script only
    fails.  A worker's output waits in `pipe` and a read delivers a prefix of it. */
module Process {
  import opened Lines

  datatype Move = Move(ok: bool, emits: string, takes: nat, err: string)

  const SILENCE := Move(false, "", 0, "")

  /** The state of the child's side of the pipe. */
  datatype Proc = Proc(running: bool, pipe: string, script: seq<Move>)

  function NextMove(p: Proc): Move {
    if p.script == [] then SILENCE else p.script[0]
  }

  function RestOf(p: Proc): seq<Move> {
    if p.script == [] then [] else p.script[1..]
  }

  /** Any previous worker is gone first; a failed launch leaves none. */
  function AfterSpawn(p: Proc): Proc {
    Proc(NextMove(p).ok, if NextMove(p).ok then NextMove(p).emits else "", RestOf(p))
  }

  function AfterTerminate(p: Proc): Proc {
    p.(running := false, pipe := "")
  }

  predicate WriteWorks(p: Proc) {
    p.running && NextMove(p).ok
  }

  /** The reply to a command joins the output still waiting in the pipe. */
  function AfterWrite(p: Proc): Proc {
    p.(pipe := if WriteWorks(p) then p.pipe + NextMove(p).emits else p.pipe, script := RestOf(p))
  }

  predicate ReadWorks(p: Proc) {
    p.running && NextMove(p).ok
  }

  /** The bytes a working read delivers; none is a timeout. */
  function Chunk(p: Proc): string {
    if NextMove(p).takes <= |p.pipe| then p.pipe[..NextMove(p).takes] else p.pipe
  }

  function AfterRead(p: Proc): Proc {
    p.(pipe := if ReadWorks(p) then p.pipe[|Chunk(p)|..] else p.pipe, script := RestOf(p))
  }

  /** `HarnessProcess`: the liveness flag changes through `Spawn` and `Terminate` only. */
  class HarnessProcess {
    var running: bool
    var pipe: string
    var script: seq<Move>

    function View(): Proc
      reads this
    {
      Proc(running, pipe, script)
    }

    constructor (script: seq<Move>)
      ensures View() == Proc(false, "", script)
    {
      this.running, this.pipe, this.script := false, "", script;
    }

    method BringUp() returns (ok: bool, err: string)
      modifies this
      ensures View() == old(View()).(script := RestOf(old(View())))
      ensures ok == NextMove(old(View())).ok && err == NextMove(old(View())).err
    {
      ok, err := NextMove(View()).ok, NextMove(View()).err;
      script := RestOf(View());
    }

    method Spawn() returns (ok: bool, err: string)
      modifies this
      ensures View() == AfterSpawn(old(View()))
      ensures ok == running && err == NextMove(old(View())).err
    {
      var m := NextMove(View());
      script := RestOf(View());
      running := m.ok;
      pipe := if m.ok then m.emits else "";
      ok, err := m.ok, m.err;
    }

    method Terminate()
      modifies this
      ensures View() == AfterTerminate(old(View()))
    {
      running := false;
      pipe := "";
    }

    method Write(line: string) returns (ok: bool, err: string)
      modifies this
      ensures View() == AfterWrite(old(View()))
      ensures ok == WriteWorks(old(View())) && err == NextMove(old(View())).err
    {
      var m := NextMove(View());
      ok, err := running && m.ok, m.err;
      script := RestOf(View());
      if ok {
        pipe := pipe + m.emits;
      }
    }

    /** Appends to the caller's buffer: the new buffer, and n < 0 for EOF or error. */
    method Read(buf: string) returns (buf': string, n: int, err: string)
      modifies this
      ensures View() == AfterRead(old(View()))
      ensures (n >= 0) == ReadWorks(old(View())) && err == NextMove(old(View())).err
      ensures n >= 0 ==> n == |Chunk(old(View()))| && buf' == buf + Chunk(old(View()))
      ensures n < 0 ==> buf' == buf
    {
      var m := NextMove(View());
      var chunk := Chunk(View());
      var works := running && m.ok;
      script := RestOf(View());
      err := m.err;
      if works {
        pipe := pipe[|chunk|..];
        buf', n := buf + chunk, |chunk|;
      } else {
        buf', n := buf, -1;
      }
    }
  }

  /** A worker is brought up when it prints this line. */
  function ReadyLine(u: (), line: string): Verdict<()> {
    if Chomp(line) == "ATD READY" then Stop(()) else More(())
  }

  const READY_TIMEOUT_MS := 60000

  // ----- the read loop all commands share -----

  /** Each empty poll costs one second of the loop's allowance. */
  const POLL_MS := 1000

  /** How a read loop ends: its handler stopped, or it gave up (`eof`: the worker
      died; otherwise it was silent too long). */
  datatype Outcome<S> =
    | Hit(st: S, rest: string, proc: Proc)
    | Miss(st: S, rest: string, proc: Proc, eof: bool, err: string)

  /** The allowance used up once the next read is done. */
  function Spent(p: Proc, waited: int): int {
    if Chunk(p) == "" then waited + POLL_MS else waited
  }

  predicate GivesUp(p: Proc, waited: int, limit: int) {
    !ReadWorks(p) || (Chunk(p) == "" && Spent(p, waited) >= limit)
  }

  function ReadUntil<S>(f: Handler<S>, st: S, buf: string, p: Proc, waited: int, limit: int): Outcome<S>
    decreases |p.script|
  {
    match Scan(f, st, buf)
    case Halted(st', rest) => Hit(st', rest, p)
    case Starved(st', rest) =>
      if GivesUp(p, waited, limit) then
        Miss(st', rest, AfterRead(p), !ReadWorks(p), if ReadWorks(p) then "" else NextMove(p).err)
      else ReadUntil(f, st', rest + Chunk(p), AfterRead(p), Spent(p, waited), limit)
  }

  /** Takes complete lines off the buffer, one at a time, until the handler stops. */
  method TakeLines<S>(f: Handler<S>, st0: S, buf0: string) returns (done: bool, st: S, buf: string)
    ensures Scan(f, st0, buf0) == if done then Halted(st, buf) else Starved(st, buf)
  {
    st, buf := st0, buf0;
    var nl := NewlineAt(buf);
    while nl >= 0
      invariant nl == NewlineAt(buf)
      invariant Scan(f, st, buf) == Scan(f, st0, buf0)
      decreases |buf|
    {
      var verdict := f(st, buf[..nl]);
      st, buf := verdict.st, buf[nl + 1..];
      if verdict.Stop? {
        return true, st, buf;
      }
      nl := NewlineAt(buf);
    }
    return false, st, buf;
  }

  /** The loop itself, on the live process: take the lines at hand, then read more. */
  method ReadLoop<S>(proc: HarnessProcess, f: Handler<S>, st0: S, buf0: string, limit: int)
      returns (hit: bool, st: S, buf: string, eof: bool, err: string)
    modifies proc
    ensures var r := ReadUntil(f, st0, buf0, old(proc.View()), 0, limit);
      && hit == r.Hit? && st == r.st && buf == r.rest && proc.View() == r.proc
      && (!hit ==> eof == r.eof && err == r.err)
  {
    var waited := 0;
    st, buf := st0, buf0;
    ghost var goal := ReadUntil(f, st0, buf0, proc.View(), 0, limit);
    while true
      invariant goal == ReadUntil(f, st, buf, proc.View(), waited, limit)
      decreases |proc.script|
    {
      var done;
      done, st, buf := TakeLines(f, st, buf);
      if done {
        return true, st, buf, false, "";
      }
      var n;
      buf, n, err := proc.Read(buf);
      if n < 0 {
        return false, st, buf, true, err;
      }
      if n == 0 {
        waited := waited + 1000;
        if waited >= limit {
          return false, st, buf, false, "";
        }
      }
    }
  }

  /** One read moves the chunk out of the pipe and nothing else. */
  lemma ChunkThenRest(p: Proc)
    ensures ReadWorks(p) ==> p.pipe == Chunk(p) + AfterRead(p).pipe
    ensures !ReadWorks(p) || Chunk(p) == "" ==> p.pipe == "" + AfterRead(p).pipe
  {
  }

  /** A starved scan goes on with the delivered chunk; nothing is lost or reordered. */
  lemma DeliveredChunk<S>(f: Handler<S>, st: S, buf: string, p: Proc)
    requires Scan(f, st, buf).Starved? && ReadWorks(p)
    ensures var r := Scan(f, st, buf);
      Scan(f, st, buf + p.pipe) == Scan(f, r.st, (r.rest + Chunk(p)) + AfterRead(p).pipe)
  {
    var r := Scan(f, st, buf);
    ScanInPieces(f, st, buf, p.pipe);
    ChunkThenRest(p);
    Reassociate(r.rest, Chunk(p), AfterRead(p).pipe);
  }

  /** The bytes a loop takes out of the pipe. */
  function Taken<S>(f: Handler<S>, st: S, buf: string, p: Proc, waited: int, limit: int): string
    decreases |p.script|
  {
    var r := Scan(f, st, buf);
    if r.Halted? || GivesUp(p, waited, limit) then ""
    else Chunk(p) + Taken(f, r.st, r.rest + Chunk(p), AfterRead(p), Spent(p, waited), limit)
  }

  /** No byte is lost or invented: what a loop took is a prefix of the pipe, the
      rest is still there. */
  lemma {:induction false} TakenIsAPrefix<S>(f: Handler<S>, st: S, buf: string, p: Proc, waited: int, limit: int)
    ensures p.pipe == Taken(f, st, buf, p, waited, limit) + ReadUntil(f, st, buf, p, waited, limit).proc.pipe
    decreases |p.script|
  {
    var r := Scan(f, st, buf);
    ChunkThenRest(p);
    if r.Starved? && !GivesUp(p, waited, limit) {
      var q, buf', waited' := AfterRead(p), r.rest + Chunk(p), Spent(p, waited);
      TakenIsAPrefix(f, r.st, buf', q, waited', limit);
      Reassociate(Chunk(p), Taken(f, r.st, buf', q, waited', limit),
                  ReadUntil(f, r.st, buf', q, waited', limit).proc.pipe);
    }
  }

  /** Reading does not change which worker is running. */
  lemma {:induction false} ReadingKeepsTheWorker<S>(f: Handler<S>, st: S, buf: string, p: Proc, waited: int, limit: int)
    ensures ReadUntil(f, st, buf, p, waited, limit).proc.running == p.running
    decreases |p.script|
  {
    var r := Scan(f, st, buf);
    if r.Starved? && !GivesUp(p, waited, limit) {
      ReadingKeepsTheWorker(f, r.st, r.rest + Chunk(p), AfterRead(p), Spent(p, waited), limit);
    }
  }

  /** The chunks do not matter: a loop has computed one pass over its buffer
      followed by the bytes it took, and keeps exactly what that pass left. */
  lemma {:induction false} LoopIsOnePass<S>(f: Handler<S>, st: S, buf: string, p: Proc, waited: int, limit: int)
    ensures var r := ReadUntil(f, st, buf, p, waited, limit);
      Scan(f, st, buf + Taken(f, st, buf, p, waited, limit)) ==
        if r.Hit? then Halted(r.st, r.rest) else Starved(r.st, r.rest)
    decreases |p.script|
  {
    var r, t := Scan(f, st, buf), Taken(f, st, buf, p, waited, limit);
    if r.Halted? || GivesUp(p, waited, limit) {
      AppendNothing(buf);
    } else {
      var buf' := r.rest + Chunk(p);
      LoopIsOnePass(f, r.st, buf', AfterRead(p), Spent(p, waited), limit);
      ScanInPieces(f, st, buf, t);
      Reassociate(r.rest, Chunk(p), Taken(f, r.st, buf', AfterRead(p), Spent(p, waited), limit));
    }
  }

  /** A successful loop therefore agrees with one pass over the whole stream. */
  lemma HitIsOnePass<S>(f: Handler<S>, st: S, buf: string, p: Proc, waited: int, limit: int)
    requires ReadUntil(f, st, buf, p, waited, limit).Hit?
    ensures var r := ReadUntil(f, st, buf, p, waited, limit);
      Scan(f, st, buf + p.pipe) == Halted(r.st, r.rest + r.proc.pipe)
  {
    var r, t := ReadUntil(f, st, buf, p, waited, limit), Taken(f, st, buf, p, waited, limit);
    TakenIsAPrefix(f, st, buf, p, waited, limit);
    LoopIsOnePass(f, st, buf, p, waited, limit);
    ScanInPieces(f, st, buf + t, r.proc.pipe);
    Reassociate(buf, t, r.proc.pipe);
  }

  /** The number of empty polls among the first k reads, and the bytes they bring. */
  function EmptyPolls(p: Proc, k: nat): nat
    decreases k
  {
    if k == 0 then 0 else (if Chunk(p) == "" then 1 else 0) + EmptyPolls(AfterRead(p), k - 1)
  }

  predicate Works(p: Proc, k: nat)
    decreases k
  {
    k == 0 || (ReadWorks(p) && Works(AfterRead(p), k - 1))
  }

  function AfterReads(p: Proc, k: nat): Proc
    decreases k
  {
    if k == 0 then p else AfterReads(AfterRead(p), k - 1)
  }

  lemma {:induction false} DrainedStreamHits<S>(f: Handler<S>, st: S, buf: string, p: Proc,
                                                waited: int, limit: int, k: nat)
    requires Scan(f, st, buf + p.pipe).Halted?
    requires Works(p, k) && AfterReads(p, k).pipe == ""
    requires waited + EmptyPolls(p, k) * POLL_MS < limit
    ensures ReadUntil(f, st, buf, p, waited, limit).Hit?
    decreases |p.script|
  {
    var r := Scan(f, st, buf);
    if r.Starved? {
      AppendNothing(buf);
      DeliveredChunk(f, st, buf, p);
      DrainedStreamHits(f, r.st, r.rest + Chunk(p), AfterRead(p), Spent(p, waited), limit, k - 1);
    }
  }

  /** Completeness: when some number of working reads drains the pipe with the
      empty polls among them below the limit, the loop finds any answer the
      stream holds, the same one for every such script. */
  lemma DrainedStreamIsAnswered<S>(f: Handler<S>, st: S, buf: string, p: Proc, waited: int, limit: int, k: nat)
    requires Scan(f, st, buf + p.pipe).Halted?
    requires Works(p, k) && AfterReads(p, k).pipe == ""
    requires waited + EmptyPolls(p, k) * POLL_MS < limit
    ensures var r := ReadUntil(f, st, buf, p, waited, limit);
      r.Hit? && Scan(f, st, buf + p.pipe) == Halted(r.st, r.rest + r.proc.pipe)
  {
    DrainedStreamHits(f, st, buf, p, waited, limit, k);
    HitIsOnePass(f, st, buf, p, waited, limit);
  }

  lemma FoundAtOnce<S>(f: Handler<S>, st: S, buf: string, p: Proc, waited: int, limit: int)
    requires Scan(f, st, buf).Halted?
    ensures var r := Scan(f, st, buf); ReadUntil(f, st, buf, p, waited, limit) == Hit(r.st, r.rest, p)
  {
  }

  predicate DrainsNext(p: Proc) {
    p.running && p.script != [] && p.script[0].ok && p.script[0].takes >= |p.pipe|
  }

  /** One read that drains the pipe finds an answer that is not in the buffer yet. */
  lemma OneReadFinds<S>(f: Handler<S>, st: S, buf: string, p: Proc, limit: int)
    requires Scan(f, st, buf).Starved? && Scan(f, st, buf + p.pipe).Halted? && DrainsNext(p)
    ensures var r := Scan(f, st, buf + p.pipe);
      ReadUntil(f, st, buf, p, 0, limit) == Hit(r.st, r.rest, Proc(true, "", p.script[1..]))
  {
    var r, q := Scan(f, st, buf), AfterRead(p);
    assert p.pipe != "" by {
      AppendNothing(buf);
    }
    assert Chunk(p) == p.pipe;
    assert ReadUntil(f, st, buf, p, 0, limit) == ReadUntil(f, r.st, r.rest + p.pipe, q, 0, limit);
    ScanInPieces(f, st, buf, p.pipe);
    FoundAtOnce(f, r.st, r.rest + p.pipe, q, 0, limit);
  }

  /** Two scripts that divide the same stream differently get the same answer and
      leave the same unread bytes. */
  lemma ChunkingIsIrrelevant<S>(f: Handler<S>, st: S, buf: string, p: Proc, q: Proc, waited: int, limit: int)
    requires p.pipe == q.pipe
    requires ReadUntil(f, st, buf, p, waited, limit).Hit? && ReadUntil(f, st, buf, q, waited, limit).Hit?
    ensures var a, b := ReadUntil(f, st, buf, p, waited, limit), ReadUntil(f, st, buf, q, waited, limit);
      a.st == b.st && a.rest + a.proc.pipe == b.rest + b.proc.pipe
  {
    HitIsOnePass(f, st, buf, p, waited, limit);
    HitIsOnePass(f, st, buf, q, waited, limit);
  }

  /** How many empty polls a loop goes through. */
  function PollsSpent<S>(f: Handler<S>, st: S, buf: string, p: Proc, waited: int, limit: int): nat
    decreases |p.script|
  {
    match Scan(f, st, buf)
    case Halted(_, _) => 0
    case Starved(st', rest) =>
      var now := if ReadWorks(p) && Chunk(p) == "" then 1 else 0;
      if GivesUp(p, waited, limit) then now
      else now + PollsSpent(f, st', rest + Chunk(p), AfterRead(p), Spent(p, waited), limit)
  }

  /** A loop gives up after a fixed number of empty polls: started with no time
      spent it sees at most limit / 1000 of them, and that many exactly when it
      gives up on a worker that is still alive. */
  lemma {:induction false} PatienceIsBounded<S>(f: Handler<S>, st: S, buf: string, p: Proc, waited: int, limit: int)
    requires 0 <= waited < limit && waited % POLL_MS == 0 && limit % POLL_MS == 0
    ensures var r, n := ReadUntil(f, st, buf, p, waited, limit), PollsSpent(f, st, buf, p, waited, limit);
      waited + n * POLL_MS <= limit && (r.Miss? && !r.eof <==> waited + n * POLL_MS == limit)
    decreases |p.script|
  {
    var r := Scan(f, st, buf);
    if r.Starved? && !GivesUp(p, waited, limit) {
      PatienceIsBounded(f, r.st, r.rest + Chunk(p), AfterRead(p), Spent(p, waited), limit);
    }
  }

  // ----- a banner -----

  const READY := "ATD READY" + "\n"

  lemma BannerScans()
    ensures Scan(ReadyLine, (), READY) == Halted((), "")
  {
    ScanOneLine(ReadyLine, (), "ATD READY");
  }

  lemma BannerIsRead(p: Proc)
    requires p.running && p.pipe == READY && p.script != [] && p.script[0] == Move(true, "", 10, "")
    ensures ReadUntil(ReadyLine, (), "", p, 0, READY_TIMEOUT_MS) == Hit((), "", Proc(true, "", p.script[1..]))
  {
    AppendNothing(READY);
    assert Chunk(p) == READY && AfterRead(p) == Proc(true, "", p.script[1..]);
    BannerInBuffer(AfterRead(p));
  }

  lemma BannerInBuffer(p: Proc)
    ensures ReadUntil(ReadyLine, (), READY, p, 0, READY_TIMEOUT_MS) == Hit((), "", p)
  {
    BannerScans();
  }
}
