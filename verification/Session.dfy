/** The class `Session` in front of the batch engine, one call at a time: the
    code's own updates of the cache, the hints and the prefetch slot, each method
    proved equal to a function of the old state.  How calls of several threads
    interleave is the subject of `Threads`, over the same functions. */
module Session {
  import opened Proto
  import opened Candidates
  import P = HarnessProtocol
  import H = HarnessEngine

  /** The two answers of the batch engine from which a list is built. */
  function Consult(h: P.Harn, r: string): (P.Harn, P.Answer, P.Answer) {
    var (h1, top) := P.TopOne(h, r, EMPTY_RESULT);
    var (h2, conv) := P.Convert(h1, r, 0, EMPTY_RESULT);
    (h2, top, conv)
  }

  class Session {
    const engine: H.HarnessEngine
    var cache: map<string, ConvertResult>
    var lru: seq<string>
    var top1: map<string, string>
    var pending: string
    var fgWaiting: int

    function View(): Mem
      reads this
    {
      Mem(cache, lru, top1)
    }

    constructor (engine: H.HarnessEngine)
      ensures this.engine == engine && View() == EMPTY_MEM && pending == "" && fgWaiting == 0
    {
      this.engine := engine;
      cache, lru, top1, pending, fgWaiting := map[], [], map[], "", 0;
    }

    method CacheGet(romaji: string) returns (found: bool, r: ConvertResult)
      ensures found == (romaji in cache) && (found ==> r == cache[romaji])
    {
      found, r := romaji in cache, EMPTY_RESULT;
      if found {
        r := cache[romaji];
      }
    }

    method CachePut(romaji: string, r: ConvertResult)
      modifies `cache, `lru
      ensures View() == Put(old(View()), romaji, r)
    {
      if romaji !in cache {
        lru := lru + [romaji];
        ghost var all := lru;
        ghost var n := 0;
        while |lru| > CACHE_MAX
          invariant 0 <= n <= Overflow(all) && lru == all[n..]
          invariant cache == old(cache) - Elements(all[..n])
          decreases |lru|
        {
          assert all[..n + 1] == all[..n] + [lru[0]];
          assert Elements(all[..n + 1]) == Elements(all[..n]) + {lru[0]};
          cache := cache - {lru[0]};
          lru := lru[1..];
          n := n + 1;
        }
      }
      cache := cache[romaji := r];
    }

    method RememberTop1(romaji: string, commit: string)
      modifies `top1
      ensures View() == Remember(old(View()), romaji, commit)
    {
      if |top1| > CACHE_MAX {
        top1 := map[];
      }
      top1 := top1[romaji := commit];
    }

    method TakeTop1(romaji: string) returns (v: string)
      modifies `top1
      ensures v == HintFor(old(View()), romaji) && View() == TakeHint(old(View()), romaji)
    {
      if romaji !in top1 {
        return "";
      }
      v := top1[romaji];
      top1 := top1 - {romaji};
    }

    /** Leads the full list with the top-1 and merges the two enriched lists. */
    method BuildCandidates(romaji: string) returns (ok: bool, out: ConvertResult, err: string)
      modifies `top1, engine, engine.proc
      ensures View() == TakeHint(old(View()), romaji)
      ensures var (h, top, conv) := Consult(old(engine.View()), romaji);
        && engine.View() == h && ok == conv.ok
        && (if ok then out == BuildResult(HintFor(old(View()), romaji), top, conv.res) else err == conv.err)
    {
      var t1 := TakeTop1(romaji);
      ghost var hint := t1;
      out, err := EMPTY_RESULT, "";
      var top := engine.TopOne(romaji, EMPTY_RESULT);
      if top.ok && t1 == "" {
        t1 := top.res.commit;
      }
      var conv := engine.Convert(romaji, 0, EMPTY_RESULT);
      if !conv.ok {
        return false, out, conv.err;
      }
      var commit := if t1 != "" then t1 else conv.res.commit;
      var cands := MergeFlat(commit, conv.res.candidates);
      var ex := MergeEnriched(top.res.candidatesEx, conv.res.candidatesEx);
      return true, ConvertResult(commit, cands, ex), "";
    }

    method Top1(romaji: string) returns (a: P.Answer)
      modifies this, engine, engine.proc
      ensures (engine.View(), a) == P.TopOne(old(engine.View()), romaji, EMPTY_RESULT)
      ensures fgWaiting == old(fgWaiting)
      ensures (View(), pending) == Top1Call(old(View()), old(pending), romaji, a)
    {
      fgWaiting := fgWaiting + 1;
      fgWaiting := fgWaiting - 1;
      a := engine.TopOne(romaji, EMPTY_RESULT);
      if !a.ok {
        return;
      }
      RememberTop1(romaji, a.res.commit);
      if romaji !in cache {
        pending := romaji;
      }
    }

    /** A cache hit touches nothing; a miss builds, caches the whole list and returns
        it cut; a failure caches nothing. */
    method GetCandidates(romaji: string, max: int) returns (ok: bool, out: ConvertResult, err: string)
      modifies this, engine, engine.proc
      ensures fgWaiting == old(fgWaiting) && pending == old(pending)
      ensures var (h, top, conv) := Consult(old(engine.View()), romaji);
        var (served, r, m) := CandidatesCall(old(View()), romaji, max, top, conv);
        && ok == served && View() == m && (if ok then out == r else err == conv.err)
        && engine.View() == if romaji in old(cache) then old(engine.View()) else h
    {
      var found;
      err := "";
      found, out := CacheGet(romaji);
      if found {
        return true, Capped(out, max), err;
      }
      fgWaiting := fgWaiting + 1;
      fgWaiting := fgWaiting - 1;
      ok, out, err := BuildCandidates(romaji);
      if ok {
        CachePut(romaji, out);
        out := Capped(out, max);
      }
    }

    /** One turn of the prefetch worker that finds work. */
    method PrefetchPending()
      requires pending != ""
      modifies this, engine, engine.proc
      ensures pending == "" && fgWaiting == old(fgWaiting)
      ensures var r := old(pending);
        var (h, top, conv) := Consult(old(engine.View()), r);
        && View() == PrefetchCall(old(View()), r, top, conv)
        && engine.View() == if r in old(cache) then old(engine.View()) else h
    {
      var romaji := pending;
      pending := "";
      if romaji in cache {
        return;
      }
      var ok, r, err := BuildCandidates(romaji);
      if ok {
        CachePut(romaji, r);
      }
    }
  }

  /** The loop that fills the flat list behind the commit. */
  method MergeFlat(commit: string, conv: seq<string>) returns (cands: seq<string>)
    ensures cands == (if commit != "" then [commit] else []) + Without(conv, commit)
  {
    cands := if commit != "" then [commit] else [];
    ghost var lead := cands;
    for i := 0 to |conv|
      invariant cands == lead + Without(conv[..i], commit)
    {
      assert conv[..i + 1][..i] == conv[..i];
      if conv[i] != commit {
        cands := cands + [conv[i]];
      }
    }
    assert conv[..|conv|] == conv;
  }

  /** The loop that unites the two enriched lists, henkan entries first. */
  method MergeEnriched(henkan: seq<Candidate>, conv: seq<Candidate>) returns (ex: seq<Candidate>)
    ensures ex == FirstBySurface(henkan + conv)
  {
    var all := henkan + conv;
    var seen: set<string> := {};
    ex := [];
    for i := 0 to |all|
      invariant seen == Surfaces(all[..i]) && ex == FirstBySurface(all[..i])
    {
      assert all[..i + 1][..i] == all[..i];
      SurfacesOfAppended(all[..i], all[i]);
      assert all[..i + 1] == all[..i] + [all[i]];
      if all[i].surface !in seen {
        seen := seen + {all[i].surface};
        ex := ex + [all[i]];
      }
    }
    assert all[..|all|] == all;
  }
}
