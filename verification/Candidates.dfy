/** The shared memory of a `Session` and the candidate list it builds: the bounded
    FIFO cache, the remembered top-1 hints, and `buildCandidates`. */
module Candidates {
  import opened Proto
  import opened HarnessProtocol

  const CACHE_MAX := 64

  /** What `cache_mu_` protects. */
  datatype Mem = Mem(cache: map<string, ConvertResult>, lru: seq<string>, hints: map<string, string>)

  const EMPTY_MEM := Mem(map[], [], map[])

  /** How many readings an insertion pushes out. */
  function Overflow(lru: seq<string>): nat {
    if |lru| > CACHE_MAX then |lru| - CACHE_MAX else 0
  }

  function Elements(xs: seq<string>): set<string> {
    set x | x in xs
  }

  /** `cachePut`: a fresh reading enters at the back and evicts from the front. */
  function Put(m: Mem, r: string, v: ConvertResult): Mem {
    if r in m.cache then m.(cache := m.cache[r := v])
    else
      var all := m.lru + [r];
      var n := Overflow(all);
      m.(cache := (m.cache - Elements(all[..n]))[r := v], lru := all[n..])
  }

  /** `rememberTop1`: the hint map may be dropped when it has grown too large. */
  function Remember(m: Mem, r: string, top1: string): Mem {
    m.(hints := (if |m.hints| > CACHE_MAX then map[] else m.hints)[r := top1])
  }

  /** `takeTop1`: the hint, empty when there is none, is removed. */
  function HintFor(m: Mem, r: string): string {
    if r in m.hints then m.hints[r] else ""
  }

  function TakeHint(m: Mem, r: string): Mem {
    m.(hints := m.hints - {r})
  }

  // ----- the built list -----

  /** A list without one value. */
  function Without(xs: seq<string>, x: string): seq<string> {
    if xs == [] then []
    else Without(xs[..|xs| - 1], x) + if xs[|xs| - 1] == x then [] else [xs[|xs| - 1]]
  }

  function Surfaces(xs: seq<Candidate>): set<string> {
    set i | 0 <= i < |xs| :: xs[i].surface
  }

  /** The first entry of each surface, in order. */
  function FirstBySurface(xs: seq<Candidate>): seq<Candidate> {
    if xs == [] then []
    else
      var init, x := xs[..|xs| - 1], xs[|xs| - 1];
      FirstBySurface(init) + if x.surface in Surfaces(init) then [] else [x]
  }

  /** `buildCandidates`: from the remembered top-1 (empty when there is none), the
      answer of `topOne`, and the result of a successful `convert`.  A failed
      `topOne` gives no commit, but its partly filled result is still used. */
  function BuildResult(hint: string, top: Answer, conv: ConvertResult): ConvertResult {
    var t1 := if top.ok && hint == "" then top.res.commit else hint;
    var commit := if t1 != "" then t1 else conv.commit;
    ConvertResult(commit,
                  (if commit != "" then [commit] else []) + Without(conv.candidates, commit),
                  FirstBySurface(top.res.candidatesEx + conv.candidatesEx))
  }

  // ----- one call at a time -----

  /** `candidates` with the answers the engine would give: success, result, memory. */
  function CandidatesCall(m: Mem, r: string, max: int, top: Answer, conv: Answer): (bool, ConvertResult, Mem) {
    if r in m.cache then (true, Capped(m.cache[r], max), m)
    else if !conv.ok then (false, EMPTY_RESULT, TakeHint(m, r))
    else
      var v := BuildResult(HintFor(m, r), top, conv.res);
      (true, Capped(v, max), Put(TakeHint(m, r), r, v))
  }

  /** `top1`: the memory, and the reading left for the prefetch. */
  function Top1Call(m: Mem, pending: string, r: string, top: Answer): (Mem, string) {
    if !top.ok then (m, pending) else (Remember(m, r, top.res.commit), if r in m.cache then pending else r)
  }

  /** One turn of the prefetch worker. */
  function PrefetchCall(m: Mem, r: string, top: Answer, conv: Answer): Mem {
    CandidatesCall(m, r, 0, top, conv).2
  }

  // ----- what the lists are, said by positions -----

  /** ys picks the positions idx of xs, in order. */
  predicate Picks<T(==)>(xs: seq<T>, ys: seq<T>, idx: seq<nat>) {
    && |idx| == |ys|
    && (forall k :: 0 <= k < |idx| ==> idx[k] < |xs| && ys[k] == xs[idx[k]])
    && (forall j, k :: 0 <= j < k < |idx| ==> idx[j] < idx[k])
  }

  /** `Without` keeps exactly the positions of other values. */
  lemma {:induction false} WithoutPicks(xs: seq<string>, x: string) returns (idx: seq<nat>)
    ensures Picks(xs, Without(xs, x), idx)
    ensures forall i :: 0 <= i < |xs| ==> (i in idx <==> xs[i] != x)
  {
    idx := [];
    if xs != [] {
      var n := |xs| - 1;
      var init := WithoutPicks(xs[..n], x);
      idx := init + if xs[n] == x then [] else [n];
    }
  }

  /** Positions picked from all but the last element, with and without the last one. */
  lemma PickLast<T>(xs: seq<T>, ys: seq<T>, idx: seq<nat>)
    requires xs != [] && Picks(xs[..|xs| - 1], ys, idx)
    ensures var n := |xs| - 1;
      n !in idx && Picks(xs, ys, idx) && Picks(xs, ys + [xs[n]], idx + [n])
  {
  }

  /** The surface at a position does not occur before it. */
  predicate NewAt(xs: seq<Candidate>, i: nat)
    requires i < |xs|
  {
    xs[i].surface !in Surfaces(xs[..i])
  }

  lemma NewInPrefix(xs: seq<Candidate>, n: nat, i: nat)
    requires i < n <= |xs|
    ensures NewAt(xs[..n], i) == NewAt(xs, i)
  {
    assert xs[..n][..i] == xs[..i] && xs[..n][i] == xs[i];
  }

  lemma InAppended<T>(xs: seq<T>, x: T, y: T)
    ensures y in xs + [x] <==> y in xs || y == x
  {
  }

  lemma FirstBySurfaceOfLast(xs: seq<Candidate>)
    requires xs != []
    ensures var n := |xs| - 1;
      FirstBySurface(xs) == if NewAt(xs, n) then FirstBySurface(xs[..n]) + [xs[n]] else FirstBySurface(xs[..n])
  {
  }

  /** These are exactly the positions whose surface is new. */
  predicate AllNew(xs: seq<Candidate>, idx: seq<nat>) {
    forall i :: 0 <= i < |xs| ==> (i in idx <==> NewAt(xs, i))
  }

  lemma NewOfLast(xs: seq<Candidate>, init: seq<nat>)
    requires xs != [] && AllNew(xs[..|xs| - 1], init) && |xs| - 1 !in init
    ensures AllNew(xs, if NewAt(xs, |xs| - 1) then init + [|xs| - 1] else init)
  {
    var n := |xs| - 1;
    forall i | 0 <= i < n ensures (i in init <==> NewAt(xs, i)) && (i in init + [n] <==> i in init) {
      NewInPrefix(xs, n, i);
      InAppended(init, n, i);
      assert i in init <==> NewAt(xs[..n], i);
    }
  }

  /** `FirstBySurface` keeps exactly the positions whose surface is new. */
  lemma {:induction false} FirstBySurfacePicks(xs: seq<Candidate>) returns (idx: seq<nat>)
    ensures Picks(xs, FirstBySurface(xs), idx) && AllNew(xs, idx)
  {
    idx := [];
    if xs != [] {
      var n := |xs| - 1;
      var init := FirstBySurfacePicks(xs[..n]);
      PickLast(xs, FirstBySurface(xs[..n]), init);
      idx := if NewAt(xs, n) then init + [n] else init;
      FirstBySurfaceOfLast(xs);
      NewOfLast(xs, init);
    }
  }

  lemma {:induction false} FirstBySurfaceCovers(xs: seq<Candidate>)
    ensures Surfaces(FirstBySurface(xs)) == Surfaces(xs)
    ensures forall i, j :: 0 <= i < j < |FirstBySurface(xs)| ==>
      FirstBySurface(xs)[i].surface != FirstBySurface(xs)[j].surface
  {
    if xs != [] {
      var init, x := xs[..|xs| - 1], xs[|xs| - 1];
      FirstBySurfaceCovers(init);
      SurfacesOfAppended(init, x);
      assert xs == init + [x];
      if x.surface !in Surfaces(init) {
        SurfacesOfAppended(FirstBySurface(init), x);
      } else {
        assert FirstBySurface(xs) == FirstBySurface(init) && Surfaces(init) + {x.surface} == Surfaces(init);
      }
    }
  }

  lemma SurfacesOfAppended(xs: seq<Candidate>, x: Candidate)
    ensures Surfaces(xs + [x]) == Surfaces(xs) + {x.surface}
    ensures forall i :: 0 <= i < |xs| ==> xs[i].surface in Surfaces(xs)
  {
    var ys := xs + [x];
    assert ys[|xs|].surface == x.surface;
    assert forall i :: 0 <= i < |xs| ==> ys[i] == xs[i];
  }

  /** The flat list behind its leading commit. */
  function Alternatives(r: ConvertResult): seq<string> {
    if r.commit != "" && r.candidates != [] then r.candidates[1..] else r.candidates
  }

  /** The built flat list: a non-empty commit leads and occurs nowhere else; the
      rest is the engine's list, in order, minus the commit.  Other repeats of the
      engine's list stay. */
  lemma BuiltListLeadsWithCommit(hint: string, top: Answer, conv: ConvertResult)
    ensures var r := BuildResult(hint, top, conv);
      && (r.commit != "" ==> |r.candidates| > 0 && r.candidates[0] == r.commit)
      && r.commit !in Alternatives(r)
      && (exists idx :: Picks(conv.candidates, Alternatives(r), idx)
           && forall i :: 0 <= i < |conv.candidates| ==> (i in idx <==> conv.candidates[i] != r.commit))
  {
    var r := BuildResult(hint, top, conv);
    var idx := WithoutPicks(conv.candidates, r.commit);
    var rest := Alternatives(r);
    assert rest == Without(conv.candidates, r.commit);
    forall k | 0 <= k < |rest| ensures rest[k] != r.commit {
      assert idx[k] in idx;
    }
  }

  predicate NoRepeats(xs: seq<string>) {
    forall i, j :: 0 <= i < j < |xs| ==> xs[i] != xs[j]
  }

  /** Only this value may occur more than once. */
  predicate OnlyRepeats(xs: seq<string>, x: string) {
    forall i, j :: 0 <= i < j < |xs| && xs[i] == xs[j] ==> xs[i] == x
  }

  lemma {:induction false} WithoutKeeps(xs: seq<string>, x: string, y: string)
    ensures y in Without(xs, x) <==> y in xs && y != x
  {
    if xs != [] {
      var n := |xs| - 1;
      WithoutKeeps(xs[..n], x, y);
      assert xs == xs[..n] + [xs[n]];
    }
  }

  lemma NoRepeatsOfLast(xs: seq<string>, y: string)
    ensures NoRepeats(xs + [y]) <==> NoRepeats(xs) && y !in xs
  {
    var ys := xs + [y];
    assert forall i :: 0 <= i < |xs| ==> ys[i] == xs[i];
    assert ys[|xs|] == y;
  }

  lemma OnlyRepeatsOfLast(xs: seq<string>, x: string, y: string)
    ensures OnlyRepeats(xs + [y], x) <==> OnlyRepeats(xs, x) && (y == x || y !in xs)
  {
    var ys := xs + [y];
    assert forall i :: 0 <= i < |xs| ==> ys[i] == xs[i];
    assert ys[|xs|] == y;
  }

  lemma {:induction false} WithoutHasNoRepeats(xs: seq<string>, x: string)
    ensures NoRepeats(Without(xs, x)) <==> OnlyRepeats(xs, x)
  {
    if xs != [] {
      var init, y := xs[..|xs| - 1], xs[|xs| - 1];
      WithoutHasNoRepeats(init, x);
      assert xs == init + [y];
      OnlyRepeatsOfLast(init, x, y);
      NoRepeatsOfLast(Without(init, x), y);
      WithoutKeeps(init, x, y);
      assert Without(init, x) + [] == Without(init, x);
    }
  }

  /** The alternatives are free of repeats exactly when the engine's list repeats at most
      the commit. */
  lemma FlatListHasNoRepeats(hint: string, top: Answer, conv: ConvertResult)
    ensures var r := BuildResult(hint, top, conv);
      NoRepeats(r.candidates) <==> OnlyRepeats(conv.candidates, r.commit)
  {
    var r := BuildResult(hint, top, conv);
    var rest := Without(conv.candidates, r.commit);
    WithoutHasNoRepeats(conv.candidates, r.commit);
    WithoutKeeps(conv.candidates, r.commit, r.commit);
    if r.commit == "" {
      assert [] + rest == rest;
    } else {
      NoRepeatsOfFirst(r.commit, rest);
    }
  }

  lemma NoRepeatsOfFirst(x: string, xs: seq<string>)
    ensures NoRepeats([x] + xs) <==> x !in xs && NoRepeats(xs)
  {
    var ys := [x] + xs;
    assert ys[0] == x;
    forall i | 0 <= i < |xs| ensures ys[i + 1] == xs[i] {
    }
    if x !in xs && NoRepeats(xs) {
      forall i, j | 0 <= i < j < |ys| ensures ys[i] != ys[j] {
        assert ys[j] == xs[j - 1] && (i > 0 ==> ys[i] == xs[i - 1]);
      }
    } else if NoRepeats(xs) {
      var k :| 0 <= k < |xs| && xs[k] == x;
      assert ys[k + 1] == ys[0];
    } else {
      var i, j :| 0 <= i < j < |xs| && xs[i] == xs[j];
      assert ys[i + 1] == ys[j + 1];
    }
  }

  /** A list with another value twice, as the engine may give it, keeps both. */
  lemma RepeatedAlternativeStays(commit: string, a: string, err: string)
    requires commit != "" && a != commit
    ensures var r := BuildResult(commit, Answer(false, EMPTY_RESULT, err), ConvertResult(commit, [commit, a, a], []));
      r.commit == commit && !NoRepeats(r.candidates)
  {
    var conv := ConvertResult(commit, [commit, a, a], []);
    FlatListHasNoRepeats(commit, Answer(false, EMPTY_RESULT, err), conv);
    assert conv.candidates[1] == conv.candidates[2];
  }

  /** The commit: a remembered top-1, else that of a successful `topOne`, else that
      of the full list. */
  lemma BuiltCommit(hint: string, top: Answer, conv: ConvertResult)
    ensures var c := BuildResult(hint, top, conv).commit;
      && (hint != "" ==> c == hint)
      && (hint == "" && top.ok && top.res.commit != "" ==> c == top.res.commit)
      && (hint == "" && (!top.ok || top.res.commit == "") ==> c == conv.commit)
  {
  }

  /** The enriched list: pairwise distinct surfaces, the first entry of each surface
      of the henkan list followed by the reconversion list, in order. */
  lemma BuiltEnrichedList(hint: string, top: Answer, conv: ConvertResult)
    ensures var all, ex := top.res.candidatesEx + conv.candidatesEx, BuildResult(hint, top, conv).candidatesEx;
      && Surfaces(ex) == Surfaces(all)
      && (forall i, j :: 0 <= i < j < |ex| ==> ex[i].surface != ex[j].surface)
      && (exists idx :: Picks(all, ex, idx)
           && forall i :: 0 <= i < |all| ==> (i in idx <==> NewAt(all, i)))
  {
    var all := top.res.candidatesEx + conv.candidatesEx;
    FirstBySurfaceCovers(all);
    var idx := FirstBySurfacePicks(all);
  }

  /** A hint that repeats the engine's own top-1 changes nothing. */
  lemma HintIsInvisible(hint: string, top: Answer, conv: ConvertResult)
    requires hint == "" || (top.ok && hint == top.res.commit)
    ensures BuildResult(hint, top, conv) == BuildResult("", top, conv)
  {
  }

  // ----- the memory in numbers -----

  /** A fresh reading enters at the back; with 64 cached the oldest leaves.  A cached one keeps
      its place. */
  lemma FreshReadingEnters(m: Mem, r: string, v: ConvertResult)
    requires |m.lru| <= 64
    ensures r in m.cache ==> Put(m, r, v) == m.(cache := m.cache[r := v])
    ensures r !in m.cache && |m.lru| < 64 ==> Put(m, r, v) == m.(cache := m.cache[r := v], lru := m.lru + [r])
    ensures r !in m.cache && |m.lru| == 64 ==>
      Put(m, r, v) == m.(cache := (m.cache - {m.lru[0]})[r := v], lru := m.lru[1..] + [r])
  {
    var all := m.lru + [r];
    if r !in m.cache && |m.lru| == 64 {
      assert all[..1] == [m.lru[0]] && Elements([m.lru[0]]) == {m.lru[0]} && all[1..] == m.lru[1..] + [r];
    } else {
      assert Elements(all[..0]) == {} && m.cache - {} == m.cache && all[0..] == all;
    }
  }

  /** Hints are kept until there are more than 64; then all are dropped for the new one. */
  lemma HintIsRemembered(m: Mem, r: string, top1: string)
    ensures var n := Remember(m, r, top1);
      && n.cache == m.cache && n.lru == m.lru && HintFor(n, r) == top1
      && forall q :: q != r ==> HintFor(n, q) == if |m.hints| <= 64 then HintFor(m, q) else ""
  {
  }

  /** A hint is used once. */
  lemma HintIsTaken(m: Mem, r: string)
    ensures var n := TakeHint(m, r);
      && n.cache == m.cache && n.lru == m.lru && HintFor(n, r) == ""
      && forall q :: q != r ==> HintFor(n, q) == HintFor(m, q)
  {
  }
}
