/** The table of sinks behind an event source, its cookies, its legacy single slot and
    the references it holds. */
module SinkTable {
  import opened Search
  import opened Wrappers

  const SOURCE_SINK_MAX := 16

  /** Cookies are 32-bit numbers. */
  const LAST_COOKIE := 0xFFFF_FFFF

  /** A sink is told from others by its identity. */
  type Sink = nat

  datatype Entry = Entry(sink: Sink, iid: nat, cookie: nat)

  /** The legacy slot keeps a second reference to the sink it mirrors. */
  datatype Slot = Vacant | Mirror(sink: Sink, iid: nat, cookie: nat)

  datatype Table = Table(entries: seq<Entry>, slot: Slot, next: nat)

  const EMPTY_TABLE := Table([], Vacant, 1)

  // ----- the operations -----

  /** The counter wraps to zero. */
  function Bump(cookie: nat): nat {
    if cookie >= LAST_COOKIE then 0 else cookie + 1
  }

  /** The next cookie; zero is passed over. */
  function Issued(next: nat): nat {
    if next == 0 then 1 else next
  }

  predicate HasRoom(t: Table) {
    |t.entries| < SOURCE_SINK_MAX
  }

  function Advised(t: Table, sink: Sink, iid: nat): Table {
    if !HasRoom(t) then t
    else
      var cookie := Issued(t.next);
      Table(t.entries + [Entry(sink, iid, cookie)],
            if t.slot.Vacant? then Mirror(sink, iid, cookie) else t.slot,
            Bump(cookie))
  }

  /** The first entry with a cookie, or the length. */
  function IndexOf(es: seq<Entry>, cookie: nat): nat {
    FirstWith(es, (e: Entry) => e.cookie, cookie)
  }

  /** The sink that a look-up by identifier finds: the first entry, else the slot. */
  function Found(t: Table, iid: nat): Option<Sink> {
    var i := FirstWith(t.entries, (e: Entry) => e.iid, iid);
    if i < |t.entries| then Some(t.entries[i].sink)
    else if t.slot.Mirror? && t.slot.iid == iid then Some(t.slot.sink)
    else None
  }

  function Without(es: seq<Entry>, i: nat): seq<Entry>
    requires i < |es|
  {
    es[..i] + es[i + 1..]
  }

  function Dropped(t: Table, cookie: nat): Table {
    var i := IndexOf(t.entries, cookie);
    if i == |t.entries| then t else t.(entries := Without(t.entries, i))
  }

  function Vacated(t: Table, cookie: nat): Table {
    if t.slot.Mirror? && t.slot.cookie == cookie then t.(slot := Vacant) else t
  }

  function Unadvised(t: Table, cookie: nat): Table {
    Vacated(Dropped(t, cookie), cookie)
  }

  // ----- references -----

  function Sinks(es: seq<Entry>): multiset<Sink> {
    if es == [] then multiset{} else Sinks(es[..|es| - 1]) + multiset{es[|es| - 1].sink}
  }

  function SlotSinks(slot: Slot): multiset<Sink> {
    if slot.Vacant? then multiset{} else multiset{slot.sink}
  }

  /** The references a table should hold: one for every entry, one for the legacy slot. */
  function Refs(t: Table): multiset<Sink> {
    Sinks(t.entries) + SlotSinks(t.slot)
  }

  /** The references an advise takes. */
  function Taken(t: Table, sink: Sink): multiset<Sink> {
    if !HasRoom(t) then multiset{} else multiset{sink} + if t.slot.Vacant? then multiset{sink} else multiset{}
  }

  /** The references given back with an entry, and with the slot. */
  function GivenByEntry(t: Table, cookie: nat): multiset<Sink> {
    var i := IndexOf(t.entries, cookie);
    if i == |t.entries| then multiset{} else multiset{t.entries[i].sink}
  }

  function GivenBySlot(t: Table, cookie: nat): multiset<Sink> {
    if t.slot.Mirror? && t.slot.cookie == cookie then multiset{t.slot.sink} else multiset{}
  }

  lemma SinksOfAppended(es: seq<Entry>, e: Entry)
    ensures Sinks(es + [e]) == Sinks(es) + multiset{e.sink}
  {
    assert (es + [e])[..|es|] == es;
  }

  lemma {:induction false} SinksWithout(es: seq<Entry>, i: nat)
    requires i < |es|
    ensures Sinks(es) == Sinks(Without(es, i)) + multiset{es[i].sink}
  {
    var n := |es| - 1;
    if i == n {
      assert Without(es, i) == es[..n];
    } else {
      SinksWithout(es[..n], i);
      assert Without(es, i) == Without(es[..n], i) + [es[n]];
      SinksOfAppended(Without(es[..n], i), es[n]);
    }
  }

  lemma Exchange<T>(a: multiset<T>, b: multiset<T>, x: multiset<T>, y: multiset<T>)
    ensures (a + b) + (x + y) == (a + x) + (b + y)
    ensures (a + x) + y == a + (x + y)
  {
  }

  lemma GiveBack<T>(a: multiset<T>, b: multiset<T>, x: T)
    ensures x in (a + multiset{x}) + b && ((a + multiset{x}) + b) - multiset{x} == a + b
  {
  }

  lemma NoChange<T>(a: multiset<T>)
    ensures a + multiset{} == a && a - multiset{} == a
  {
  }

  /** An advise takes exactly the references the new table should hold besides. */
  lemma AdviseConserves(t: Table, sink: Sink, iid: nat)
    ensures Refs(t) + Taken(t, sink) == Refs(Advised(t, sink, iid))
  {
    if HasRoom(t) {
      SinksOfAppended(t.entries, Entry(sink, iid, Issued(t.next)));
      var more := if t.slot.Vacant? then multiset{sink} else multiset{};
      NoChange(SlotSinks(t.slot));
      assert SlotSinks(t.slot) + more == SlotSinks(Advised(t, sink, iid).slot);
      Exchange(Sinks(t.entries), SlotSinks(t.slot), multiset{sink}, more);
    } else {
      NoChange(Refs(t));
    }
  }

  /** What is given back was held, and the rest is what the new table should hold. */
  lemma DropConserves(t: Table, cookie: nat)
    ensures Refs(t) - GivenByEntry(t, cookie) == Refs(Dropped(t, cookie))
    ensures var i := IndexOf(t.entries, cookie); i < |t.entries| ==> t.entries[i].sink in Refs(t)
  {
    var i := IndexOf(t.entries, cookie);
    if i < |t.entries| {
      SinksWithout(t.entries, i);
      GiveBack(Sinks(Without(t.entries, i)), SlotSinks(t.slot), t.entries[i].sink);
    } else {
      NoChange(Refs(t));
    }
  }

  lemma VacateConserves(t: Table, cookie: nat)
    ensures Refs(t) - GivenBySlot(t, cookie) == Refs(Vacated(t, cookie))
    ensures t.slot.Mirror? ==> t.slot.sink in Refs(t)
  {
    if t.slot.Mirror? && t.slot.cookie == cookie {
      assert (Sinks(t.entries) + multiset{t.slot.sink}) - multiset{t.slot.sink} == Sinks(t.entries);
      NoChange(Sinks(t.entries));
    } else {
      NoChange(Refs(t));
    }
  }

  /** Both releases of an unadvise are of references held at that moment. */
  predicate GivesOnlyHeld(t: Table, cookie: nat, held: multiset<Sink>) {
    var i := IndexOf(t.entries, cookie);
    && (i < |t.entries| ==> t.entries[i].sink in held)
    && (t.slot.Mirror? ==> t.slot.sink in held - GivenByEntry(t, cookie))
  }

  lemma UnadviseConserves(t: Table, cookie: nat)
    ensures GivesOnlyHeld(t, cookie, Refs(t))
    ensures Refs(t) - GivenByEntry(t, cookie) - GivenBySlot(t, cookie) == Refs(Unadvised(t, cookie))
  {
    DropConserves(t, cookie);
    VacateConserves(Dropped(t, cookie), cookie);
  }

  // ----- the invariant -----

  predicate CookiesInRange(es: seq<Entry>) {
    forall i :: 0 <= i < |es| ==> 0 < es[i].cookie <= LAST_COOKIE
  }

  /** The entry that the slot mirrors. */
  ghost predicate MirroredAt(t: Table, i: nat) {
    && t.slot.Mirror? && i < |t.entries|
    && t.entries[i] == Entry(t.slot.sink, t.slot.iid, t.slot.cookie)
  }

  ghost predicate Mirrored(t: Table) {
    t.slot.Mirror? ==> exists i :: MirroredAt(t, i)
  }

  ghost predicate Inv(t: Table) {
    |t.entries| <= SOURCE_SINK_MAX && t.next <= LAST_COOKIE && CookiesInRange(t.entries) && Mirrored(t)
  }

  lemma AdviseKeepsInv(t: Table, sink: Sink, iid: nat)
    requires Inv(t)
    ensures Inv(Advised(t, sink, iid))
  {
    var u := Advised(t, sink, iid);
    if t.slot.Mirror? {
      var i :| MirroredAt(t, i);
      assert MirroredAt(u, i);
    } else if HasRoom(t) {
      assert MirroredAt(u, |t.entries|);
    }
  }

  lemma UnadviseKeepsInv(t: Table, cookie: nat)
    requires Inv(t)
    ensures Inv(Unadvised(t, cookie))
  {
    var k, u := IndexOf(t.entries, cookie), Unadvised(t, cookie);
    if t.slot.Mirror? && t.slot.cookie != cookie {
      var i :| MirroredAt(t, i);
      assert MirroredAt(u, if k == |t.entries| || i < k then i else i - 1);
    }
  }

  /** The slot never decides a look-up: whatever it could offer is an entry as well. */
  lemma SlotNeverDecides(t: Table, iid: nat)
    requires Inv(t)
    ensures Found(t, iid) == Found(t.(slot := Vacant), iid)
    ensures Found(t, iid).Some? <==> exists i :: 0 <= i < |t.entries| && t.entries[i].iid == iid
  {
    if t.slot.Mirror? {
      var i: nat :| MirroredAt(t, i);
      assert t.entries[i].iid == t.slot.iid;
    }
  }

  // ----- the class -----

  class Source {
    const sinks: array<Entry>
    var sinkCount: nat
    var legacy: Slot
    var nextCookie: nat
    var refs: nat
    /** References taken from the sinks and not given back. */
    var held: multiset<Sink>

    ghost predicate Shaped()
      reads this
    {
      sinks.Length == SOURCE_SINK_MAX && sinkCount <= SOURCE_SINK_MAX
    }

    ghost predicate Valid()
      reads this, sinks
    {
      Shaped() && Inv(View()) && held == Refs(View())
    }

    ghost function View(): Table
      requires Shaped()
      reads this, sinks
    {
      Table(sinks[..sinkCount], legacy, nextCookie)
    }

    constructor ()
      ensures Valid() && fresh(sinks) && refs == 1 && View() == EMPTY_TABLE && held == multiset{}
    {
      sinks := new Entry[SOURCE_SINK_MAX](i => Entry(0, 0, 0));
      sinkCount, legacy, nextCookie, refs, held := 0, Vacant, 1, 1, multiset{};
    }

    method AddRefSink(sink: Sink)
      modifies `held
      ensures held == old(held) + multiset{sink}
    {
      held := held + multiset{sink};
    }

    /** Only a reference that was taken is ever given back. */
    method ReleaseSink(sink: Sink)
      requires sink in held
      modifies `held
      ensures held == old(held) - multiset{sink}
    {
      held := held - multiset{sink};
    }

    method NextCookie() returns (cookie: nat)
      modifies `nextCookie
      ensures cookie == old(nextCookie) && nextCookie == Bump(cookie)
    {
      cookie := nextCookie;
      nextCookie := if nextCookie >= LAST_COOKIE then 0 else nextCookie + 1;
    }

    method TakeCookie() returns (cookie: nat)
      modifies `nextCookie
      ensures cookie == Issued(old(nextCookie)) && nextCookie == Bump(cookie)
    {
      cookie := NextCookie();
      if cookie == 0 {
        cookie := NextCookie();
      }
    }

    method AdviseSink(sink: Sink, iid: nat) returns (ok: bool, cookie: nat)
      requires Valid()
      modifies this, sinks
      ensures Valid() && refs == old(refs) && View() == Advised(old(View()), sink, iid)
      ensures ok == HasRoom(old(View())) && (ok ==> cookie == Issued(old(nextCookie)))
      ensures held == old(held) + Taken(old(View()), sink)
    {
      AdviseKeepsInv(View(), sink, iid);
      AdviseConserves(View(), sink, iid);
      ok, cookie := Insert(sink, iid);
    }

    method Insert(sink: Sink, iid: nat) returns (ok: bool, cookie: nat)
      requires Shaped()
      modifies this, sinks
      ensures Shaped() && refs == old(refs) && View() == Advised(old(View()), sink, iid)
      ensures ok == HasRoom(old(View())) && (ok ==> cookie == Issued(old(nextCookie)))
      ensures held == old(held) + Taken(old(View()), sink)
    {
      cookie := 0;
      if sinkCount >= SOURCE_SINK_MAX {
        NoChange(held);
        return false, cookie;
      }
      Exchange(held, held, multiset{sink}, if legacy.Vacant? then multiset{sink} else multiset{});
      cookie := TakeCookie();
      sinks[sinkCount] := Entry(sink, iid, cookie);
      assert sinks[..sinkCount + 1] == old(sinks[..sinkCount]) + [Entry(sink, iid, cookie)];
      AddRefSink(sink);
      FillSlot(sink, iid, cookie);
      sinkCount := sinkCount + 1;
      ok := true;
    }

    method FillSlot(sink: Sink, iid: nat, cookie: nat)
      modifies `legacy, `held
      ensures legacy == if old(legacy).Vacant? then Mirror(sink, iid, cookie) else old(legacy)
      ensures held == old(held) + if old(legacy).Vacant? then multiset{sink} else multiset{}
    {
      if legacy.Vacant? {
        legacy := Mirror(sink, iid, cookie);
        AddRefSink(sink);
      } else {
        NoChange(held);
      }
    }

    /** Searches for the cookie; an entry found is released and the ones behind it move
        down by one.  Then the legacy slot is cleared if it carries the cookie. */
    method UnadviseSink(cookie: nat)
      requires Valid()
      modifies this, sinks
      ensures Valid() && refs == old(refs) && View() == Unadvised(old(View()), cookie)
      ensures held == old(held) - GivenByEntry(old(View()), cookie) - GivenBySlot(old(View()), cookie)
    {
      UnadviseKeepsInv(View(), cookie);
      UnadviseConserves(View(), cookie);
      Remove(cookie);
    }

    method Remove(cookie: nat)
      requires Shaped() && GivesOnlyHeld(View(), cookie, held)
      modifies this, sinks
      ensures Shaped() && refs == old(refs) && View() == Unadvised(old(View()), cookie)
      ensures held == old(held) - GivenByEntry(old(View()), cookie) - GivenBySlot(old(View()), cookie)
    {
      DropEntry(cookie);
      VacateSlot(cookie);
    }

    method DropEntry(cookie: nat)
      requires Shaped()
      requires var i := IndexOf(sinks[..sinkCount], cookie); i < sinkCount ==> sinks[i].sink in held
      modifies `sinkCount, `held, sinks
      ensures Shaped() && View() == Dropped(old(View()), cookie)
      ensures held == old(held) - GivenByEntry(old(View()), cookie)
    {
      var i := Find(cookie);
      if i < sinkCount {
        ReleaseSink(sinks[i].sink);
        CloseGap(i);
        sinkCount := sinkCount - 1;
      } else {
        NoChange(held);
      }
    }

    method VacateSlot(cookie: nat)
      requires Shaped() && (legacy.Mirror? ==> legacy.sink in held)
      modifies `legacy, `held
      ensures Shaped() && View() == Vacated(old(View()), cookie)
      ensures held == old(held) - GivenBySlot(old(View()), cookie)
    {
      if legacy.Mirror? && legacy.cookie == cookie {
        ReleaseSink(legacy.sink);
        legacy := Vacant;
      } else {
        NoChange(held);
      }
    }

    method Find(cookie: nat) returns (i: nat)
      requires sinkCount <= sinks.Length
      ensures i == IndexOf(sinks[..sinkCount], cookie)
    {
      i := 0;
      ghost var es := sinks[..sinkCount];
      while i < sinkCount && sinks[i].cookie != cookie
        invariant i <= sinkCount
        invariant i + IndexOf(es[i..], cookie) == IndexOf(es, cookie)
      {
        assert es[i..][1..] == es[i + 1..];
        i := i + 1;
      }
    }

    method FindSink(iid: nat) returns (found: Option<Sink>)
      requires Shaped()
      ensures found == Found(View(), iid)
    {
      found := None;
      ghost var es := sinks[..sinkCount];
      var i := 0;
      while i < sinkCount && sinks[i].iid != iid
        invariant i <= sinkCount
        invariant forall j :: 0 <= j < i ==> es[j].iid != iid
      {
        i := i + 1;
      }
      if i < sinkCount {
        found := Some(sinks[i].sink);
      } else if legacy.Mirror? && legacy.iid == iid {
        found := Some(legacy.sink);
      }
    }

    method CloseGap(k: nat)
      requires k < sinkCount <= sinks.Length
      modifies sinks
      ensures sinks[..sinkCount - 1] == Without(old(sinks[..sinkCount]), k)
    {
      ghost var es := sinks[..sinkCount];
      var i := k;
      while i + 1 < sinkCount
        invariant k <= i < sinkCount
        invariant forall j :: 0 <= j < k ==> sinks[j] == es[j]
        invariant forall j :: k <= j < i ==> sinks[j] == es[j + 1]
        invariant forall j :: i <= j < sinkCount ==> sinks[j] == es[j]
      {
        sinks[i] := sinks[i + 1];
        i := i + 1;
      }
    }

    /** Gives up one reference to the source; with the last one every sink is released,
        and nothing is held any more. */
    method Release()
      requires Valid() && refs > 0
      modifies `refs, `held
      ensures refs == old(refs) - 1
      ensures held == if refs == 0 then multiset{} else old(held)
    {
      refs := refs - 1;
      if refs == 0 {
        ReleaseEntries();
        if legacy.Mirror? {
          ReleaseSink(legacy.sink);
        }
      }
    }

    method ReleaseEntries()
      requires Shaped() && held == Refs(View())
      modifies `held
      ensures held == SlotSinks(legacy)
    {
      ghost var left := sinks[..sinkCount];
      for i := 0 to sinkCount
        invariant left == sinks[i..sinkCount]
        invariant Covers(held, left, SlotSinks(legacy))
      {
        FirstIsHeld(held, left, SlotSinks(legacy));
        ReleaseSink(sinks[i].sink);
        left := left[1..];
      }
      NothingCovered(held, left, SlotSinks(legacy));
    }
  }

  predicate Covers(held: multiset<Sink>, es: seq<Entry>, more: multiset<Sink>) {
    held == Sinks(es) + more
  }

  lemma FirstIsHeld(held: multiset<Sink>, es: seq<Entry>, more: multiset<Sink>)
    requires Covers(held, es, more) && es != []
    ensures es[0].sink in held && Covers(held - multiset{es[0].sink}, es[1..], more)
  {
    SinksWithout(es, 0);
    assert Without(es, 0) == es[1..];
    GiveBack(Sinks(es[1..]), more, es[0].sink);
  }

  lemma NothingCovered(held: multiset<Sink>, es: seq<Entry>, more: multiset<Sink>)
    requires Covers(held, es, more) && es == []
    ensures held == more
  {
  }

  // ----- single operations -----

  function Count(es: seq<Entry>, sink: Sink): nat {
    if es == [] then 0 else Count(es[..|es| - 1], sink) + if es[|es| - 1].sink == sink then 1 else 0
  }

  /** Sink by sink: as many references as entries, and one more for the legacy slot. */
  lemma {:induction false} ReferencesPerSink(es: seq<Entry>, slot: Slot, next: nat, sink: Sink)
    ensures Refs(Table(es, slot, next))[sink]
      == Count(es, sink) + if slot.Mirror? && slot.sink == sink then 1 else 0
  {
    if es != [] {
      ReferencesPerSink(es[..|es| - 1], slot, next, sink);
    }
  }

  predicate Distinct(es: seq<Entry>) {
    forall i, j :: 0 <= i < j < |es| ==> es[i].cookie != es[j].cookie
  }

  predicate Unused(es: seq<Entry>, cookie: nat) {
    forall i :: 0 <= i < |es| ==> es[i].cookie != cookie
  }

  /** Cookies stay distinct exactly when the next one is not in use. */
  lemma DistinctExactlyWhenUnused(t: Table, sink: Sink, iid: nat)
    requires Distinct(t.entries) && HasRoom(t)
    ensures Distinct(Advised(t, sink, iid).entries) <==> Unused(t.entries, Issued(t.next))
  {
    var es := Advised(t, sink, iid).entries;
    assert es[|t.entries|].cookie == Issued(t.next);
    assert forall i :: 0 <= i < |t.entries| ==> es[i] == t.entries[i];
  }

  lemma IndexIsUnique(es: seq<Entry>, k: nat)
    requires k < |es| && forall j :: 0 <= j < k ==> es[j].cookie != es[k].cookie
    ensures IndexOf(es, es[k].cookie) == k
  {
  }

  /** Taking back a sink right after giving it restores everything but the counter. */
  lemma AdviseIsUndone(t: Table, sink: Sink, iid: nat)
    requires Mirrored(t) && HasRoom(t) && Unused(t.entries, Issued(t.next))
    ensures Unadvised(Advised(t, sink, iid), Issued(t.next)) == t.(next := Bump(Issued(t.next)))
  {
    var u := Advised(t, sink, iid);
    IndexIsUnique(u.entries, |t.entries|);
    assert Without(u.entries, |t.entries|) == t.entries;
    if t.slot.Mirror? {
      var i :| MirroredAt(t, i);
    }
  }

  /** The entries with another cookie, in their order. */
  function Others(es: seq<Entry>, cookie: nat): seq<Entry> {
    if es == [] then []
    else (if es[0].cookie == cookie then [] else [es[0]]) + Others(es[1..], cookie)
  }

  lemma {:induction false} NoneAmongOthers(es: seq<Entry>, cookie: nat)
    requires Unused(es, cookie)
    ensures Others(es, cookie) == es
  {
    if es != [] {
      NoneAmongOthers(es[1..], cookie);
    }
  }

  lemma {:induction false} OneIsLeftOut(es: seq<Entry>, k: nat)
    requires Distinct(es) && k < |es|
    ensures Others(es, es[k].cookie) == Without(es, k)
  {
    if k == 0 {
      NoneAmongOthers(es[1..], es[0].cookie);
    } else {
      OneIsLeftOut(es[1..], k - 1);
      assert Without(es, k) == [es[0]] + Without(es[1..], k - 1);
    }
  }

  /** With distinct cookies, taking back removes the entry with the cookie and no other. */
  lemma UnadviseRemovesOne(t: Table, cookie: nat)
    requires Distinct(t.entries)
    ensures Unadvised(t, cookie).entries == Others(t.entries, cookie)
  {
    var k := IndexOf(t.entries, cookie);
    if k < |t.entries| {
      OneIsLeftOut(t.entries, k);
    } else {
      NoneAmongOthers(t.entries, cookie);
    }
  }

  // ----- runs -----

  datatype Op = Advise(sink: Sink, iid: nat) | Unadvise(cookie: nat)

  function Apply(t: Table, op: Op): Table {
    match op
    case Advise(sink, iid) => Advised(t, sink, iid)
    case Unadvise(cookie) => Unadvised(t, cookie)
  }

  function Run(t: Table, ops: seq<Op>): Table
    decreases |ops|
  {
    if ops == [] then t else Run(Apply(t, ops[0]), ops[1..])
  }

  /** The references held after an operation, by what it takes and gives back. */
  function Charged(t: Table, held: multiset<Sink>, op: Op): multiset<Sink> {
    match op
    case Advise(sink, _) => held + Taken(t, sink)
    case Unadvise(cookie) => held - GivenByEntry(t, cookie) - GivenBySlot(t, cookie)
  }

  function Account(t: Table, held: multiset<Sink>, ops: seq<Op>): multiset<Sink>
    decreases |ops|
  {
    if ops == [] then held else Account(Apply(t, ops[0]), Charged(t, held, ops[0]), ops[1..])
  }

  lemma ApplyConserves(t: Table, op: Op)
    ensures Charged(t, Refs(t), op) == Refs(Apply(t, op))
  {
    match op
    case Advise(sink, iid) => AdviseConserves(t, sink, iid);
    case Unadvise(cookie) =>
      DropConserves(t, cookie);
      VacateConserves(Dropped(t, cookie), cookie);
  }

  lemma ApplyKeepsInv(t: Table, op: Op)
    requires Inv(t)
    ensures Inv(Apply(t, op))
  {
    match op
    case Advise(sink, iid) => AdviseKeepsInv(t, sink, iid);
    case Unadvise(cookie) => UnadviseKeepsInv(t, cookie);
  }

  /** Any mix of giving and taking back holds exactly one reference per entry and one for
      the legacy slot, mirrors the slot in the table and never hands out cookie zero. */
  lemma {:induction false} RunConserves(t: Table, ops: seq<Op>)
    requires Inv(t)
    ensures Inv(Run(t, ops)) && Account(t, Refs(t), ops) == Refs(Run(t, ops))
    decreases |ops|
  {
    if ops != [] {
      ApplyKeepsInv(t, ops[0]);
      ApplyConserves(t, ops[0]);
      RunConserves(Apply(t, ops[0]), ops[1..]);
    }
  }

  /** How many cookies a run hands out. */
  function Handed(t: Table, op: Op): nat {
    if op.Advise? && HasRoom(t) then 1 else 0
  }

  function Issues(t: Table, ops: seq<Op>): nat
    decreases |ops|
  {
    if ops == [] then 0 else Handed(t, ops[0]) + Issues(Apply(t, ops[0]), ops[1..])
  }

  predicate From1To(es: seq<Entry>, n: nat) {
    forall i :: 0 <= i < |es| ==> 1 <= es[i].cookie <= n
  }

  /** So far n cookies were handed out, from 1 upwards. */
  predicate Numbered(t: Table, n: nat) {
    n <= LAST_COOKIE && t.next == Bump(n) && Distinct(t.entries) && From1To(t.entries, n)
  }

  lemma AdviseNumbers(t: Table, sink: Sink, iid: nat, n: nat)
    requires Numbered(t, n) && n < LAST_COOKIE && HasRoom(t)
    ensures Numbered(Advised(t, sink, iid), n + 1)
  {
    DistinctExactlyWhenUnused(t, sink, iid);
  }

  lemma WithoutNumbers(es: seq<Entry>, k: nat, n: nat)
    requires k < |es| && Distinct(es) && From1To(es, n)
    ensures Distinct(Without(es, k)) && From1To(Without(es, k), n)
  {
    var fs := Without(es, k);
    forall i | 0 <= i < |fs| ensures 1 <= fs[i].cookie <= n {
      assert fs[i] == if i < k then es[i] else es[i + 1];
    }
    forall i, j | 0 <= i < j < |fs| ensures fs[i].cookie != fs[j].cookie {
      assert fs[i] == if i < k then es[i] else es[i + 1];
      assert fs[j] == if j < k then es[j] else es[j + 1];
    }
  }

  lemma UnadviseNumbers(t: Table, cookie: nat, n: nat)
    requires Numbered(t, n)
    ensures Numbered(Unadvised(t, cookie), n)
  {
    var k := IndexOf(t.entries, cookie);
    if k < |t.entries| {
      WithoutNumbers(t.entries, k, n);
    }
  }

  lemma ApplyNumbers(t: Table, op: Op, n: nat)
    requires Numbered(t, n) && n + Handed(t, op) <= LAST_COOKIE
    ensures Numbered(Apply(t, op), n + Handed(t, op))
  {
    match op
    case Advise(sink, iid) =>
      if HasRoom(t) {
        AdviseNumbers(t, sink, iid, n);
      }
    case Unadvise(cookie) => UnadviseNumbers(t, cookie, n);
  }

  /** Below the wrap of the counter, the cookies of live sinks are distinct. */
  lemma {:induction false} CookiesAreDistinct(t: Table, ops: seq<Op>, n: nat)
    requires Numbered(t, n) && n + Issues(t, ops) <= LAST_COOKIE
    ensures Numbered(Run(t, ops), n + Issues(t, ops))
    decreases |ops|
  {
    if ops != [] {
      ApplyNumbers(t, ops[0], n);
      CookiesAreDistinct(Apply(t, ops[0]), ops[1..], n + Handed(t, ops[0]));
    }
  }

  // ----- beyond the wrap -----

  lemma {:induction false} RunOfConcat(t: Table, a: seq<Op>, b: seq<Op>)
    ensures Run(t, a + b) == Run(Run(t, a), b)
    ensures Issues(t, a + b) == Issues(t, a) + Issues(Run(t, a), b)
    decreases |a|
  {
    if a == [] {
      assert a + b == b;
    } else {
      assert (a + b)[1..] == a[1..] + b;
      RunOfConcat(Apply(t, a[0]), a[1..], b);
    }
  }

  /** A table in which the first sink ever given is still there, after n cookies. */
  function FirstStays(sink: Sink, n: nat): Table {
    Table([Entry(sink, 0, 1)], Mirror(sink, 0, 1), Bump(n))
  }

  /** Another sink comes and goes k times. */
  function Churn(n: nat, k: nat): seq<Op>
    decreases k
  {
    if k == 0 then [] else [Advise(0, 0)] + ([Unadvise(n + 1)] + Churn(n + 1, k - 1))
  }

  lemma ComesAndGoes(sink: Sink, n: nat)
    requires 1 <= n < LAST_COOKIE
    ensures Unadvised(Advised(FirstStays(sink, n), 0, 0), n + 1) == FirstStays(sink, n + 1)
  {
    assert MirroredAt(FirstStays(sink, n), 0);
    AdviseIsUndone(FirstStays(sink, n), 0, 0);
  }

  lemma RunTwo(t: Table, a: Op, b: Op, rest: seq<Op>)
    ensures Run(t, [a] + ([b] + rest)) == Run(Apply(Apply(t, a), b), rest)
    ensures Issues(t, [a] + ([b] + rest)) == Handed(t, a) + Handed(Apply(t, a), b) + Issues(Apply(Apply(t, a), b), rest)
  {
    var u := Apply(t, a);
    assert ([a] + ([b] + rest))[1..] == [b] + rest && ([b] + rest)[1..] == rest;
    assert Run(u, [b] + rest) == Run(Apply(u, b), rest);
    assert Issues(u, [b] + rest) == Handed(u, b) + Issues(Apply(u, b), rest);
  }

  lemma ChurnStep(sink: Sink, n: nat, k: nat)
    requires 1 <= n && 0 < k && n + k <= LAST_COOKIE
    ensures var t, u := FirstStays(sink, n), FirstStays(sink, n + 1);
      && Run(t, Churn(n, k)) == Run(u, Churn(n + 1, k - 1))
      && Issues(t, Churn(n, k)) == 1 + Issues(u, Churn(n + 1, k - 1))
  {
    ComesAndGoes(sink, n);
    RunTwo(FirstStays(sink, n), Advise(0, 0), Unadvise(n + 1), Churn(n + 1, k - 1));
  }

  lemma {:induction false} ChurnOnlyCounts(sink: Sink, n: nat, k: nat)
    requires 1 <= n && n + k <= LAST_COOKIE
    ensures Run(FirstStays(sink, n), Churn(n, k)) == FirstStays(sink, n + k)
    ensures Issues(FirstStays(sink, n), Churn(n, k)) == k
    decreases k
  {
    if k > 0 {
      ChurnStep(sink, n, k);
      ChurnOnlyCounts(sink, n + 1, k - 1);
    }
  }

  lemma FirstGiven(sink: Sink)
    ensures Run(EMPTY_TABLE, [Advise(sink, 0)]) == FirstStays(sink, 1)
    ensures Issues(EMPTY_TABLE, [Advise(sink, 0)]) == 1
  {
    assert [Advise(sink, 0)][1..] == [];
    assert EMPTY_TABLE.entries + [Entry(sink, 0, 1)] == [Entry(sink, 0, 1)];
  }

  lemma GivenAgain(sink: Sink, last: nat)
    requires last == LAST_COOKIE
    ensures var t := FirstStays(sink, last);
      !Distinct(Run(t, [Advise(sink, 0)]).entries) && Issues(t, [Advise(sink, 0)]) == 1
  {
    var t := FirstStays(sink, last);
    assert [Advise(sink, 0)][1..] == [];
    assert t.entries[0].cookie == Issued(t.next);
    DistinctExactlyWhenUnused(t, sink, 0);
  }

  /** The bound is exact: with the very next cookie, a run can hand out one that is still
      in use. */
  lemma CookieIsReused(sink: Sink, last: nat)
    requires last == LAST_COOKIE
    ensures var ops := [Advise(sink, 0)] + Churn(1, last - 1) + [Advise(sink, 0)];
      Issues(EMPTY_TABLE, ops) == last + 1 && !Distinct(Run(EMPTY_TABLE, ops).entries)
  {
    var give, churn := [Advise(sink, 0)], Churn(1, last - 1);
    FirstGiven(sink);
    RunOfConcat(EMPTY_TABLE, give, churn);
    ChurnOnlyCounts(sink, 1, last - 1);
    RunOfConcat(EMPTY_TABLE, give + churn, give);
    GivenAgain(sink, last);
  }

  // ----- the table in numbers -----

  /** A sink joins at the end under the next cookie, which is never zero, and after the last
      32-bit number comes one again; the slot takes the first sink only; sixteen are too many. */
  lemma AdviseJoins(t: Table, sink: Sink, iid: nat)
    requires t.next <= 0xFFFF_FFFF
    ensures var u := Advised(t, sink, iid);
      && (|t.entries| >= 16 ==> u == t)
      && (|t.entries| < 16 ==>
            var cookie := if t.next == 0 then 1 else t.next;
            && u.entries == t.entries + [Entry(sink, iid, cookie)]
            && u.slot == (if t.slot.Vacant? then Mirror(sink, iid, cookie) else t.slot)
            && (cookie < 0xFFFF_FFFF ==> u.next == cookie + 1)
            && (cookie == 0xFFFF_FFFF ==> u.next == 0 && Issued(u.next) == 1))
  {
  }

  function AdviseAll(t: Table, sinks: seq<Sink>): Table
    decreases |sinks|
  {
    if sinks == [] then t else AdviseAll(Advised(t, sinks[0], 0), sinks[1..])
  }

  lemma {:induction false} AdviseAllNumbers(t: Table, sinks: seq<Sink>)
    requires 0 < t.next && t.next + |sinks| <= 0xFFFF_FFFF && |t.entries| + |sinks| <= 16
    ensures var u, n := AdviseAll(t, sinks), |t.entries|;
      && |u.entries| == n + |sinks| && u.entries[..n] == t.entries
      && forall k :: 0 <= k < |sinks| ==> u.entries[n + k] == Entry(sinks[k], 0, t.next + k)
    decreases |sinks|
  {
    if sinks != [] {
      var v, n := Advised(t, sinks[0], 0), |t.entries|;
      AdviseAllNumbers(v, sinks[1..]);
      var u := AdviseAll(t, sinks);
      assert v.entries[n] == Entry(sinks[0], 0, t.next);
      assert u.entries[..n] == u.entries[..n + 1][..n] && u.entries[n] == u.entries[..n + 1][n];
      forall k | 0 <= k < |sinks| ensures u.entries[n + k] == Entry(sinks[k], 0, t.next + k) {
        if k > 0 {
          assert u.entries[n + 1 + (k - 1)] == Entry(sinks[1..][k - 1], 0, v.next + (k - 1));
        }
      }
    }
  }

  /** From an empty table the k-th sink gets cookie k. */
  lemma FirstCookies(sinks: seq<Sink>, k: nat)
    requires |sinks| <= 16 && 1 <= k <= |sinks|
    ensures var u := AdviseAll(EMPTY_TABLE, sinks);
      |u.entries| == |sinks| && u.entries[k - 1] == Entry(sinks[k - 1], 0, k)
  {
    AdviseAllNumbers(EMPTY_TABLE, sinks);
    assert AdviseAll(EMPTY_TABLE, sinks).entries[0 + (k - 1)] == Entry(sinks[k - 1], 0, 1 + (k - 1));
  }

  predicate FirstAt(es: seq<Entry>, cookie: nat, k: nat)
    requires k < |es|
  {
    es[k].cookie == cookie && forall j :: 0 <= j < k ==> es[j].cookie != cookie
  }

  /** Taking back removes the first entry with the cookie and no other, also where a cookie
      occurs twice, and empties the slot if it carries the cookie. */
  lemma UnadviseTakesTheFirst(t: Table, cookie: nat)
    ensures var u := Unadvised(t, cookie);
      && (forall k :: 0 <= k < |t.entries| && FirstAt(t.entries, cookie, k) ==>
            u.entries == t.entries[..k] + t.entries[k + 1..])
      && ((forall k :: 0 <= k < |t.entries| ==> t.entries[k].cookie != cookie) ==> u.entries == t.entries)
      && (u.slot == if t.slot.Mirror? && t.slot.cookie == cookie then Vacant else t.slot)
      && u.next == t.next
  {
  }

  /** A look-up by identifier gives the first sink advised under it. */
  lemma FirstSinkIsFound(t: Table, iid: nat, k: nat)
    requires k < |t.entries| && t.entries[k].iid == iid && forall j :: 0 <= j < k ==> t.entries[j].iid != iid
    ensures Found(t, iid) == Some(t.entries[k].sink)
  {
  }
}
