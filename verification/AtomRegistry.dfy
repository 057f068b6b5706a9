/** The registry that gives every GUID a small number, its atom. */
module AtomRegistry {
  import opened Search
  import opened Wrappers

  const GUID_ATOM_MAX := 256

  /** GUIDs are only compared. */
  type Guid = nat

  datatype Entry = Entry(guid: Guid, atom: nat)

  // ----- the table as a value -----

  function ByGuid(es: seq<Entry>, guid: Guid): nat {
    FirstWith(es, (e: Entry) => e.guid, guid)
  }

  function ByAtom(es: seq<Entry>, atom: nat): nat {
    FirstWith(es, (e: Entry) => e.atom, atom)
  }

  function AtomOf(es: seq<Entry>, guid: Guid): Option<nat> {
    var i := ByGuid(es, guid);
    if i < |es| then Some(es[i].atom) else None
  }

  function GuidOf(es: seq<Entry>, atom: nat): Option<Guid> {
    var i := ByAtom(es, atom);
    if i < |es| then Some(es[i].guid) else None
  }

  /** Registering adds an entry only for a new GUID and only while there is room. */
  function Registered(es: seq<Entry>, guid: Guid): seq<Entry> {
    if AtomOf(es, guid).Some? || |es| >= GUID_ATOM_MAX then es else es + [Entry(guid, |es| + 1)]
  }

  /** Atoms count up from one and no GUID occurs twice. */
  predicate Inv(es: seq<Entry>) {
    && |es| <= GUID_ATOM_MAX
    && (forall i :: 0 <= i < |es| ==> es[i].atom == i + 1)
    && forall i, j :: 0 <= i < j < |es| ==> es[i].guid != es[j].guid
  }

  // ----- the class -----

  class Registry {
    const atoms: array<Entry>
    var count: nat
    var nextAtom: nat

    ghost predicate Valid()
      reads this, atoms
    {
      atoms.Length == GUID_ATOM_MAX && count <= GUID_ATOM_MAX && nextAtom == count + 1 && Inv(View())
    }

    ghost function View(): seq<Entry>
      requires count <= atoms.Length
      reads this, atoms
    {
      atoms[..count]
    }

    constructor ()
      ensures Valid() && fresh(atoms) && View() == []
    {
      atoms := new Entry[GUID_ATOM_MAX](i => Entry(0, 0));
      count, nextAtom := 0, 1;
    }

    method FindGuid(guid: Guid) returns (i: nat)
      requires count <= atoms.Length
      ensures i == ByGuid(View(), guid)
    {
      i := 0;
      ghost var es := View();
      while i < count && atoms[i].guid != guid
        invariant i <= count
        invariant i + ByGuid(es[i..], guid) == ByGuid(es, guid)
      {
        assert es[i..][1..] == es[i + 1..];
        i := i + 1;
      }
    }

    method FindAtom(atom: nat) returns (i: nat)
      requires count <= atoms.Length
      ensures i == ByAtom(View(), atom)
    {
      i := 0;
      ghost var es := View();
      while i < count && atoms[i].atom != atom
        invariant i <= count
        invariant i + ByAtom(es[i..], atom) == ByAtom(es, atom)
      {
        assert es[i..][1..] == es[i + 1..];
        i := i + 1;
      }
    }

    /** The atom of the GUID, old or new; none if a new one finds the table full. */
    method RegisterGUID(guid: Guid) returns (atom: Option<nat>)
      requires Valid()
      modifies this, atoms
      ensures Valid() && View() == Registered(old(View()), guid) && atom == AtomOf(View(), guid)
    {
      RegisterKeepsInv(View(), guid);
      var i := FindGuid(guid);
      if i < count {
        return Some(atoms[i].atom);
      }
      if count >= GUID_ATOM_MAX {
        return None;
      }
      AddedIsFound(View(), guid);
      atoms[count] := Entry(guid, nextAtom);
      nextAtom := nextAtom + 1;
      atom := Some(atoms[count].atom);
      count := count + 1;
      assert View() == old(View()) + [Entry(guid, old(count) + 1)];
    }

    method GetGUID(atom: nat) returns (guid: Option<Guid>)
      requires Valid()
      ensures guid == GuidOf(View(), atom)
    {
      var i := FindAtom(atom);
      guid := if i < count then Some(atoms[i].guid) else None;
    }

    method IsEqualTfGuidAtom(atom: nat, guid: Guid) returns (equal: bool)
      requires Valid()
      ensures equal <==> AtomOf(View(), guid) == Some(atom)
    {
      AtomAndGuidAreInverse(View(), guid, atom);
      var i := FindAtom(atom);
      equal := i < count && atoms[i].guid == guid;
    }
  }

  // ----- a growing bijection -----

  lemma {:induction false} AddedIsFound(es: seq<Entry>, guid: Guid)
    requires AtomOf(es, guid).None?
    ensures AtomOf(es + [Entry(guid, |es| + 1)], guid) == Some(|es| + 1)
  {
    var fs := es + [Entry(guid, |es| + 1)];
    assert forall j :: 0 <= j < |es| ==> fs[j] == es[j];
    assert fs[|es|].guid == guid;
  }

  lemma RegisterKeepsInv(es: seq<Entry>, guid: Guid)
    requires Inv(es)
    ensures Inv(Registered(es, guid))
  {
  }

  /** The two look-ups are inverse, both ways: one finds the atom exactly when the other
      finds the GUID. */
  lemma AtomAndGuidAreInverse(es: seq<Entry>, guid: Guid, atom: nat)
    requires Inv(es)
    ensures AtomOf(es, guid) == Some(atom) <==> GuidOf(es, atom) == Some(guid)
  {
    var i, j := ByGuid(es, guid), ByAtom(es, atom);
    if i < |es| && es[i].atom == atom {
      assert j == i;
    }
    if j < |es| && es[j].guid == guid {
      assert i == j;
    }
  }

  /** Exactly the atoms from one to the number of entries are in use. */
  lemma AtomsInUse(es: seq<Entry>, atom: nat)
    requires Inv(es)
    ensures GuidOf(es, atom).Some? <==> 1 <= atom <= |es|
  {
    if 1 <= atom <= |es| {
      assert es[atom - 1].atom == atom;
    }
  }

  /** Different GUIDs have different atoms. */
  lemma AtomsAreDistinct(es: seq<Entry>, g: Guid, h: Guid)
    requires Inv(es) && AtomOf(es, g).Some?
    ensures AtomOf(es, g) == AtomOf(es, h) <==> g == h
  {
    var atom := AtomOf(es, g).value;
    AtomAndGuidAreInverse(es, g, atom);
    AtomAndGuidAreInverse(es, h, atom);
  }

  /** Registering succeeds exactly for a known GUID or with room for a new one; a second
      time it changes nothing. */
  lemma RegisterSucceedsExactly(es: seq<Entry>, guid: Guid)
    requires Inv(es)
    ensures var after := Registered(es, guid);
      && (AtomOf(after, guid).Some? <==> AtomOf(es, guid).Some? || |es| < GUID_ATOM_MAX)
      && Registered(after, guid) == after
  {
    if AtomOf(es, guid).None? && |es| < GUID_ATOM_MAX {
      AddedIsFound(es, guid);
    }
  }

  lemma {:induction false} FoundInPrefix(es: seq<Entry>, more: seq<Entry>, guid: Guid)
    requires AtomOf(es, guid).Some?
    ensures AtomOf(es + more, guid) == AtomOf(es, guid)
  {
    if es[0].guid != guid {
      assert (es + more)[1..] == es[1..] + more;
      FoundInPrefix(es[1..], more, guid);
    }
  }

  /** The table after a series of registrations. */
  function RegisteredAll(es: seq<Entry>, guids: seq<Guid>): seq<Entry>
    decreases |guids|
  {
    if guids == [] then es else RegisteredAll(Registered(es, guids[0]), guids[1..])
  }

  /** Over every run the table only grows at its end... */
  lemma {:induction false} RunOnlyGrows(es: seq<Entry>, guids: seq<Guid>)
    requires Inv(es)
    ensures Inv(RegisteredAll(es, guids)) && es <= RegisteredAll(es, guids)
    decreases |guids|
  {
    if guids != [] {
      RegisterKeepsInv(es, guids[0]);
      RunOnlyGrows(Registered(es, guids[0]), guids[1..]);
    }
  }

  /** ...so a pairing once made is never changed, in either direction. */
  lemma PairingsArePermanent(es: seq<Entry>, guids: seq<Guid>, guid: Guid, atom: nat)
    requires Inv(es) && AtomOf(es, guid) == Some(atom)
    ensures var after := RegisteredAll(es, guids);
      AtomOf(after, guid) == Some(atom) && GuidOf(after, atom) == Some(guid)
  {
    RunOnlyGrows(es, guids);
    var after := RegisteredAll(es, guids);
    assert after == es + after[|es|..];
    FoundInPrefix(es, after[|es|..], guid);
    AtomAndGuidAreInverse(after, guid, atom);
  }

  /** Every GUID of a run is known afterwards unless the table is full by then. */
  lemma {:induction false} RunRegisters(es: seq<Entry>, guids: seq<Guid>, k: nat)
    requires Inv(es) && k < |guids|
    ensures var after := RegisteredAll(es, guids);
      AtomOf(after, guids[k]).None? ==> |after| == GUID_ATOM_MAX
    decreases |guids|
  {
    var next, rest := Registered(es, guids[0]), guids[1..];
    RegisterKeepsInv(es, guids[0]);
    RunOnlyGrows(next, rest);
    if k > 0 {
      RunRegisters(next, rest, k - 1);
    } else {
      RegisterSucceedsExactly(es, guids[0]);
      if AtomOf(next, guids[0]).Some? {
        PairingsArePermanent(next, rest, guids[0], AtomOf(next, guids[0]).value);
      }
    }
  }

  // ----- the registry in numbers -----

  /** A new GUID gets the number of entries there are then, up to 256; a full table and a known
      GUID stay as they are. */
  lemma NewGuidGetsTheNext(es: seq<Entry>, guid: Guid)
    requires Inv(es)
    ensures var known := exists i :: 0 <= i < |es| && es[i].guid == guid;
      var after := Registered(es, guid);
      && (known || |es| == 256 ==> after == es)
      && (!known && |es| < 256 ==> |after| == |es| + 1 && after[..|es|] == es && AtomOf(after, guid) == Some(|after|))
  {
    var i := ByGuid(es, guid);
    if i == |es| && |es| < 256 {
      AddedIsFound(es, guid);
    }
  }

  /** The k-th entry is found by its GUID and by its number; nothing else is. */
  lemma EntriesAreFound(es: seq<Entry>, guid: Guid, atom: nat)
    requires Inv(es)
    ensures forall i :: 0 <= i < |es| && es[i].guid == guid ==> AtomOf(es, guid) == Some(i + 1)
    ensures 1 <= atom <= |es| ==> GuidOf(es, atom) == Some(es[atom - 1].guid)
    ensures atom == 0 || atom > |es| ==> GuidOf(es, atom) == None
    ensures (forall i :: 0 <= i < |es| ==> es[i].guid != guid) ==> AtomOf(es, guid) == None
  {
    if 1 <= atom <= |es| {
      assert es[atom - 1].atom == atom;
    }
  }
}
