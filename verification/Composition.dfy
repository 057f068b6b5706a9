/** The composition buffer of a context, the range that edits it, and its commit into
    the document.  There is one range object: asking for a clone gives the same object,
    and every change of the buffer resets it to the whole buffer. */
module Composition {
  import opened Lines
  import opened TextStore
  import opened Wrappers

  const COMP_TEXT_CHARS := 256

  const VK_BACK := 0x08
  const VK_RETURN := 0x0D
  const VK_CONVERT := 0x1C
  const VK_SPACE := 0x20

  /** A context as a value: every cell of its buffer, also those behind the text. */
  datatype Comp = Comp(cells: seq<Wchar>, len: nat, active: bool, start: int, end: int, doc: Doc)

  predicate Sound(s: Comp) {
    && |s.cells| == COMP_TEXT_CHARS && s.len < COMP_TEXT_CHARS && s.cells[s.len] == 0
    && 0 <= s.start <= s.end
    && ValidDoc(s.doc)
  }

  function TextOf(s: Comp): seq<Wchar>
    requires Sound(s)
  {
    s.cells[..s.len]
  }

  // ----- the operations -----

  /** The buffer with a new length, ended there, and the range over all of it. */
  function Sized(s: Comp, cells: seq<Wchar>, len: nat): Comp
    requires len < |cells|
  {
    s.(cells := cells[len := 0], len := len, start := 0, end := len)
  }

  /** Starting ends the text at once but leaves the range as it was. */
  function Started(s: Comp): Comp
    requires Sound(s)
  {
    s.(cells := s.cells[0 := 0], len := 0, active := true)
  }

  function WithChar(s: Comp, ch: Wchar): Comp
    requires Sound(s)
  {
    if s.len + 1 < COMP_TEXT_CHARS then Sized(s, s.cells[s.len := ch], s.len + 1) else s
  }

  datatype Key = Letter(ch: Wchar) | Back | Return | Conv | Other

  function KeyOf(vk: int): Key {
    if 0x41 <= vk <= 0x5A then Letter(vk + 0x20)
    else if 0x30 <= vk <= 0x39 then Letter(vk)
    else if vk == VK_BACK then Back
    else if vk == VK_RETURN then Return
    else if vk == VK_SPACE || vk == VK_CONVERT then Conv
    else Other
  }

  function Keyed(s: Comp, vk: int): Comp
    requires Sound(s)
  {
    match KeyOf(vk)
    case Letter(ch) => WithChar(s.(active := true), ch)
    case Back => Sized(s, s.cells, if s.len > 0 then s.len - 1 else 0).(active := true)
    case Return => s.(active := false)
    case Conv => s.(active := true)
    case Other => s
  }

  /** What the owner of the context hears. */
  datatype Heard = OnStart | OnUpdate | OnEnd

  function Changed(was: bool, now: bool): seq<Heard> {
    if now then (if was then [OnUpdate] else [OnStart, OnUpdate]) else if was then [OnEnd] else []
  }

  /** Only letters, digits and the return key are announced. */
  function Announced(active: bool, vk: int): seq<Heard> {
    match KeyOf(vk)
    case Letter(_) => Changed(active, true)
    case Return => Changed(active, false)
    case _ => []
  }

  /** The end of the range as `SetText` sees it; it can be below the start. */
  function RangeEnd(s: Comp): int {
    if s.end > s.len then s.len else s.end
  }

  /** The length the buffer would have after the range is replaced. */
  function NewLen(s: Comp, cch: nat): int {
    s.len + cch - (RangeEnd(s) - s.start)
  }

  predicate Fits(s: Comp, cch: nat) {
    NewLen(s, cch) < COMP_TEXT_CHARS
  }

  /** Room is made only if the tail has to move. */
  function Roomy(cells: seq<Wchar>, len: nat, start: nat, end: nat, cch: nat): seq<Wchar>
    requires end <= len <= |cells| && start + cch + (len - end) <= |cells|
  {
    if cch != end - start && end < len then Moved(cells, start + cch, end, len - end) else cells
  }

  function Written(s: Comp, text: seq<Wchar>): Comp
    requires Sound(s)
  {
    if !Fits(s, |text|) then s
    else Sized(s, Overwritten(Roomy(s.cells, s.len, s.start, RangeEnd(s), |text|), s.start, text), NewLen(s, |text|))
  }

  function StartShifted(s: Comp, n: int): Comp {
    var a := Max(s.start + n, 0);
    s.(start := Min(a, s.end))
  }

  function EndShifted(s: Comp, n: int): Comp {
    s.(end := Max(s.end + n, s.start))
  }

  /** Appends the buffer to the document, if it has room. */
  function Flushed(s: Comp): Doc
    requires Sound(s)
  {
    if s.len == 0 then s.doc
    else match SetTextOn(s.doc, |s.doc.text|, |s.doc.text|, TextOf(s))
      case Rejected => s.doc
      case Edited(doc, _) => doc
  }

  function Stopped(s: Comp): Comp
    requires Sound(s)
  {
    if s.active then s.(active := false, doc := Flushed(s)) else s
  }

  function Cleared(s: Comp): Comp
    requires Sound(s)
  {
    Sized(s, s.cells, 0).(active := false)
  }

  /** What a reader of the range gets into a buffer that also has to hold the end mark. */
  function RangeText(s: Comp, cchMax: nat): seq<Wchar>
    requires Sound(s) && cchMax > 0
  {
    var e := RangeEnd(s);
    var a := Min(s.start, e);
    s.cells[a..a + Min(e - a, cchMax - 1)]
  }

  /** The reference that goes with a sink. */
  function OneOf(sink: Option<nat>): multiset<nat> {
    match sink case None => multiset{} case Some(x) => multiset{x}
  }

  // ----- the class -----

  class Context {
    const compText: array<Wchar>
    const store: TextStore
    var compLen: nat
    var compActive: bool
    var start: int
    var end: int

    /** Whether the object that stands for the composition could be made. */
    const hasComposition: bool
    /** References handed out to it. */
    var compRefs: nat
    /** The sink given with the last start, and the references held to such sinks. */
    var compSink: Option<nat>
    var held: multiset<nat>
    /** What the owner's sink was told so far. */
    var heard: seq<Heard>

    ghost predicate Valid()
      reads this, compText, store, store.buf
    {
      && compText.Length == COMP_TEXT_CHARS && compLen < COMP_TEXT_CHARS && compText[compLen] == 0
      && 0 <= start <= end
      && store.Valid() && store.buf != compText
    }

    ghost function View(): Comp
      requires Valid()
      reads this, compText, store, store.buf
    {
      Comp(compText[..], compLen, compActive, start, end, store.View())
    }

    constructor (store: TextStore, hasComposition: bool)
      requires store.Valid()
      ensures Valid() && fresh(compText) && this.store == store && this.hasComposition == hasComposition
      ensures compSink == None && held == OneOf(compSink) && compRefs == 0 && heard == []
      ensures View() == Comp(seq(COMP_TEXT_CHARS, i => 0), 0, false, 0, 0, store.View())
    {
      compText := new Wchar[COMP_TEXT_CHARS](i => 0);
      this.store := store;
      this.hasComposition := hasComposition;
      compLen, compActive, start, end := 0, false, 0, 0;
      compRefs, compSink, held, heard := 0, None, multiset{}, [];
      new;
      assert compText[..] == seq(COMP_TEXT_CHARS, i => 0);
    }

    method SyncContextRanges()
      modifies `start, `end
      ensures start == 0 && end == compLen
    {
      start, end := 0, compLen;
    }

    /** Releases the sink of the start before and takes the new one. */
    method TakeSink(sink: Option<nat>)
      modifies `compSink, `held
      ensures compSink == sink && held == old(held) - OneOf(old(compSink)) + OneOf(sink)
      ensures old(held) == OneOf(old(compSink)) ==> held == OneOf(compSink)
    {
      if compSink.Some? {
        held := held - multiset{compSink.value};
      }
      compSink := sink;
      if compSink.Some? {
        held := held + multiset{compSink.value};
      }
    }

    method EmptyText()
      requires Valid()
      modifies `compActive, `compLen, compText
      ensures Valid() && View() == Started(old(View()))
    {
      compActive := true;
      compLen := 0;
      compText[0] := 0;
    }

    /** Hands out the composition object, if there is one. */
    method HandOut(sink: Option<nat>) returns (ok: bool)
      modifies `compSink, `held, `compRefs
      ensures ok == hasComposition && compSink == if ok then sink else old(compSink)
      ensures old(held) == OneOf(old(compSink)) ==> held == OneOf(compSink)
      ensures compRefs == old(compRefs) + if ok then 1 else 0
    {
      ok := hasComposition;
      if ok {
        TakeSink(sink);
        compRefs := compRefs + 1;
      }
    }

    /** Starts over; without the composition object the text is given up all the same. */
    method StartComposition(sink: Option<nat>) returns (ok: bool)
      requires Valid()
      modifies `compActive, `compLen, `compSink, `held, `compRefs, compText
      ensures Valid() && View() == Started(old(View()))
      ensures ok == hasComposition && compSink == if ok then sink else old(compSink)
      ensures old(held) == OneOf(old(compSink)) ==> held == OneOf(compSink)
      ensures compRefs == old(compRefs) + if ok then 1 else 0
    {
      EmptyText();
      ok := HandOut(sink);
    }

    /** A character of the host, if there is room for it. */
    method SyncChar(ch: Wchar)
      requires Valid()
      modifies `compLen, `start, `end, compText
      ensures Valid() && View() == if ch == 0 then old(View()) else WithChar(old(View()), ch)
    {
      if ch == 0 {
        return;
      }
      PutChar(ch);
    }

    method PutChar(ch: Wchar)
      requires Valid()
      modifies `compLen, `start, `end, compText
      ensures Valid() && View() == WithChar(old(View()), ch)
    {
      if compLen + 1 < COMP_TEXT_CHARS {
        compText[compLen] := ch;
        compLen := compLen + 1;
        compText[compLen] := 0;
        SyncContextRanges();
      }
    }

    /** A key, with whether the owner has a sink for what happens to compositions. */
    method AppendKey(vk: int, sink: bool)
      requires Valid()
      modifies `compLen, `compActive, `start, `end, `heard, compText
      ensures Valid() && View() == Keyed(old(View()), vk)
      ensures heard == old(heard) + if sink then Announced(old(compActive), vk) else []
    {
      var wasActive := compActive;
      var ch: Wchar;
      if 0x41 <= vk <= 0x5A {
        ch := vk - 0x41 + 0x61;
        compActive := true;
      } else if 0x30 <= vk <= 0x39 {
        ch := vk;
        compActive := true;
      } else if vk == VK_BACK {
        if compLen > 0 {
          compLen := compLen - 1;
        }
        compText[compLen] := 0;
        SyncContextRanges();
        compActive := true;
        return;
      } else if vk == VK_RETURN {
        compActive := false;
        Announce(wasActive, sink);
        return;
      } else if vk == VK_SPACE || vk == VK_CONVERT {
        compActive := true;
        return;
      } else {
        return;
      }
      PutChar(ch);
      Announce(wasActive, sink);
    }

    /** The sink hears of a new composition, of its text, and of its end. */
    method Announce(wasActive: bool, sink: bool)
      modifies `heard
      ensures heard == old(heard) + if sink then Changed(wasActive, compActive) else []
    {
      if sink && !wasActive && compActive {
        heard := heard + [OnStart];
      }
      if sink && compActive {
        heard := heard + [OnUpdate];
      }
      if sink && wasActive && !compActive {
        heard := heard + [OnEnd];
      }
    }

    method RangeGetText(cchMax: nat) returns (ok: bool, text: seq<Wchar>)
      requires Valid()
      ensures ok == (cchMax > 0) && text == if ok then RangeText(View(), cchMax) else []
    {
      if cchMax == 0 {
        return false, [];
      }
      var s, e := start, end;
      if e > compLen { e := compLen; }
      if s > e { s := e; }
      var n := e - s;
      if n >= cchMax { n := cchMax - 1; }
      ok, text := true, [];
      for i := 0 to n
        invariant text == compText[s..s + i]
      {
        text := text + [compText[s + i]];
      }
    }

    method RangeSetText(text: seq<Wchar>) returns (ok: bool)
      requires Valid()
      modifies `compLen, `start, `end, compText
      ensures Valid() && ok == Fits(old(View()), |text|) && View() == Written(old(View()), text)
    {
      var s, e, cch := start, end, |text|;
      if s < 0 { s := 0; }
      if e < s { e := s; }
      if e > compLen { e := compLen; }
      var delta := cch - (e - s);
      if compLen + delta >= COMP_TEXT_CHARS {
        return false;
      }
      Replace(s, e, text);
      compLen := compLen + delta;
      compText[compLen] := 0;
      end := start + cch;
      SyncContextRanges();
      ok := true;
    }

    /** Moves the tail unless it stays where it is, then copies the text in. */
    method Replace(s: nat, e: nat, text: seq<Wchar>)
      requires e <= compLen <= compText.Length && s + |text| + (compLen - e) <= compText.Length
      modifies compText
      ensures compText[..] == Overwritten(Roomy(old(compText[..]), compLen, s, e, |text|), s, text)
    {
      ghost var cells := compText[..];
      if |text| != e - s && e < compLen {
        Memmove(compText, s + |text|, e, compLen - e);
      }
      assert compText[..] == Roomy(cells, compLen, s, e, |text|);
      CopyInto(compText, s, text);
    }

    method ShiftStart(n: int)
      requires Valid()
      modifies `start
      ensures Valid() && View() == StartShifted(old(View()), n)
    {
      start := start + n;
      if start < 0 { start := 0; }
      if start > end { start := end; }
    }

    method ShiftEnd(n: int)
      requires Valid()
      modifies `end
      ensures Valid() && View() == EndShifted(old(View()), n)
    {
      end := end + n;
      if end < start { end := start; }
    }

    /** Appends the buffer to the document. */
    method FlushCompTextToStore()
      requires Valid()
      modifies store, store.buf
      ensures Valid() && View() == old(View()).(doc := Flushed(old(View())))
    {
      if compLen == 0 {
        return;
      }
      var endacp := store.len;
      var ok, change := store.SetText(endacp, endacp, compText[..compLen]);
    }

    method EndComposition()
      requires Valid()
      modifies `compActive, store, store.buf
      ensures Valid() && View() == Stopped(old(View()))
    {
      if !compActive {
        return;
      }
      compActive := false;
      FlushCompTextToStore();
    }

    method Reset()
      requires Valid()
      modifies `compLen, `compActive, `start, `end, compText
      ensures Valid() && View() == Cleared(old(View()))
    {
      compText[0] := 0;
      compLen := 0;
      compActive := false;
      SyncContextRanges();
    }
  }

  // ----- what one operation does -----

  /** A range edit is a splice of the text exactly when the range starts within it; behind
      the text, the cells in between come to light and nothing is cut. */
  lemma RangeEditIsASplice(s: Comp, text: seq<Wchar>)
    requires Sound(s) && Fits(s, |text|)
    ensures Sound(Written(s, text))
    ensures s.start <= s.len <==> |TextOf(Written(s, text))| == |TextOf(s)| + |text| - Max(RangeEnd(s) - s.start, 0)
    ensures s.start <= s.len ==> TextOf(Written(s, text)) == Spliced(TextOf(s), s.start, RangeEnd(s), text)
    ensures s.start > s.len ==> TextOf(Written(s, text)) == s.cells[..s.start] + text
  {
    var e, n := RangeEnd(s), |text|;
    var after := Overwritten(Roomy(s.cells, s.len, s.start, e, n), s.start, text);
    var len := NewLen(s, n);
    assert after[len := 0][..len] == after[..len];
    if s.start <= s.len {
      CellsAreSpliced(s.cells, s.len, s.start, e, text);
    }
  }

  /** Leaving out the move when the tail stays where it is makes no difference. */
  lemma CellsAreSpliced(cells: seq<Wchar>, len: nat, start: nat, end: nat, text: seq<Wchar>)
    requires start <= end <= len <= |cells| && start + |text| + (len - end) <= |cells|
    ensures Overwritten(Roomy(cells, len, start, end, |text|), start, text)[..len - (end - start) + |text|]
      == Spliced(cells[..len], start, end, text)
  {
    if |text| != end - start && end < len {
      SpliceByMove(cells, len, start, end, text);
    }
  }

  /** A text written over the range is read back from where it stands. */
  lemma RangeEditReadsBack(s: Comp, text: seq<Wchar>)
    requires Sound(s) && s.start <= s.len && Fits(s, |text|)
    ensures var w := Written(s, text);
      RangeText(w, COMP_TEXT_CHARS) == TextOf(w) && TextOf(w)[s.start..s.start + |text|] == text
  {
    RangeEditIsASplice(s, text);
    var t := Spliced(TextOf(s), s.start, RangeEnd(s), text);
    assert t[s.start..s.start + |text|] == text;
  }

  /** Starting empties the text but not the range nor the cells, so a range that is
      shifted before it is written can bring back characters of the text before. */
  lemma StaleCellsComeToLight(doc: Doc, a: Wchar, b: Wchar, c: Wchar, x: Wchar)
    requires ValidDoc(doc)
    ensures var cells := [a, b, c] + seq(COMP_TEXT_CHARS - 3, i => 0);
      var s := Started(Comp(cells, 3, false, 0, 3, doc));
      Sound(s) && TextOf(s) == [] && TextOf(Written(StartShifted(s, 2), [x])) == [0, b, x]
  {
    var cells: seq<Wchar> := [a, b, c] + seq(COMP_TEXT_CHARS - 3, i => 0);
    var s := StartShifted(Started(Comp(cells, 3, false, 0, 3, doc)), 2);
    RangeEditIsASplice(s, [x]);
    assert s.cells[..2] == [0, b];
  }

  // ----- runs -----

  datatype Op =
    | Start | Char(ch: Wchar) | Press(vk: int) | Write(text: seq<Wchar>)
    | ShiftS(n: int) | ShiftE(n: int) | End | Clear

  function Apply(s: Comp, op: Op): Comp
    requires Sound(s)
  {
    match op
    case Start => Started(s)
    case Char(ch) => if ch == 0 then s else WithChar(s, ch)
    case Press(vk) => Keyed(s, vk)
    case Write(text) => Written(s, text)
    case ShiftS(n) => StartShifted(s, n)
    case ShiftE(n) => EndShifted(s, n)
    case End => Stopped(s)
    case Clear => Cleared(s)
  }

  lemma FlushKeepsDoc(s: Comp)
    requires Sound(s)
    ensures ValidDoc(Flushed(s)) && Flushed(s).text == s.doc.text + Accepted(s)
  {
    var n := |s.doc.text|;
    assert s.doc.text[..n] == s.doc.text && s.doc.text[n..] == [];
    assert s.doc.text + [] == s.doc.text;
  }

  /** The buffer, when the document has room for it. */
  function Accepted(s: Comp): seq<Wchar>
    requires Sound(s)
  {
    if |s.doc.text| + s.len <= TS_BUF_CHARS then TextOf(s) else []
  }

  /** The buffer stays below its capacity and ended, whatever is done to it; only ending an
      active composition touches the document. */
  lemma ApplyIsSound(s: Comp, op: Op)
    requires Sound(s)
    ensures Sound(Apply(s, op))
    ensures Apply(s, op).doc.text == s.doc.text + if op.End? && s.active then Accepted(s) else []
  {
    assert s.doc.text + [] == s.doc.text;
    match op
    case Write(text) =>
      if Fits(s, |text|) {
        RangeEditIsASplice(s, text);
      }
    case End => FlushKeepsDoc(s);
    case _ =>
  }

  ghost function Run(s: Comp, ops: seq<Op>): (r: Comp)
    requires Sound(s)
    ensures Sound(r)
    decreases |ops|
  {
    if ops == [] then s
    else
      ApplyIsSound(s, ops[0]);
      Run(Apply(s, ops[0]), ops[1..])
  }

  /** What each end of an active composition hands to the document. */
  ghost function Commits(s: Comp, ops: seq<Op>): seq<seq<Wchar>>
    requires Sound(s)
    decreases |ops|
  {
    if ops == [] then []
    else
      ApplyIsSound(s, ops[0]);
      (if ops[0].End? && s.active then [Accepted(s)] else []) + Commits(Apply(s, ops[0]), ops[1..])
  }

  /** Over every run the document is what it was plus the committed buffers, in order. */
  lemma {:induction false} DocumentIsCommits(s: Comp, ops: seq<Op>)
    requires Sound(s)
    ensures Run(s, ops).doc.text == s.doc.text + Flat(Commits(s, ops))
    decreases |ops|
  {
    if ops == [] {
      AppendNothing(s.doc.text);
    } else {
      var t := Apply(s, ops[0]);
      ApplyIsSound(s, ops[0]);
      DocumentIsCommits(t, ops[1..]);
      var later := Commits(t, ops[1..]);
      if ops[0].End? && s.active {
        FlatCons(Accepted(s), later);
        Reassociate(s.doc.text, Accepted(s), Flat(later));
      } else {
        AppendNothing(s.doc.text);
        assert [] + later == later;
      }
    }
  }

  /** Ending again changes nothing. */
  lemma EndTwice(s: Comp)
    requires Sound(s)
    ensures Sound(Apply(s, End)) && Apply(Apply(s, End), End) == Apply(s, End)
  {
    ApplyIsSound(s, End);
  }

  // ----- typing -----

  /** What a series of letters, digits and backspaces leaves, as plain text. */
  function Typed(text: seq<Wchar>, vks: seq<int>): seq<Wchar>
    decreases |vks|
  {
    if vks == [] then text
    else
      var next := match KeyOf(vks[0])
        case Letter(ch) => if |text| + 1 < COMP_TEXT_CHARS then text + [ch] else text
        case Back => if text == [] then [] else text[..|text| - 1]
        case _ => text;
      Typed(next, vks[1..])
  }

  function Presses(vks: seq<int>): seq<Op> {
    if vks == [] then [] else [Press(vks[0])] + Presses(vks[1..])
  }

  /** The buffer follows the typing, whatever keys are pressed. */
  lemma {:induction false} BufferIsTyped(s: Comp, vks: seq<int>)
    requires Sound(s)
    ensures TextOf(Run(s, Presses(vks))) == Typed(TextOf(s), vks)
    decreases |vks|
  {
    if vks != [] {
      var ops := Presses(vks);
      KeyIsTyped(s, vks[0]);
      ApplyIsSound(s, ops[0]);
      assert ops[1..] == Presses(vks[1..]);
      BufferIsTyped(Keyed(s, vks[0]), vks[1..]);
    }
  }

  lemma KeyIsTyped(s: Comp, vk: int)
    requires Sound(s)
    ensures Sound(Keyed(s, vk))
    ensures TextOf(Keyed(s, vk)) == match KeyOf(vk)
      case Letter(ch) => if s.len + 1 < COMP_TEXT_CHARS then TextOf(s) + [ch] else TextOf(s)
      case Back => if s.len == 0 then [] else TextOf(s)[..s.len - 1]
      case _ => TextOf(s)
  {
    ApplyIsSound(s, Press(vk));
  }

  lemma {:induction false} KeysLeaveItOpen(s: Comp, vks: seq<int>)
    requires Sound(s) && s.active && forall i :: 0 <= i < |vks| ==> vks[i] != VK_RETURN
    ensures var r := Run(s, Presses(vks)); r.active && r.doc == s.doc
    decreases |vks|
  {
    if vks != [] {
      var ops := Presses(vks);
      ApplyIsSound(s, ops[0]);
      assert ops[1..] == Presses(vks[1..]);
      KeysLeaveItOpen(Keyed(s, vks[0]), vks[1..]);
    }
  }

  /** One composition from start to end: the document gains exactly what was typed, if it
      has room for it, whatever the buffer and the range held before. */
  lemma TypedTextIsCommitted(s: Comp, vks: seq<int>)
    requires Sound(s) && forall i :: 0 <= i < |vks| ==> vks[i] != VK_RETURN
    ensures Sound(Started(s))
    ensures var typed := Typed([], vks);
      var d := Stopped(Run(Started(s), Presses(vks))).doc;
      d.text == s.doc.text + if |s.doc.text| + |typed| <= TS_BUF_CHARS then typed else []
  {
    ApplyIsSound(s, Start);
    var begun := Started(s);
    assert TextOf(begun) == [];
    BufferIsTyped(begun, vks);
    KeysLeaveItOpen(begun, vks);
    ApplyIsSound(Run(begun, Presses(vks)), End);
  }
}
