/** The document behind the engine: a fixed array of characters edited in place by
    overlapping moves, proved to refine plain splicing of sequences. */
module TextStore {

  type Wchar = c: int | 0 <= c < 0x1_0000

  const TS_BUF_CHARS := 4096

  /** The document as a value. */
  datatype Doc = Doc(text: seq<Wchar>, selStart: int, selEnd: int)

  /** The record of an edit that is handed to the sink. */
  datatype Change = Change(start: int, oldEnd: int, newEnd: int)

  /** What the sink is told. */
  datatype Note = TextChanged(change: Change) | SelectionChanged

  datatype Edit = Rejected | Edited(doc: Doc, change: Change)

  predicate ValidDoc(d: Doc) {
    |d.text| <= TS_BUF_CHARS && 0 <= d.selStart <= d.selEnd <= |d.text|
  }

  // ----- the move -----

  /** Section 7.24.2.2 of ISO/IEC 9899:2011: as if the source were first copied away. */
  function Moved<T>(s: seq<T>, dst: nat, src: nat, n: nat): seq<T>
    requires dst + n <= |s| && src + n <= |s|
  {
    s[..dst] + s[src..src + n] + s[dst + n..]
  }

  function Overwritten<T>(s: seq<T>, start: nat, text: seq<T>): seq<T>
    requires start + |text| <= |s|
  {
    s[..start] + text + s[start + |text|..]
  }

  /** Going up with the destination below, the next element is still to be read... */
  lemma UpwardStep<T>(s: seq<T>, dst: nat, src: nat, i: nat)
    requires dst < src && src + i < |s|
    ensures var m := Moved(s, dst, src, i);
      m[src + i] == s[src + i] && m[dst + i := s[src + i]] == Moved(s, dst, src, i + 1)
  {
  }

  /** ...and so it is going down with the destination above. */
  lemma DownwardStep<T>(s: seq<T>, dst: nat, src: nat, i: nat)
    requires 0 < src < dst && dst + i <= |s|
    ensures var m := Moved(s, dst, src, i);
      m[src - 1] == s[src - 1] && m[dst - 1 := s[src - 1]] == Moved(s, dst - 1, src - 1, i + 1)
  {
  }

  lemma NothingMoved<T>(s: seq<T>, dst: nat, src: nat, n: nat)
    requires dst + n <= |s| && src + n <= |s| && (dst == src || n == 0)
    ensures Moved(s, dst, src, n) == s
  {
  }

  method CopyUp<T>(a: array<T>, dst: nat, src: nat, n: nat)
    requires dst < src && src + n <= a.Length
    modifies a
    ensures a[..] == Moved(old(a[..]), dst, src, n)
  {
    ghost var s := a[..];
    NothingMoved(s, dst, src, 0);
    for i := 0 to n
      invariant a[..] == Moved(s, dst, src, i)
    {
      UpwardStep(s, dst, src, i);
      assert a[src + i] == a[..][src + i];
      a[dst + i] := a[src + i];
    }
  }

  method CopyDown<T>(a: array<T>, dst: nat, src: nat, n: nat)
    requires src < dst && dst + n <= a.Length
    modifies a
    ensures a[..] == Moved(old(a[..]), dst, src, n)
  {
    ghost var s := a[..];
    ghost var done := 0;
    var to, from := dst + n, src + n;
    NothingMoved(s, to, from, 0);
    while from > src
      invariant src <= from && to - from == dst - src && from + done == src + n
      invariant a[..] == Moved(s, to, from, done)
    {
      DownwardStep(s, to, from, done);
      assert a[from - 1] == a[..][from - 1];
      to, from, done := to - 1, from - 1, done + 1;
      a[to] := a[from];
    }
  }

  /** Copies upwards when the destination is below the source and downwards when it is
      above, so that no element is overwritten before it was read. */
  method Memmove<T>(a: array<T>, dst: nat, src: nat, n: nat)
    requires dst + n <= a.Length && src + n <= a.Length
    modifies a
    ensures a[..] == Moved(old(a[..]), dst, src, n)
  {
    if dst == src || n == 0 {
      NothingMoved(a[..], dst, src, n);
    } else if dst < src {
      CopyUp(a, dst, src, n);
    } else {
      CopyDown(a, dst, src, n);
    }
  }

  lemma OverwrittenStep<T>(s: seq<T>, start: nat, text: seq<T>, i: nat)
    requires start + |text| <= |s| && i < |text|
    ensures Overwritten(s, start, text[..i])[start + i := text[i]] == Overwritten(s, start, text[..i + 1])
  {
  }

  method CopyInto<T>(a: array<T>, start: nat, text: seq<T>)
    requires start + |text| <= a.Length
    modifies a
    ensures a[..] == Overwritten(old(a[..]), start, text)
  {
    ghost var s := a[..];
    for i := 0 to |text|
      invariant a[..] == Overwritten(s, start, text[..i])
    {
      OverwrittenStep(s, start, text, i);
      a[start + i] := text[i];
    }
    assert text[..|text|] == text;
  }

  // ----- what the operations do to the document -----

  function Spliced<T>(s: seq<T>, start: nat, end: nat, text: seq<T>): seq<T>
    requires start <= end <= |s|
  {
    s[..start] + text + s[end..]
  }

  function Max(a: int, b: int): int {
    if a > b then a else b
  }

  function Min(a: int, b: int): int {
    if a < b then a else b
  }

  /** The end of the range that `SetText` replaces; a negative end is the end of the text. */
  function EditEnd(len: nat, start: int, end: int): int {
    Max(if end < 0 then len else Min(end, len), Max(start, 0))
  }

  /** The range of `QueryInsert`, `SetSelection` and the selection itself: the end is
      raised to the start, then both are cut to the text. */
  function Clamped(len: nat, start: int, end: int): (int, int) {
    var s0 := Max(start, 0);
    (Min(s0, len), Min(Max(end, s0), len))
  }

  /** A start behind the text is rejected like any other when the text does not fit; when it
      would fit, the edit is not defined (the size of its move is negative). */
  predicate Editable(len: nat, start: int, cch: nat) {
    start <= len || len + cch > TS_BUF_CHARS
  }

  function SetTextOn(d: Doc, start: int, end: int, text: seq<Wchar>): Edit
    requires Editable(|d.text|, start, |text|)
  {
    var s, e := Max(start, 0), EditEnd(|d.text|, start, end);
    if |d.text| - (e - s) + |text| > TS_BUF_CHARS then Rejected
    else Edited(Doc(Spliced(d.text, s, e, text), s + |text|, s + |text|), Change(s, e, s + |text|))
  }

  function InsertOn(d: Doc, text: seq<Wchar>): Edit {
    var (s, e) := Clamped(|d.text|, d.selStart, d.selEnd);
    SetTextOn(d, s, e, text)
  }

  predicate QueryAccepts(d: Doc, start: int, end: int, cch: nat) {
    var (s, e) := Clamped(|d.text|, start, end);
    |d.text| - (e - s) + cch <= TS_BUF_CHARS
  }

  /** The text between two positions, at most `max` characters of it. */
  function Read(text: seq<Wchar>, start: int, end: int, max: nat): seq<Wchar> {
    var s, e := Max(start, 0), if end < 0 then |text| else Min(end, |text|);
    if e <= s then [] else text[s..s + Min(e - s, max)]
  }

  /** One more character at the end; the last place of the array stays free. */
  function Appended(d: Doc, ch: Wchar, interim: bool): Doc {
    if ch == 0 || |d.text| >= TS_BUF_CHARS - 1 then d
    else
      var text := d.text + [ch];
      Doc(text, if interim then 0 else |text|, |text|)
  }

  class TextStore {
    const buf: array<Wchar>
    var len: nat
    var selStart: int
    var selEnd: int
    var sink: bool
    /** What was reported to the sink so far. */
    var notes: seq<Note>

    ghost predicate Valid()
      reads this, buf
    {
      buf.Length == TS_BUF_CHARS && len <= TS_BUF_CHARS && 0 <= selStart <= selEnd <= len
    }

    ghost function View(): Doc
      reads this, buf
      requires Valid()
    {
      Doc(buf[..len], selStart, selEnd)
    }

    constructor ()
      ensures Valid() && fresh(buf) && View() == Doc([], 0, 0) && !sink && notes == []
    {
      buf := new Wchar[TS_BUF_CHARS](i => 0);
      len, selStart, selEnd, sink, notes := 0, 0, 0, false, [];
    }

    method AdviseSink(given: bool)
      modifies `sink
      ensures sink == given
    {
      sink := given;
    }

    ghost predicate Told(before: seq<Note>, news: seq<Note>)
      reads `sink, `notes
    {
      notes == if sink then before + news else before
    }

    method NotifyTextChange(start: int, oldEnd: int, newEnd: int)
      modifies `notes
      ensures Told(old(notes), [TextChanged(Change(start, oldEnd, newEnd))])
    {
      if sink {
        notes := notes + [TextChanged(Change(start, oldEnd, newEnd))];
      }
    }

    method NotifySelectionChange()
      modifies `notes
      ensures Told(old(notes), [SelectionChanged])
    {
      if sink {
        notes := notes + [SelectionChanged];
      }
    }

    method QueryInsert(start: int, end: int, cch: nat) returns (ok: bool, resultStart: int, resultEnd: int)
      requires Valid()
      ensures ok == QueryAccepts(View(), start, end, cch)
      ensures resultStart == Clamped(len, start, end).0 && resultEnd == resultStart + cch
    {
      var s0, s1 := start, end;
      if s0 < 0 { s0 := 0; }
      if s1 < s0 { s1 := s0; }
      if s0 > len { s0 := len; }
      if s1 > len { s1 := len; }
      var oldSpan := s1 - s0;
      resultStart, resultEnd := s0, s0 + cch;
      ok := len - oldSpan + cch <= TS_BUF_CHARS;
    }

    method SetSelection(start: int, end: int)
      requires Valid()
      modifies `selStart, `selEnd, `notes
      ensures Valid() && View().text == old(View().text)
      ensures (selStart, selEnd) == Clamped(len, start, end)
      ensures Told(old(notes), [SelectionChanged])
    {
      selStart, selEnd := start, end;
      if selStart < 0 { selStart := 0; }
      if selEnd < selStart { selEnd := selStart; }
      if selStart > len { selStart := len; }
      if selEnd > len { selEnd := len; }
      NotifySelectionChange();
    }

    method GetText(acpStart: int, acpEnd: int, cchReq: nat) returns (text: seq<Wchar>, next: int)
      requires Valid()
      ensures text == Read(View().text, acpStart, acpEnd, cchReq) && next == Max(acpStart, 0) + |text|
    {
      var start, end := acpStart, acpEnd;
      if end < 0 { end := len; }
      if start < 0 { start := 0; }
      if end > len { end := len; }
      var n := end - start;
      if n < 0 { n := 0; }
      if n > cchReq { n := cchReq; }
      assert n > 0 ==> buf[..len][start..start + n] == buf[start..start + n];
      text := CopyOut(start, n);
      next := start + n;
    }

    method CopyOut(start: nat, n: nat) returns (text: seq<Wchar>)
      requires n > 0 ==> start + n <= buf.Length
      ensures text == if n == 0 then [] else buf[start..start + n]
    {
      text := [];
      for i := 0 to n
        invariant text == if n == 0 then [] else buf[start..start + i]
      {
        text := text + [buf[start + i]];
      }
    }

    /** Replaces a range: makes room with one overlapping move, copies the text in, puts
        the selection behind it. */
    method SetText(start0: int, end0: int, pch: seq<Wchar>) returns (ok: bool, change: Change)
      requires Valid() && Editable(len, start0, |pch|)
      modifies this, buf
      ensures Valid() && sink == old(sink)
      ensures match SetTextOn(old(View()), start0, end0, pch)
        case Rejected => !ok && View() == old(View()) && notes == old(notes)
        case Edited(doc, edit) => ok && View() == doc && change == edit && Told(old(notes), [TextChanged(edit)])
    {
      var start, end, cch := start0, end0, |pch|;
      change := Change(0, 0, 0);
      if end < 0 { end := len; }
      if start < 0 { start := 0; }
      if end > len { end := len; }
      if end < start { end := start; }
      assert start == Max(start0, 0) && end == EditEnd(len, start0, end0);
      var delta := cch - (end - start);
      if len + delta > TS_BUF_CHARS {
        return false, change;
      }
      Replace(start, end, pch);
      len := len + delta;
      selStart := start + cch;
      selEnd := selStart;
      ok, change := true, Change(start, end, start + cch);
      NotifyTextChange(start, end, start + cch);
    }

    /** The move and the copy together. */
    method Replace(start: nat, end: nat, pch: seq<Wchar>)
      requires start <= end <= len <= buf.Length && len - (end - start) + |pch| <= buf.Length
      modifies buf
      ensures buf[..len - (end - start) + |pch|] == Spliced(old(buf[..len]), start, end, pch)
    {
      ghost var s := buf[..];
      Memmove(buf, start + |pch|, end, len - end);
      CopyInto(buf, start, pch);
      SpliceByMove(s, len, start, end, pch);
    }

    method InsertTextAtSelection(queryOnly: bool, pch: seq<Wchar>)
      returns (ok: bool, resultStart: int, resultEnd: int, change: Change)
      requires Valid()
      modifies this, buf
      ensures Valid() && sink == old(sink) && resultStart == old(selStart) && resultEnd == resultStart + |pch|
      ensures queryOnly ==>
        ok && View() == old(View()) && notes == old(notes) && change == Change(resultStart, old(selEnd), resultEnd)
      ensures !queryOnly ==>
        match InsertOn(old(View()), pch)
        case Rejected => !ok && View() == old(View()) && notes == old(notes)
        case Edited(doc, edit) => ok && View() == doc && change == edit && Told(old(notes), [TextChanged(edit)])
    {
      var start, end := selStart, selEnd;
      if start < 0 { start := 0; }
      if end < start { end := start; }
      if start > len { start := len; }
      if end > len { end := len; }
      resultStart, resultEnd := start, start + |pch|;
      if queryOnly {
        return true, resultStart, resultEnd, Change(start, end, start + |pch|);
      }
      ok, change := SetText(start, end, pch);
    }

    method AppendChar(ch: Wchar, interim: bool)
      requires Valid()
      modifies this, buf
      ensures Valid() && sink == old(sink) && View() == Appended(old(View()), ch, interim)
      ensures var n := old(len);
        if len == n then notes == old(notes)
        else Told(old(notes), [TextChanged(Change(n, n, n + 1)), SelectionChanged])
    {
      if ch == 0 || len >= TS_BUF_CHARS - 1 {
        return;
      }
      buf[len] := ch;
      len := len + 1;
      buf[len] := 0;
      assert buf[..len] == old(buf[..len]) + [ch];
      if interim {
        selStart, selEnd := 0, len;
      } else {
        selStart, selEnd := len, len;
      }
      NotifyTextChange(len - 1, len - 1, len);
      NotifySelectionChange();
    }
  }

  /** Moving the tail and copying the text in is the splice, seen through the length. */
  lemma SpliceByMove<T>(s: seq<T>, len: nat, start: nat, end: nat, text: seq<T>)
    requires start <= end <= len <= |s| && len - (end - start) + |text| <= |s|
    ensures var moved := Moved(s, start + |text|, end, len - end);
      Overwritten(moved, start, text)[..len - (end - start) + |text|] == Spliced(s[..len], start, end, text)
  {
    var moved := Moved(s, start + |text|, end, len - end);
    assert moved[..start] == s[..start];
    assert moved[start + |text|..][..len - end] == s[end..len] == s[..len][end..];
  }

  // ----- what editing means -----

  /** Whatever was inserted is read back from where the change record says it is. */
  lemma EditReadsBack(d: Doc, start: int, end: int, text: seq<Wchar>)
    requires ValidDoc(d) && start <= |d.text|
    ensures match SetTextOn(d, start, end, text)
      case Rejected => true
      case Edited(doc, change) => Read(doc.text, change.start, change.newEnd, |text|) == text
  {
    var s, e := Max(start, 0), EditEnd(|d.text|, start, end);
    var after := Spliced(d.text, s, e, text);
    assert after[s..s + |text|] == text;
  }

  /** The change record accounts for every character outside the edit: those before it
      stay, those behind it are shifted by the difference of its two ends. */
  lemma ChangeAccountsForAll(d: Doc, start: int, end: int, text: seq<Wchar>)
    requires ValidDoc(d) && start <= |d.text|
    ensures match SetTextOn(d, start, end, text)
      case Rejected => true
      case Edited(doc, change) =>
        && ValidDoc(doc)
        && 0 <= change.start <= change.oldEnd <= |d.text| && change.start <= change.newEnd <= |doc.text|
        && |doc.text| - |d.text| == change.newEnd - change.oldEnd
        && doc.text[..change.start] == d.text[..change.start]
        && doc.text[change.newEnd..] == d.text[change.oldEnd..]
  {
    var s, e := Max(start, 0), EditEnd(|d.text|, start, end);
    var after := Spliced(d.text, s, e, text);
    if |after| <= TS_BUF_CHARS {
      assert after[..s] == d.text[..s] && after[s + |text|..] == d.text[e..];
    }
  }

  /** An edit is undone by putting back what its change record says it replaced. */
  lemma EditIsUndone(d: Doc, start: int, end: int, text: seq<Wchar>)
    requires ValidDoc(d) && start <= |d.text|
    ensures match SetTextOn(d, start, end, text)
      case Rejected => true
      case Edited(doc, change) =>
        var removed := Read(d.text, change.start, change.oldEnd, |d.text|);
        var back := SetTextOn(doc, change.start, change.newEnd, removed);
        back.Edited? && back.doc.text == d.text
          && back.change == Change(change.start, change.newEnd, change.oldEnd)
  {
    var s, e := Max(start, 0), EditEnd(|d.text|, start, end);
    var after := Spliced(d.text, s, e, text);
    assert after[..s] == d.text[..s] && after[s + |text|..] == d.text[e..];
    assert d.text == d.text[..s] + d.text[s..e] + d.text[e..];
  }

  /** Edits of separate ranges commute, once the later one is shifted. */
  lemma SeparateEditsCommute<T>(s: seq<T>, a: nat, b: nat, x: seq<T>, c: nat, d: nat, y: seq<T>)
    requires a <= b <= c <= d <= |s|
    ensures var shift := |x| - (b - a);
      Spliced(Spliced(s, c, d, y), a, b, x) == Spliced(Spliced(s, a, b, x), c + shift, d + shift, y)
  {
    var shift := |x| - (b - a);
    var left, right := Spliced(s, a, b, x), Spliced(s, c, d, y);
    assert left[..c + shift] == s[..a] + x + s[b..c];
    assert left[d + shift..] == s[d..];
    assert right[..a] == s[..a] && right[b..] == s[b..c] + y + s[d..];
  }

  /** Every insertion leaves the caret behind its text, so a series of insertions is one
      insertion of all the text. */
  lemma InsertionsAddUp(d: Doc, x: seq<Wchar>, y: seq<Wchar>)
    requires ValidDoc(d) && InsertOn(d, x).Edited?
    ensures var first := InsertOn(d, x).doc;
      && ValidDoc(first)
      && InsertOn(first, y).Edited? == InsertOn(d, x + y).Edited?
      && (InsertOn(first, y).Edited? ==> InsertOn(first, y).doc == InsertOn(d, x + y).doc)
  {
    InsertOnSelection(d, x);
    InsertOnSelection(d, x + y);
    InsertOnSelection(InsertOn(d, x).doc, y);
    SpliceTwice(d.text, d.selStart, d.selEnd, x, y);
  }

  /** In a valid document the selection needs no clamping. */
  lemma InsertOnSelection(d: Doc, x: seq<Wchar>)
    requires ValidDoc(d)
    ensures var s, e := d.selStart, d.selEnd;
      InsertOn(d, x) ==
        if |d.text| - (e - s) + |x| > TS_BUF_CHARS then Rejected
        else Edited(Doc(Spliced(d.text, s, e, x), s + |x|, s + |x|), Change(s, e, s + |x|))
  {
  }

  /** Splicing right behind a spliced text. */
  lemma SpliceTwice<T>(s: seq<T>, start: nat, end: nat, x: seq<T>, y: seq<T>)
    requires start <= end <= |s|
    ensures var caret := start + |x|;
      Spliced(Spliced(s, start, end, x), caret, caret, y) == Spliced(s, start, end, x + y)
  {
    var first := Spliced(s, start, end, x);
    assert first[..start + |x|] == s[..start] + x && first[start + |x|..] == s[end..];
  }

  function Inserts(d: Doc, texts: seq<seq<Wchar>>): Edit
    decreases |texts|
  {
    if texts == [] then Edited(d, Change(0, 0, 0))
    else
      var first := InsertOn(d, texts[0]);
      if first.Rejected? then Rejected else Inserts(first.doc, texts[1..])
  }

  function Flat<T>(texts: seq<seq<T>>): seq<T> {
    if texts == [] then [] else texts[0] + Flat(texts[1..])
  }

  lemma FlatCons<T>(x: seq<T>, rest: seq<seq<T>>)
    ensures Flat([x] + rest) == x + Flat(rest)
  {
    assert ([x] + rest)[1..] == rest;
  }

  /** Typing piece by piece fits exactly when the whole text fits, and gives the same. */
  lemma {:induction false} RunOfInsertions(d: Doc, texts: seq<seq<Wchar>>)
    requires ValidDoc(d) && texts != []
    ensures Inserts(d, texts).Edited? <==> InsertOn(d, Flat(texts)).Edited?
    ensures Inserts(d, texts).Edited? ==> Inserts(d, texts).doc == InsertOn(d, Flat(texts)).doc
    decreases |texts|
  {
    var x, rest := texts[0], texts[1..];
    if |texts| == 1 {
      assert Flat(texts) == x;
    } else if InsertOn(d, x).Edited? {
      InsertionsAddUp(d, x, Flat(rest));
      RunOfInsertions(InsertOn(d, x).doc, rest);
    }
  }

  // ----- QueryInsert and SetText -----

  /** `SetText` succeeds exactly when `QueryInsert` accepts, if the end is not negative. */
  lemma QueryInsertDecides(d: Doc, start: int, end: int, text: seq<Wchar>)
    requires ValidDoc(d) && start <= |d.text| && end >= 0
    ensures SetTextOn(d, start, end, text).Edited? <==> QueryAccepts(d, start, end, |text|)
  {
  }

  /** A negative end is an empty range for one and the rest of the text for the other, so
      in general the two agree exactly when the end is not negative, or the text
      fits even without replacing anything, or does not even fit in place of the rest. */
  lemma QueryInsertDecidesExactly(d: Doc, start: int, end: int, text: seq<Wchar>)
    requires ValidDoc(d) && start <= |d.text|
    ensures (SetTextOn(d, start, end, text).Edited? <==> QueryAccepts(d, start, end, |text|))
      <==> end >= 0 || |d.text| + |text| <= TS_BUF_CHARS || Max(start, 0) + |text| > TS_BUF_CHARS
  {
  }

  /** A full document whose text is replaced to its end by one character. */
  lemma QueryInsertRefusesWhatSetTextDoes(d: Doc, ch: Wchar)
    requires ValidDoc(d) && |d.text| == TS_BUF_CHARS
    ensures SetTextOn(d, 0, -1, [ch]).Edited? && !QueryAccepts(d, 0, -1, 1)
  {
  }

  // ----- positions and characters -----

  /** A selection within the text is taken as it is; a position outside is moved to the nearest
      one inside, the end never before the start. */
  lemma ClampedIsNearest(len: nat, start: int, end: int)
    ensures var (s, e) := Clamped(len, start, end);
      && 0 <= s <= e <= len
      && (0 <= start <= len ==> s == start) && (start < 0 ==> s == 0) && (start > len ==> s == len)
      && (s <= end <= len ==> e == end) && (end < s ==> e == s) && (end > len ==> e == len)
  {
  }

  /** A replacement within the text, character by character, and its one reason to be rejected:
      more than 4096 characters.  The caret stands behind the new text. */
  lemma ReplacementIs(d: Doc, start: nat, end: nat, text: seq<Wchar>)
    requires ValidDoc(d) && start <= end <= |d.text|
    ensures var edit := SetTextOn(d, start, end, text);
      && (edit.Rejected? <==> |d.text| - (end - start) + |text| > 4096)
      && (edit.Edited? ==>
            var t := edit.doc.text;
            && |t| == |d.text| - (end - start) + |text|
            && (forall k :: 0 <= k < start ==> t[k] == d.text[k])
            && (forall k :: 0 <= k < |text| ==> t[start + k] == text[k])
            && (forall k :: end <= k < |d.text| ==> t[k - end + start + |text|] == d.text[k])
            && edit.doc.selStart == edit.doc.selEnd == start + |text|)
  {
  }

  /** A negative start is the beginning, a negative end or one behind the text is its end. */
  lemma OutsideIsMoved(d: Doc, start: int, end: int, text: seq<Wchar>)
    requires ValidDoc(d) && start <= |d.text|
    ensures start < 0 ==> SetTextOn(d, start, end, text) == SetTextOn(d, 0, end, text)
    ensures end < 0 || end > |d.text| ==> SetTextOn(d, start, end, text) == SetTextOn(d, start, |d.text|, text)
    ensures 0 <= end < start ==> SetTextOn(d, start, end, text) == SetTextOn(d, start, start, text)
  {
  }

  /** Reading within the text: from the start, up to the end or as many as are asked for,
      whichever is less. */
  lemma ReadIs(text: seq<Wchar>, start: nat, end: nat, max: nat)
    requires start <= end <= |text|
    ensures var r := Read(text, start, end, max);
      && |r| == (if max < end - start then max else end - start)
      && forall k :: 0 <= k < |r| ==> r[k] == text[start + k]
  {
  }

  /** Outside: a negative start reads from the beginning, a negative end or one behind the text
      reads to its end, and an end before the start reads nothing. */
  lemma ReadOutside(text: seq<Wchar>, start: int, end: int, max: nat)
    ensures start < 0 ==> Read(text, start, end, max) == Read(text, 0, end, max)
    ensures end < 0 || end > |text| ==> Read(text, start, end, max) == Read(text, start, |text|, max)
    ensures 0 <= end <= start ==> Read(text, start, end, max) == []
  {
  }

  /** One more character: nothing for a zero and for a document of 4095; an interim character
      leaves the whole text selected, a final one the caret at its end. */
  lemma AppendedIs(d: Doc, ch: Wchar, interim: bool)
    requires ValidDoc(d)
    ensures var a, n := Appended(d, ch, interim), |d.text|;
      if ch == 0 || n >= 4095 then a == d
      else
        && a.text == d.text + [ch]
        && a.selEnd == n + 1
        && (interim ==> a.selStart == 0) && (!interim ==> a.selStart == n + 1)
  {
  }
}
