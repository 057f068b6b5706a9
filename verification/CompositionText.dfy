/** Compositions as plain text: what the buffer, its stale cells and its end marks come to
    over whole runs, and which text each end of a composition appends. */
module CompositionText {
  import opened Lines
  import opened TextStore
  import opened Composition

  /** A context without cells: only the text itself. */
  datatype Plain = Plain(text: seq<Wchar>, active: bool, start: int, end: int, doc: Doc)

  function PlainOf(s: Comp): Plain
    requires Sound(s)
  {
    Plain(TextOf(s), s.active, s.start, s.end, s.doc)
  }

  // ----- the operations on plain text -----

  function Whole(p: Plain): Plain {
    p.(start := 0, end := |p.text|)
  }

  function Grown(p: Plain, ch: Wchar): Plain {
    if |p.text| + 1 < COMP_TEXT_CHARS then Whole(p.(text := p.text + [ch])) else p
  }

  function Rewritten(p: Plain, w: seq<Wchar>): Plain {
    var from := Max(0, Min(p.start, |p.text|));
    var to := Max(from, Min(p.end, |p.text|));
    var text := Spliced(p.text, from, to, w);
    if |text| < COMP_TEXT_CHARS then Whole(p.(text := text)) else p
  }

  function Appending(doc: Doc, text: seq<Wchar>): Doc {
    if text == [] then doc
    else match SetTextOn(doc, |doc.text|, |doc.text|, text)
      case Rejected => doc
      case Edited(d, _) => d
  }

  function PlainPress(p: Plain, vk: int): Plain {
    match KeyOf(vk)
    case Letter(ch) => Grown(p.(active := true), ch)
    case Back => Whole(p.(text := if p.text == [] then [] else p.text[..|p.text| - 1])).(active := true)
    case Return => p.(active := false)
    case Conv => p.(active := true)
    case Other => p
  }

  function PlainApply(p: Plain, op: Op): Plain {
    match op
    case Start => p.(text := [], active := true)
    case Char(ch) => if ch == 0 then p else Grown(p, ch)
    case Press(vk) => PlainPress(p, vk)
    case Write(w) => Rewritten(p, w)
    case ShiftS(n) => p.(start := Min(Max(p.start + n, 0), p.end))
    case ShiftE(n) => p.(end := Max(p.end + n, p.start))
    case End => if p.active then p.(active := false, doc := Appending(p.doc, p.text)) else p
    case Clear => Whole(p.(text := [])).(active := false)
  }

  function PlainRun(p: Plain, ops: seq<Op>): Plain
    decreases |ops|
  {
    if ops == [] then p else PlainRun(PlainApply(p, ops[0]), ops[1..])
  }

  /** Every write of the run begins within the text. */
  predicate Within(p: Plain, ops: seq<Op>)
    decreases |ops|
  {
    ops == [] || ((ops[0].Write? ==> p.start <= |p.text|) && Within(PlainApply(p, ops[0]), ops[1..]))
  }

  // ----- one operation -----

  lemma WithCharIsPlain(s: Comp, ch: Wchar)
    requires Sound(s)
    ensures Sound(WithChar(s, ch)) && PlainOf(WithChar(s, ch)) == Grown(PlainOf(s), ch)
  {
  }

  lemma KeyIsPlain(s: Comp, vk: int)
    requires Sound(s)
    ensures Sound(Keyed(s, vk)) && PlainOf(Keyed(s, vk)) == PlainPress(PlainOf(s), vk)
  {
    KeyIsTyped(s, vk);
    match KeyOf(vk)
    case Letter(ch) => WithCharIsPlain(s.(active := true), ch);
    case _ =>
  }

  lemma WriteIsPlain(s: Comp, w: seq<Wchar>)
    requires Sound(s) && s.start <= s.len
    ensures Sound(Written(s, w)) && PlainOf(Written(s, w)) == Rewritten(PlainOf(s), w)
  {
    if Fits(s, |w|) {
      RangeEditIsASplice(s, w);
    }
  }

  /** The exact condition for a write: it does to the text what it should if and only if the
      range begins within the text, or nothing is written either way. */
  lemma WriteIsPlainExactly(s: Comp, w: seq<Wchar>)
    requires Sound(s)
    ensures Sound(Written(s, w))
    ensures TextOf(Written(s, w)) == Rewritten(PlainOf(s), w).text <==>
      s.start <= s.len || (!Fits(s, |w|) && (w == [] || s.len + |w| >= COMP_TEXT_CHARS))
  {
    if s.start <= s.len {
      WriteIsPlain(s, w);
    } else {
      var spliced := Spliced(TextOf(s), s.len, s.len, w);
      assert |spliced| == s.len + |w|;
      if Fits(s, |w|) {
        RangeEditIsASplice(s, w);
        assert |TextOf(Written(s, w))| == s.start + |w|;
      } else if w == [] {
        assert spliced == TextOf(s);
      }
    }
  }

  lemma ApplyIsPlain(s: Comp, op: Op)
    requires Sound(s) && (op.Write? ==> s.start <= s.len)
    ensures Sound(Apply(s, op)) && PlainOf(Apply(s, op)) == PlainApply(PlainOf(s), op)
  {
    ApplyIsSound(s, op);
    match op
    case Char(ch) => WithCharIsPlain(s, ch);
    case Press(vk) => KeyIsPlain(s, vk);
    case Write(w) => WriteIsPlain(s, w);
    case _ =>
  }

  // ----- whole runs -----

  /** Over every run whose writes begin within the text, the context is plain text: the cells
      behind the text never matter. */
  lemma {:induction false} RunIsPlain(s: Comp, ops: seq<Op>)
    requires Sound(s) && Within(PlainOf(s), ops)
    ensures PlainOf(Run(s, ops)) == PlainRun(PlainOf(s), ops)
    decreases |ops|
  {
    if ops != [] {
      ApplyIsPlain(s, ops[0]);
      RunIsPlain(Apply(s, ops[0]), ops[1..]);
    }
  }

  function PlainCommits(p: Plain, ops: seq<Op>): seq<seq<Wchar>>
    decreases |ops|
  {
    if ops == [] then []
    else
      (if ops[0].End? && p.active then [if |p.doc.text| + |p.text| <= TS_BUF_CHARS then p.text else []] else [])
      + PlainCommits(PlainApply(p, ops[0]), ops[1..])
  }

  lemma {:induction false} CommitsArePlain(s: Comp, ops: seq<Op>)
    requires Sound(s) && Within(PlainOf(s), ops)
    ensures Commits(s, ops) == PlainCommits(PlainOf(s), ops)
    decreases |ops|
  {
    if ops != [] {
      ApplyIsPlain(s, ops[0]);
      CommitsArePlain(Apply(s, ops[0]), ops[1..]);
    }
  }

  /** The document after any mix of keys, characters, shifts, writes within the text, starts,
      ends and resets is that of plain text, from a start on. */
  lemma ComposedTextIsCommitted(s: Comp, ops: seq<Op>)
    requires Sound(s) && Within(PlainApply(PlainOf(s), Start), ops)
    ensures Sound(Started(s))
    ensures var p := PlainRun(Plain([], true, s.start, s.end, s.doc), ops);
      && PlainOf(Run(Started(s), ops)) == p
      && Stopped(Run(Started(s), ops)).doc == if p.active then Appending(p.doc, p.text) else p.doc
  {
    ApplyIsPlain(s, Start);
    RunIsPlain(Started(s), ops);
    ApplyIsPlain(Run(Started(s), ops), End);
  }

  /** A start forgets the text before it, also that of a composition still active: with the
      same range and document, whatever text was open is neither appended nor seen again. */
  lemma StartLosesOpenText(s: Comp, t: Comp, ops: seq<Op>)
    requires Sound(s) && Sound(t) && s.start == t.start && s.end == t.end && s.doc == t.doc
    requires Within(PlainApply(PlainOf(s), Start), ops)
    ensures Sound(Started(s)) && Sound(Started(t)) && Started(s).doc == s.doc
    ensures PlainOf(Run(Started(s), ops)) == PlainOf(Run(Started(t), ops))
    ensures Commits(Started(s), ops) == Commits(Started(t), ops)
  {
    ApplyIsPlain(s, Start);
    ApplyIsPlain(t, Start);
    assert PlainOf(Started(s)) == PlainOf(Started(t));
    RunIsPlain(Started(s), ops);
    RunIsPlain(Started(t), ops);
    CommitsArePlain(Started(s), ops);
    CommitsArePlain(Started(t), ops);
  }

  lemma {:induction false} RunOfConcat(s: Comp, a: seq<Op>, b: seq<Op>)
    requires Sound(s)
    ensures Run(s, a + b) == Run(Run(s, a), b)
    decreases |a|
  {
    if a == [] {
      assert a + b == b;
    } else {
      assert (a + b)[1..] == a[1..] + b;
      ApplyIsSound(s, a[0]);
      RunOfConcat(Apply(s, a[0]), a[1..], b);
    }
  }

  /** Which text a commit appends: what the operations since the last start made of the
      empty text, whatever happened before. */
  lemma CommitAppendsTextSinceStart(s: Comp, before: seq<Op>, since: seq<Op>)
    requires Sound(s)
    requires Within(PlainApply(PlainOf(Run(s, before)), Start), since)
    ensures var r := Run(s, before);
      var end := Run(s, before + ([Start] + since));
      var p := PlainRun(Plain([], true, r.start, r.end, r.doc), since);
      && PlainOf(end) == p
      && (end.active ==> Commits(end, [End]) == [if |p.doc.text| + |p.text| <= TS_BUF_CHARS then p.text else []])
  {
    var r := Run(s, before);
    RunOfConcat(s, before, [Start] + since);
    assert ([Start] + since)[1..] == since;
    ComposedTextIsCommitted(r, since);
    var end := Run(s, before + ([Start] + since));
    CommitsArePlain(end, [End]);
    assert [End][1..] == [];
  }

  /** Without a start in between the buffer is still there after an end, so the next key
      makes it active again and the same text is appended once more. */
  lemma WithoutStartTextIsAppendedAgain(s: Comp, vk: int)
    requires Sound(s) && s.active && KeyOf(vk).Letter? && 0 < s.len && s.len + 1 < COMP_TEXT_CHARS
    requires |s.doc.text| + 2 * s.len + 1 <= TS_BUF_CHARS
    ensures var t := TextOf(s);
      Run(s, [End, Press(vk), End]).doc.text == s.doc.text + (t + (t + [KeyOf(vk).ch]))
  {
    var ops := [End, Press(vk), End];
    var t, ch := TextOf(s), KeyOf(vk).ch;
    FlushKeepsDoc(s);
    var once := Stopped(s);
    var again := Keyed(once, vk);
    ApplyIsSound(s, End);
    KeyIsTyped(once, vk);
    ApplyIsSound(again, End);
    assert ops[1..] == [Press(vk), End] && ops[1..][1..] == [End] && [End][1..] == [];
    assert Run(once, [Press(vk), End]) == Run(again, [End]);
    assert TextOf(once) == t && TextOf(again) == t + [ch];
    assert (s.doc.text + t) + (t + [ch]) == s.doc.text + (t + (t + [ch]));
  }

  // ----- openings -----

  function Bit(b: bool): nat {
    if b then 1 else 0
  }

  /** A start, or a key that makes an inactive context active. */
  predicate Opens(s: Comp, op: Op)
    requires Sound(s)
  {
    op.Start? || (!s.active && Apply(s, op).active)
  }

  ghost function Openings(s: Comp, ops: seq<Op>): nat
    requires Sound(s)
    decreases |ops|
  {
    if ops == [] then 0
    else
      ApplyIsSound(s, ops[0]);
      Bit(Opens(s, ops[0])) + Openings(Apply(s, ops[0]), ops[1..])
  }

  /** The open texts that a start or a reset throws away. */
  ghost function Lost(s: Comp, ops: seq<Op>): seq<seq<Wchar>>
    requires Sound(s)
    decreases |ops|
  {
    if ops == [] then []
    else
      ApplyIsSound(s, ops[0]);
      (if s.active && (ops[0].Start? || ops[0].Clear?) then [TextOf(s)] else []) + Lost(Apply(s, ops[0]), ops[1..])
  }

  /** Returns that suspend an open text, which stays in the buffer. */
  ghost function Suspended(s: Comp, ops: seq<Op>): nat
    requires Sound(s)
    decreases |ops|
  {
    if ops == [] then 0
    else
      ApplyIsSound(s, ops[0]);
      Bit(s.active && ops[0].Press? && KeyOf(ops[0].vk).Return?) + Suspended(Apply(s, ops[0]), ops[1..])
  }

  lemma OpeningIsSettled(s: Comp, op: Op)
    requires Sound(s)
    ensures Bit(s.active) + Bit(Opens(s, op))
      == Bit(op.End? && s.active) + Bit(s.active && (op.Start? || op.Clear?))
         + Bit(s.active && op.Press? && KeyOf(op.vk).Return?) + Bit(Apply(s, op).active)
  {
    ApplyIsSound(s, op);
  }

  /** Each opening is settled once: its text is appended by one end, thrown away by a start or
      a reset, suspended by a return, or still open; the document grows by the texts appended. */
  lemma {:induction false} OpeningsAreSettledOnce(s: Comp, ops: seq<Op>)
    requires Sound(s)
    ensures Bit(s.active) + Openings(s, ops)
      == |Commits(s, ops)| + |Lost(s, ops)| + Suspended(s, ops) + Bit(Run(s, ops).active)
    ensures Run(s, ops).doc.text == s.doc.text + Flat(Commits(s, ops))
    decreases |ops|
  {
    DocumentIsCommits(s, ops);
    if ops != [] {
      ApplyIsSound(s, ops[0]);
      OpeningIsSettled(s, ops[0]);
      OpeningsAreSettledOnce(Apply(s, ops[0]), ops[1..]);
    }
  }

  // ----- the fate of each opening -----

  datatype Fate = Appended(text: seq<Wchar>) | Discarded(text: seq<Wchar>) | Returned | StillOpen

  predicate IsReturn(op: Op) {
    op.Press? && KeyOf(op.vk).Return?
  }

  predicate Closes(op: Op) {
    op.End? || op.Start? || op.Clear? || IsReturn(op)
  }

  /** How an operation settles an open text. */
  function SettledBy(s: Comp, op: Op): Fate
    requires Sound(s) && Closes(op)
  {
    match op
    case End => Appended(Accepted(s))
    case Press(_) => Fate.Returned
    case _ => Discarded(TextOf(s))
  }

  lemma OnlyClosingCloses(s: Comp, op: Op)
    requires Sound(s)
    ensures Sound(Apply(s, op))
    ensures s.active && !Closes(op) ==> Apply(s, op).active
    ensures Closes(op) ==> Apply(s, op).active == op.Start?
    ensures op.Start? ==> Opens(s, op)
  {
    ApplyIsSound(s, op);
  }

  /** What becomes of the open text: it is settled by the first operation that closes it. */
  ghost function FateOf(s: Comp, ops: seq<Op>): Fate
    requires Sound(s)
    decreases |ops|
  {
    if ops == [] then StillOpen
    else if Closes(ops[0]) then SettledBy(s, ops[0])
    else
      ApplyIsSound(s, ops[0]);
      FateOf(Apply(s, ops[0]), ops[1..])
  }

  /** The fates of all openings of a run, each followed from where it opens. */
  ghost function FatesOfOpenings(s: Comp, ops: seq<Op>): seq<Fate>
    requires Sound(s)
    decreases |ops|
  {
    if ops == [] then []
    else
      ApplyIsSound(s, ops[0]);
      var t := Apply(s, ops[0]);
      (if Opens(s, ops[0]) then [FateOf(t, ops[1..])] else []) + FatesOfOpenings(t, ops[1..])
  }

  /** The same with the text that is open from the beginning. */
  ghost function Fates(s: Comp, ops: seq<Op>): seq<Fate>
    requires Sound(s)
  {
    (if s.active then [FateOf(s, ops)] else []) + FatesOfOpenings(s, ops)
  }

  function AppendedTexts(fs: seq<Fate>): seq<seq<Wchar>> {
    if fs == [] then [] else (if fs[0].Appended? then [fs[0].text] else []) + AppendedTexts(fs[1..])
  }

  function DiscardedTexts(fs: seq<Fate>): seq<seq<Wchar>> {
    if fs == [] then [] else (if fs[0].Discarded? then [fs[0].text] else []) + DiscardedTexts(fs[1..])
  }

  lemma FatesStep(s: Comp, op: Op, rest: seq<Op>)
    requires Sound(s)
    ensures Sound(Apply(s, op))
    ensures Fates(s, [op] + rest) == (if s.active && Closes(op) then [SettledBy(s, op)] else []) + Fates(Apply(s, op), rest)
  {
    var ops := [op] + rest;
    assert ops[1..] == rest;
    OnlyClosingCloses(s, op);
    var t := Apply(s, op);
    AppendNothing(FatesOfOpenings(t, rest));
    AppendNothing(Fates(t, rest));
    AppendNothing(Fates(s, ops));
  }

  lemma TextsOfCons(f: Fate, fs: seq<Fate>)
    ensures AppendedTexts([f] + fs) == (if f.Appended? then [f.text] else []) + AppendedTexts(fs)
    ensures DiscardedTexts([f] + fs) == (if f.Discarded? then [f.text] else []) + DiscardedTexts(fs)
  {
    assert ([f] + fs)[1..] == fs;
  }

  /** Every opening has one fate, followed from where it opens: the texts that the run appends
      are exactly those of the openings closed by an end, in order, and the texts it throws
      away are exactly those of the openings closed by a start or a reset. */
  lemma {:induction false} EveryOpeningHasOneFate(s: Comp, ops: seq<Op>)
    requires Sound(s)
    ensures Commits(s, ops) == AppendedTexts(Fates(s, ops))
    ensures Lost(s, ops) == DiscardedTexts(Fates(s, ops))
    ensures |Fates(s, ops)| == Bit(s.active) + Openings(s, ops)
    decreases |ops|
  {
    if ops == [] {
      assert Fates(s, ops) == if s.active then [StillOpen] else [];
      TextsOfCons(StillOpen, []);
    } else {
      var op, rest := ops[0], ops[1..];
      assert ops == [op] + rest;
      FatesStep(s, op, rest);
      var t := Apply(s, op);
      EveryOpeningHasOneFate(t, rest);
      CountOfFates(s, op, rest);
      if s.active && Closes(op) {
        TextsOfCons(SettledBy(s, op), Fates(t, rest));
      } else {
        AppendNothing(Fates(t, rest));
      }
      AppendNothing(Commits(t, rest));
      AppendNothing(Lost(t, rest));
    }
  }

  lemma CountOfFates(s: Comp, op: Op, rest: seq<Op>)
    requires Sound(s) && Sound(Apply(s, op))
    ensures Bit(s.active) + Bit(Opens(s, op)) == Bit(s.active && Closes(op)) + Bit(Apply(s, op).active)
  {
    OnlyClosingCloses(s, op);
  }

  /** A reset forgets the text as a start does: with the same document, whatever text was
      open is neither appended nor seen again. */
  lemma ResetLosesOpenText(s: Comp, t: Comp, ops: seq<Op>)
    requires Sound(s) && Sound(t) && s.doc == t.doc
    requires Within(PlainApply(PlainOf(s), Clear), ops)
    ensures Sound(Cleared(s)) && Sound(Cleared(t)) && Cleared(s).doc == s.doc
    ensures PlainOf(Run(Cleared(s), ops)) == PlainOf(Run(Cleared(t), ops))
    ensures Commits(Cleared(s), ops) == Commits(Cleared(t), ops)
  {
    ApplyIsPlain(s, Clear);
    ApplyIsPlain(t, Clear);
    assert PlainOf(Cleared(s)) == PlainOf(Cleared(t));
    RunIsPlain(Cleared(s), ops);
    RunIsPlain(Cleared(t), ops);
    CommitsArePlain(Cleared(s), ops);
    CommitsArePlain(Cleared(t), ops);
  }
}
