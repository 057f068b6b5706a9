/** What is typed and what is committed, in characters and key codes: the letters of a romaji
    word come out in lower case, digits as they are. */
module CompositionKeys {
  import opened Lines
  import opened TextStore
  import opened Composition

  // ----- one key -----

  /** The keys A to Z append the letters a to z, and make the composition active, if a place is
      left among 255. */
  lemma LetterIsTyped(s: Comp, vk: int)
    requires Sound(s) && 'A' as int <= vk <= 'Z' as int
    ensures var t := Keyed(s, vk);
      && Sound(t) && t.active && t.doc == s.doc
      && TextOf(t) == if s.len < 255 then TextOf(s) + ['a' as int + (vk - 'A' as int)] else TextOf(s)
  {
    KeyIsTyped(s, vk);
    ApplyIsSound(s, Press(vk));
  }

  /** The keys 0 to 9 append themselves. */
  lemma DigitIsTyped(s: Comp, vk: int)
    requires Sound(s) && '0' as int <= vk <= '9' as int
    ensures var t := Keyed(s, vk);
      && Sound(t) && t.active && t.doc == s.doc
      && TextOf(t) == if s.len < 255 then TextOf(s) + [vk] else TextOf(s)
  {
    KeyIsTyped(s, vk);
    ApplyIsSound(s, Press(vk));
  }

  /** Backspace takes the last character, return only ends, space and convert only begin, and
      any other key does nothing. */
  lemma OtherKeys(s: Comp, vk: int)
    requires Sound(s)
    ensures vk == 0x08 ==>
      var t := Keyed(s, vk);
      Sound(t) && t.active && t.doc == s.doc && TextOf(t) == if s.len == 0 then [] else TextOf(s)[..s.len - 1]
    ensures vk == 0x0D ==> Keyed(s, vk) == s.(active := false)
    ensures vk == 0x20 || vk == 0x1C ==> Keyed(s, vk) == s.(active := true)
    ensures !(0x41 <= vk <= 0x5A) && !(0x30 <= vk <= 0x39) && vk != 0x08 && vk != 0x0D && vk != 0x20 && vk != 0x1C ==>
      Keyed(s, vk) == s
  {
    KeyIsTyped(s, vk);
    ApplyIsSound(s, Press(vk));
  }

  /** What the owner hears of a key: the beginning and the text of a letter or a digit, the end
      at a return, by whether the composition was active; nothing of other keys. */
  lemma KeyIsHeard(active: bool, vk: int)
    ensures 0x41 <= vk <= 0x5A || 0x30 <= vk <= 0x39 ==>
      Announced(active, vk) == if active then [OnUpdate] else [OnStart, OnUpdate]
    ensures vk == 0x0D ==> Announced(active, vk) == if active then [OnEnd] else []
    ensures !(0x41 <= vk <= 0x5A) && !(0x30 <= vk <= 0x39) && vk != 0x0D ==> Announced(active, vk) == []
  {
  }

  /** A character of the host joins the text like a typed one, but begins nothing; a zero is
      none. */
  lemma HostCharacterJoins(s: Comp, ch: Wchar)
    requires Sound(s)
    ensures var t := Apply(s, Char(ch));
      && Sound(t) && t.active == s.active && t.doc == s.doc
      && TextOf(t) == if ch != 0 && s.len < 255 then TextOf(s) + [ch] else TextOf(s)
  {
    ApplyIsSound(s, Char(ch));
  }

  // ----- a word -----

  predicate RomajiChar(c: char) {
    'a' <= c <= 'z' || '0' <= c <= '9'
  }

  predicate Romaji(w: string) {
    forall i :: 0 <= i < |w| ==> RomajiChar(w[i])
  }

  /** The key of a romaji character: that of the capital letter, or of the digit. */
  function KeyFor(c: char): int
    requires RomajiChar(c)
  {
    if 'a' <= c <= 'z' then c as int - 'a' as int + 'A' as int else c as int
  }

  function KeysFor(w: string): seq<int>
    requires Romaji(w)
  {
    if w == "" then [] else [KeyFor(w[0])] + KeysFor(w[1..])
  }

  function Codes(w: string): seq<Wchar>
    requires Romaji(w)
  {
    if w == "" then [] else [w[0] as int] + Codes(w[1..])
  }

  lemma {:induction false} WordIsTyped(s: Comp, w: string)
    requires Sound(s) && s.active && Romaji(w) && s.len + |w| <= 255
    ensures var t := Run(s, Presses(KeysFor(w)));
      t.active && t.doc == s.doc && TextOf(t) == TextOf(s) + Codes(w)
    decreases |w|
  {
    if w == "" {
      AppendNothing(TextOf(s));
    } else {
      var vk, keys := KeyFor(w[0]), KeysFor(w[1..]);
      LetterOrDigit(s, w[0]);
      assert KeysFor(w)[0] == vk && KeysFor(w)[1..] == keys;
      var ops := Presses(KeysFor(w));
      assert ops[0] == Press(vk) && ops[1..] == Presses(keys);
      WordIsTyped(Keyed(s, vk), w[1..]);
      Reassociate(TextOf(s), [w[0] as int], Codes(w[1..]));
    }
  }

  lemma LetterOrDigit(s: Comp, c: char)
    requires Sound(s) && RomajiChar(c) && s.len < 255
    ensures var t := Keyed(s, KeyFor(c));
      Sound(t) && t.active && t.doc == s.doc && TextOf(t) == TextOf(s) + [c as int]
  {
    if 'a' <= c <= 'z' {
      LetterIsTyped(s, KeyFor(c));
    } else {
      DigitIsTyped(s, KeyFor(c));
    }
  }

  /** Start, the keys of a word, end: the document gains the word, with the caret behind it,
      if it has room; an empty word leaves it as it is. */
  lemma WordIsCommitted(s: Comp, w: string)
    requires Sound(s) && Romaji(w) && |w| <= 255 && |s.doc.text| + |w| <= 4096
    ensures Sound(Started(s))
    ensures var d := Stopped(Run(Started(s), Presses(KeysFor(w)))).doc;
      && d.text == s.doc.text + Codes(w)
      && (w != "" ==> d.selStart == d.selEnd == |d.text|) && (w == "" ==> d == s.doc)
  {
    ApplyIsSound(s, Start);
    var begun := Started(s);
    assert TextOf(begun) == [];
    WordIsTyped(begun, w);
    CodesAreAsMany(w);
    AppendNothing(Codes(w));
    FlushKeepsDoc(Run(begun, Presses(KeysFor(w))));
    AppendNothing(s.doc.text);
  }

  lemma {:induction false} CodesAreAsMany(w: string)
    requires Romaji(w)
    ensures |Codes(w)| == |w| && forall i :: 0 <= i < |w| ==> Codes(w)[i] == w[i] as int
  {
    if w != "" {
      CodesAreAsMany(w[1..]);
    }
  }

  // ----- the range -----

  /** The start moves as far as asked between zero and the end, the end as far as asked behind
      the start. */
  lemma ShiftsAreNearest(s: Comp, n: int)
    requires Sound(s)
    ensures var a := StartShifted(s, n);
      && a == s.(start := a.start)
      && (0 <= s.start + n <= s.end ==> a.start == s.start + n)
      && (s.start + n < 0 ==> a.start == 0) && (s.start + n > s.end ==> a.start == s.end)
    ensures var b := EndShifted(s, n);
      && b == s.(end := b.end)
      && b.end == if s.end + n >= s.start then s.end + n else s.start
  {
  }

  /** A reader gets the characters of the range, one fewer than it has places for if that
      is less. */
  lemma RangeIsRead(s: Comp, max: nat)
    requires Sound(s) && s.start <= s.end <= s.len && max > 0
    ensures var r := RangeText(s, max);
      && |r| == (if max - 1 < s.end - s.start then max - 1 else s.end - s.start)
      && forall k :: 0 <= k < |r| ==> r[k] == TextOf(s)[s.start + k]
  {
  }

  /** A write within the text is taken exactly if the new text keeps below 256, and then the range
      is the whole of it. */
  lemma WriteIsTakenExactly(s: Comp, text: seq<Wchar>)
    requires Sound(s) && s.start <= s.end <= s.len
    ensures Fits(s, |text|) <==> |TextOf(s)| - (s.end - s.start) + |text| < 256
    ensures !Fits(s, |text|) ==> Written(s, text) == s
    ensures Fits(s, |text|) ==>
      var w := Written(s, text);
      && Sound(w) && w.start == 0 && w.end == w.len && w.active == s.active && w.doc == s.doc
      && TextOf(w) == TextOf(s)[..s.start] + text + TextOf(s)[s.end..]
  {
    if Fits(s, |text|) {
      RangeEditIsASplice(s, text);
    }
  }
}
