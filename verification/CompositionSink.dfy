/** What the owner's sink hears of compositions while keys are typed.  Letters, digits and
    the return key are announced; a backspace or a conversion key opens a composition
    silently, and then nothing the sink hears afterwards is right. */
module CompositionSink {
  import opened TextStore
  import opened Composition

  predicate ActiveAfter(active: bool, vk: int) {
    match KeyOf(vk)
    case Return => false
    case Other => active
    case _ => true
  }

  function HeardOver(active: bool, vks: seq<int>): seq<Heard>
    decreases |vks|
  {
    if vks == [] then [] else Announced(active, vks[0]) + HeardOver(ActiveAfter(active, vks[0]), vks[1..])
  }

  /** The flag of the context is the one these functions follow. */
  lemma KeyActivates(s: Comp, vk: int)
    requires Sound(s)
    ensures Keyed(s, vk).active == ActiveAfter(s.active, vk)
  {
    ApplyIsSound(s, Press(vk));
  }

  /** Updates and ends only within a composition that was started, starts only outside. */
  predicate Bracketed(hs: seq<Heard>, open: bool) {
    hs == []
    || match hs[0]
       case OnStart => !open && Bracketed(hs[1..], true)
       case OnUpdate => open && Bracketed(hs[1..], true)
       case OnEnd => open && Bracketed(hs[1..], false)
  }

  predicate Announcing(vk: int) {
    KeyOf(vk).Letter? || KeyOf(vk).Return?
  }

  predicate OpensSilently(active: bool, vk: int) {
    !active && (KeyOf(vk).Back? || KeyOf(vk).Conv?)
  }

  /** No composition that a key opens silently sees an announced key before it is over. */
  predicate Told(active: bool, vks: seq<int>)
    decreases |vks|
  {
    vks == []
    || if OpensSilently(active, vks[0]) then forall i :: 1 <= i < |vks| ==> !Announcing(vks[i])
       else Told(ActiveAfter(active, vks[0]), vks[1..])
  }

  /** Within a composition opened silently, the first announced key breaks the bracketing. */
  lemma {:induction false} SilentStaysSilent(vks: seq<int>)
    ensures Bracketed(HeardOver(true, vks), false) <==> forall i :: 0 <= i < |vks| ==> !Announcing(vks[i])
    decreases |vks|
  {
    if vks != [] {
      var hs, rest := HeardOver(true, vks), vks[1..];
      if Announcing(vks[0]) {
        assert hs[0].OnUpdate? || hs[0].OnEnd?;
      } else {
        assert hs == HeardOver(true, rest);
        SilentStaysSilent(rest);
        assert forall i :: 1 <= i < |vks| ==> vks[i] == rest[i - 1];
      }
    }
  }

  /** The sink hears well-bracketed news if and only if no announced key follows a
      composition that was opened silently. */
  lemma {:induction false} BracketedExactly(active: bool, vks: seq<int>)
    ensures Bracketed(HeardOver(active, vks), active) <==> Told(active, vks)
    decreases |vks|
  {
    if vks != [] {
      var rest, now := vks[1..], ActiveAfter(active, vks[0]);
      if OpensSilently(active, vks[0]) {
        assert HeardOver(active, vks) == HeardOver(true, rest);
        SilentStaysSilent(rest);
        assert forall i :: 0 <= i < |rest| ==> rest[i] == vks[i + 1];
      } else {
        BracketedExactly(now, rest);
        KeyIsBracketed(active, vks[0], HeardOver(now, rest));
      }
    }
  }

  lemma KeyIsBracketed(active: bool, vk: int, more: seq<Heard>)
    requires !OpensSilently(active, vk)
    ensures Bracketed(Announced(active, vk) + more, active) <==> Bracketed(more, ActiveAfter(active, vk))
  {
    var hs := Announced(active, vk) + more;
    match KeyOf(vk)
    case Letter(_) =>
      if active {
        assert hs[1..] == more;
      } else {
        assert hs[1..] == [OnUpdate] + more && hs[1..][1..] == more;
      }
    case Return =>
      if active {
        assert hs[1..] == more;
      } else {
        assert hs == more;
      }
    case _ => assert hs == more;
  }
}
