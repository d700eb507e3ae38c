/**
  What a chord promises (handle_chord_state in firmware/components/core/mc_input.c), over any
  samples from power-on: it fires exactly when all its buttons are down and were pressed close
  together, once per hold, and it silences its buttons' own bindings until they are pressed again.
 */
module InputChords {
  import opened Input
  import F = InputFairness

  // ---------- one poll ----------

  /** All buttons of the chord are down. */
  ghost predicate Gripped(buttons: seq<Button>, def: Def) {
    forall m :: m in def.buttons ==> m < |buttons| && buttons[m].stable
  }

  /** No two of its buttons were pressed further apart than its window. */
  ghost predicate CloseTogether(buttons: seq<Button>, def: Def)
    requires Gripped(buttons, def)
  {
    forall m, n :: m in def.buttons && n in def.buttons ==> buttons[m].pressStart <= buttons[n].pressStart + def.windowMs
  }

  /** The chord is due: gripped, close together, and not fired in this grip. */
  ghost predicate Due(buttons: seq<Button>, fired: bool, def: Def) {
    def.kind == Chord && def.buttons != [] && !fired && Gripped(buttons, def) && CloseTogether(buttons, def)
  }

  ghost predicate HasCombo(events: seq<Event>, k: nat) {
    exists i :: 0 <= i < |events| && events[i].Combo? && events[i].index == k
  }

  /** Equal but for the marks that chords leave. */
  ghost predicate SameButtons(a: seq<Button>, b: seq<Button>) {
    |a| == |b| && forall i :: 0 <= i < |a| ==> a[i].stable == b[i].stable && a[i].pressStart == b[i].pressStart
  }

  lemma DueIgnoresMarks(a: seq<Button>, b: seq<Button>, fired: bool, def: Def)
    requires SameButtons(a, b)
    ensures Gripped(a, def) <==> Gripped(b, def)
    ensures Due(a, fired, def) <==> Due(b, fired, def)
  {
  }

  lemma GrippedIsAllDown(buttons: seq<Button>, def: Def)
    ensures Gripped(buttons, def) <==> AllDown(buttons, def.buttons)
    ensures Gripped(buttons, def) ==> (CloseTogether(buttons, def) <==> Together(buttons, def.buttons, def.windowMs))
  {
    forall i | 0 <= i < |def.buttons| ensures def.buttons[i] in def.buttons {}
    if AllDown(buttons, def.buttons) {
      forall m | m in def.buttons ensures m < |buttons| && buttons[m].stable {
        var i :| 0 <= i < |def.buttons| && def.buttons[i] == m;
      }
      if Together(buttons, def.buttons, def.windowMs) {
        forall m, n | m in def.buttons && n in def.buttons ensures buttons[m].pressStart <= buttons[n].pressStart + def.windowMs {
          var i :| 0 <= i < |def.buttons| && def.buttons[i] == m;
          var j :| 0 <= j < |def.buttons| && def.buttons[j] == n;
        }
      }
    }
  }

  /** What checking one chord does. */
  lemma ChordOneSays(defs: seq<Def>, s: State, k: nat)
    requires s.Valid(defs) && k < |defs|
    ensures var (s', events) := ChordOne(defs, s, k);
            var due := Due(s.buttons, s.combos[k].fired, defs[k]);
            && (HasCombo(events, k) <==> due) && (forall i :: 0 <= i < |events| ==> events[i] == Combo(k, defs[k].actions))
            && |s'.combos| == |s.combos| && (forall j :: 0 <= j < |s.combos| && j != k ==> s'.combos[j] == s.combos[j])
            && (IsChord(defs[k]) ==> s'.combos[k].fired == (due || (s.combos[k].fired && Gripped(s.buttons, defs[k]))))
            && (!IsChord(defs[k]) ==> s'.combos[k] == s.combos[k])
            && |s'.buttons| == |s.buttons|
            && (forall i :: 0 <= i < |s.buttons| ==>
                  s'.buttons[i] == s.buttons[i].(consumed := s.buttons[i].consumed || (due && i in defs[k].buttons)))
  {
    GrippedIsAllDown(s.buttons, defs[k]);
    hide Together, AllDown;
    if Due(s.buttons, s.combos[k].fired, defs[k]) { assert ChordOne(defs, s, k).1[0] == Combo(k, defs[k].actions); }
  }

  /** One of the chords from `k` on is due that holds button `i`. */
  ghost predicate Marks(defs: seq<Def>, s: State, k: nat, i: nat)
    requires s.Valid(defs)
  {
    exists j :: k <= j < |defs| && Due(s.buttons, s.combos[j].fired, defs[j]) && i in defs[j].buttons
  }

  /** What checking the chords from `k` on does: each is judged by the buttons alone. */
  ghost predicate Checked(defs: seq<Def>, s: State, k: nat, s': State, events: seq<Event>)
    requires s.Valid(defs)
  {
    && s'.Valid(defs)
    && (forall j: nat :: HasCombo(events, j) <==> k <= j < |defs| && Due(s.buttons, s.combos[j].fired, defs[j]))
    && (forall i :: 0 <= i < |events| ==> events[i].Combo?)
    && (forall j :: k <= j < |defs| && IsChord(defs[j]) ==>
          s'.combos[j].fired == (Due(s.buttons, s.combos[j].fired, defs[j]) || (s.combos[j].fired && Gripped(s.buttons, defs[j]))))
    && (forall j :: 0 <= j < COMBOS && (j < k || j >= |defs| || !IsChord(defs[j])) ==> s'.combos[j] == s.combos[j])
    && (forall i: nat :: i < BUTTONS ==> s'.buttons[i] == s.buttons[i].(consumed := s.buttons[i].consumed || Marks(defs, s, k, i)))
  }

  lemma HasComboAppend(a: seq<Event>, b: seq<Event>, k: nat)
    ensures HasCombo(a + b, k) <==> HasCombo(a, k) || HasCombo(b, k)
  {
    if i :| 0 <= i < |a| && a[i].Combo? && a[i].index == k { assert (a + b)[i] == a[i]; }
    if i :| 0 <= i < |b| && b[i].Combo? && b[i].index == k { assert (a + b)[|a| + i] == b[i]; }
  }

  lemma {:induction false} ChordsSay(defs: seq<Def>, s: State, k: nat)
    requires s.Valid(defs) && k <= |defs|
    ensures var (s', events) := ChordsFrom(defs, s, k); Checked(defs, s, k, s', events)
    decreases |defs| - k
  {
    hide Due, Gripped, HasCombo;
    if k == |defs| {
      NoCombo();
      forall i: nat | i < BUTTONS ensures !Marks(defs, s, k, i) {}
    } else {
      var (s1, first) := ChordOne(defs, s, k);
      ChordOneSays(defs, s, k);
      ChordsSay(defs, s1, k + 1);
      var (s2, rest) := ChordsFrom(defs, s1, k + 1);
      CheckedOneMore(defs, s, k, s1, first, s2, rest);
    }
  }

  lemma NoCombo()
    ensures forall j: nat :: !HasCombo([], j)
  {
  }

  lemma ComboOf(events: seq<Event>, k: nat, j: nat)
    requires (forall i :: 0 <= i < |events| ==> events[i].Combo? && events[i].index == k) && j != k
    ensures !HasCombo(events, j)
  {
  }

  lemma CheckedOneMore(defs: seq<Def>, s: State, k: nat, s1: State, first: seq<Event>, s2: State, rest: seq<Event>)
    requires s.Valid(defs) && k < |defs| && ChordOne(defs, s, k) == (s1, first) && Checked(defs, s1, k + 1, s2, rest)
    ensures Checked(defs, s, k, s2, first + rest)
  {
    hide Due, Gripped, HasCombo, ChordOne;
    ChordOneSays(defs, s, k);
    forall j: nat | k < j < |defs|
      ensures Due(s1.buttons, s1.combos[j].fired, defs[j]) <==> Due(s.buttons, s.combos[j].fired, defs[j])
      ensures Gripped(s1.buttons, defs[j]) <==> Gripped(s.buttons, defs[j])
    {
      DueIgnoresMarks(s1.buttons, s.buttons, s.combos[j].fired, defs[j]);
    }
    forall j: nat ensures HasCombo(first + rest, j) <==> k <= j < |defs| && Due(s.buttons, s.combos[j].fired, defs[j]) {
      HasComboAppend(first, rest, j);
      if j != k { ComboOf(first, k, j); }
    }
    forall i: nat | i < BUTTONS
      ensures Marks(defs, s, k, i) <==> (Due(s.buttons, s.combos[k].fired, defs[k]) && i in defs[k].buttons) || Marks(defs, s1, k + 1, i)
    {
    }
  }

  // ---------- the buttons of a poll ----------

  /** A press event of button `m`. */
  ghost predicate HasPress(events: seq<Event>, m: nat, g: Gesture, suppressed: bool) {
    Pressed(m, g, suppressed) in events
  }

  /** What the button part of a poll does from button `b` on. */
  ghost predicate Sensed(t: Timing, defs: seq<Def>, s: State, b: nat, now: nat, raws: seq<bool>, s': State, events: seq<Event>)
    requires s.Valid(defs) && |raws| == BUTTONS
  {
    && s'.Valid(defs)
    && (forall i :: 0 <= i < BUTTONS ==> s'.buttons[i] == if i < b then s.buttons[i] else PollButton(t, s.buttons[i], now, raws[i]).0)
    && (forall j :: 0 <= j < COMBOS ==> s'.combos[j].fired == s.combos[j].fired)
    && (forall j: nat :: HasCombo(events, j) ==> j < |defs| && IsSequence(defs[j]))
    && (forall m: nat, g, x :: HasPress(events, m, g, x) <==>
          b <= m < BUTTONS && g in PollButton(t, s.buttons[m], now, raws[m]).1 && x == PollButton(t, s.buttons[m], now, raws[m]).0.consumed)
  }

  ghost predicate OnlySequences(defs: seq<Def>, events: seq<Event>) {
    forall i :: 0 <= i < |events| ==> events[i].Combo? && events[i].index < |defs| && IsSequence(defs[events[i].index])
  }

  lemma {:induction false} MatchersSay(defs: seq<Def>, s: State, k: nat, button: nat, now: nat)
    requires s.Valid(defs) && k <= |defs|
    ensures forall j :: 0 <= j < COMBOS ==> MatchFrom(defs, s, k, button, now).0.combos[j].fired == s.combos[j].fired
    ensures OnlySequences(defs, MatchFrom(defs, s, k, button, now).1)
    decreases |defs| - k
  {
    hide Match, Fires;
    if k < |defs| {
      var (s1, first) := MatchOne(defs, s, k, button, now);
      if IsSequence(defs[k]) { MatchKeepsFired(defs[k], s.combos[k], button, now); }
      MatchersSay(defs, s1, k + 1, button, now);
    }
  }

  lemma MatchKeepsFired(def: Def, p: Progress, button: nat, now: nat)
    requires p.count < |def.buttons|
    ensures Match(def, p, button, now).fired == p.fired
  {
  }

  lemma OneButtonSensed(t: Timing, defs: seq<Def>, s: State, b: nat, now: nat, raw: bool)
    requires s.Valid(defs) && b < BUTTONS
    ensures var (s', events) := PollAt(t, defs, s, b, now, raw);
            var (b', gestures) := PollButton(t, s.buttons[b], now, raw);
            && s'.Valid(defs) && s'.buttons == s.buttons[b := b']
            && (forall j :: 0 <= j < COMBOS ==> s'.combos[j].fired == s.combos[j].fired)
            && (forall j: nat :: HasCombo(events, j) ==> j < |defs| && IsSequence(defs[j]))
            && (forall m: nat, g, x :: HasPress(events, m, g, x) <==> m == b && g in gestures && x == b'.consumed)
  {
    hide PollButton, MatchFrom;
    var (b', gestures) := PollButton(t, s.buttons[b], now, raw);
    var s1 := s.(buttons := s.buttons[b := b']);
    MatchersSay(defs, s1, 0, b, now);
    var presses := PressEvents(b, gestures, b'.consumed);
    forall m: nat, g, x ensures HasPress(presses, m, g, x) <==> m == b && g in gestures && x == b'.consumed {
      if m == b && g in gestures && x == b'.consumed {
        var i :| 0 <= i < |gestures| && gestures[i] == g;
        assert presses[i] == Pressed(m, g, x);
      }
    }
    var matched := MatchFrom(defs, s1, 0, b, now).1;
    assert OnlySequences(defs, matched);
    var fired := if Short in gestures then matched else [];
    assert PollAt(t, defs, s, b, now, raw).1 == presses + fired;
    forall j: nat ensures HasCombo(presses + fired, j) ==> j < |defs| && IsSequence(defs[j]) { HasComboAppend(presses, fired, j); }
    forall m: nat, g, x ensures HasPress(presses + fired, m, g, x) <==> m == b && g in gestures && x == b'.consumed {
      HasPressAppend(presses, fired, m, g, x);
      CombosHoldNoPress(fired, m, g, x);
    }
  }

  lemma HasPressAppend(a: seq<Event>, b: seq<Event>, m: nat, g: Gesture, x: bool)
    ensures HasPress(a + b, m, g, x) <==> HasPress(a, m, g, x) || HasPress(b, m, g, x)
  {
  }

  lemma CombosHoldNoPress(events: seq<Event>, m: nat, g: Gesture, x: bool)
    requires forall i :: 0 <= i < |events| ==> events[i].Combo?
    ensures !HasPress(events, m, g, x)
  {
  }

  lemma {:induction false} ButtonsSensed(t: Timing, defs: seq<Def>, s: State, b: nat, now: nat, raws: seq<bool>)
    requires s.Valid(defs) && b <= BUTTONS && |raws| == BUTTONS
    ensures var (s', events) := PollFrom(t, defs, s, b, now, raws); Sensed(t, defs, s, b, now, raws, s', events)
    decreases BUTTONS - b
  {
    hide PollButton, PollAt, HasCombo, HasPress;
    if b == BUTTONS {
      NoCombo();
      forall m: nat, g, x ensures !HasPress([], m, g, x) { CombosHoldNoPress([], m, g, x); }
    } else {
      var (s1, first) := PollAt(t, defs, s, b, now, raws[b]);
      OneButtonSensed(t, defs, s, b, now, raws[b]);
      ButtonsSensed(t, defs, s1, b + 1, now, raws);
      var (s2, rest) := PollFrom(t, defs, s1, b + 1, now, raws);
      forall j: nat ensures HasCombo(first + rest, j) ==> j < |defs| && IsSequence(defs[j]) { HasComboAppend(first, rest, j); }
      forall m: nat, g, x ensures HasPress(first + rest, m, g, x) <==> HasPress(first, m, g, x) || HasPress(rest, m, g, x) {
        HasPressAppend(first, rest, m, g, x);
      }
    }
  }

  // ---------- a whole poll ----------

  /** A press-down is debounced in this step. */
  predicate GoesDown(b: Button, b': Button) {
    b'.stable && !b.stable
  }

  /** A press-down, and only a press-down, wipes a chord's mark off a button. */
  lemma MarkLastsToPressDown(t: Timing, b: Button, now: nat, raw: bool)
    ensures var b' := PollButton(t, b, now, raw).0; b'.consumed == (b.consumed && !GoesDown(b, b'))
  {
  }

  /** What a poll does, in terms of the buttons before and after it. */
  ghost predicate Polled(defs: seq<Def>, s: State, s': State, events: seq<Event>)
    requires s.Valid(defs)
  {
    && s'.Valid(defs)
    && (forall k :: 0 <= k < |defs| && IsChord(defs[k]) ==>
          && (HasCombo(events, k) <==> Due(s'.buttons, s.combos[k].fired, defs[k]))
          && s'.combos[k].fired == (HasCombo(events, k) || (s.combos[k].fired && Gripped(s'.buttons, defs[k]))))
    && (forall m: nat, g, x :: m < BUTTONS && HasPress(events, m, g, x) ==> x == (s.buttons[m].consumed && !GoesDown(s.buttons[m], s'.buttons[m])))
    && (forall m: nat :: m < BUTTONS ==>
          s'.buttons[m].consumed == ((s.buttons[m].consumed && !GoesDown(s.buttons[m], s'.buttons[m])) || Claimed(defs, events, m)))
  }

  /** A chord that holds button `m` fired. */
  ghost predicate Claimed(defs: seq<Def>, events: seq<Event>, m: nat) {
    exists k :: 0 <= k < |defs| && IsChord(defs[k]) && HasCombo(events, k) && m in defs[k].buttons
  }

  lemma PollSays(t: Timing, defs: seq<Def>, s: State, now: nat, raws: seq<bool>)
    requires s.Valid(defs) && |raws| == BUTTONS
    ensures var (s', events) := Poll(t, defs, s, now, raws); Polled(defs, s, s', events)
    ensures var s' := Poll(t, defs, s, now, raws).0;
            forall m :: 0 <= m < BUTTONS ==>
              s'.buttons[m] == PollButton(t, s.buttons[m], now, raws[m]).0.(consumed := s'.buttons[m].consumed)
  {
    hide PollFrom, ChordsFrom, PollButton, Due, Gripped, HasCombo, HasPress;
    var (s1, presses) := PollFrom(t, defs, s, 0, now, raws);
    ButtonsSensed(t, defs, s, 0, now, raws);
    var (s2, chords) := ChordsFrom(defs, s1, 0);
    ChordsSay(defs, s1, 0);
    assert SameButtons(s1.buttons, s2.buttons);
    forall k: nat | k < |defs| && IsChord(defs[k])
      ensures HasCombo(presses + chords, k) <==> Due(s2.buttons, s.combos[k].fired, defs[k])
      ensures s2.combos[k].fired == (HasCombo(presses + chords, k) || (s.combos[k].fired && Gripped(s2.buttons, defs[k])))
    {
      HasComboAppend(presses, chords, k);
      DueIgnoresMarks(s1.buttons, s2.buttons, s.combos[k].fired, defs[k]);
    }
    forall m: nat, g, x ensures HasPress(presses + chords, m, g, x) <==> HasPress(presses, m, g, x) {
      HasPressAppend(presses, chords, m, g, x);
      CombosHoldNoPress(chords, m, g, x);
    }
    forall m: nat | m < BUTTONS
      ensures s1.buttons[m].consumed == (s.buttons[m].consumed && !GoesDown(s.buttons[m], s2.buttons[m]))
    {
      MarkLastsToPressDown(t, s.buttons[m], now, raws[m]);
    }
    forall m: nat | m < BUTTONS ensures Marks(defs, s1, 0, m) <==> Claimed(defs, presses + chords, m) {
      ClaimsAreMarks(defs, s1, presses, chords, m);
    }
  }

  lemma ClaimsAreMarks(defs: seq<Def>, s: State, presses: seq<Event>, chords: seq<Event>, m: nat)
    requires s.Valid(defs)
    requires forall j: nat :: HasCombo(presses, j) ==> j < |defs| && IsSequence(defs[j])
    requires forall j: nat :: HasCombo(chords, j) <==> j < |defs| && Due(s.buttons, s.combos[j].fired, defs[j])
    ensures Marks(defs, s, 0, m) <==> Claimed(defs, presses + chords, m)
  {
    forall j: nat | j < |defs| ensures HasCombo(presses + chords, j) <==> HasCombo(presses, j) || HasCombo(chords, j) {
      HasComboAppend(presses, chords, j);
    }
  }

  /** A chord that has not fired in this grip fires at a poll exactly when all its buttons are then
      down and were pressed within its window of one another; once it has, it is remembered as
      fired as long as they stay down. */
  lemma ChordFiresExactly(t: Timing, defs: seq<Def>, s: State, now: nat, raws: seq<bool>, k: nat)
    requires s.Valid(defs) && |raws| == BUTTONS && k < |defs| && defs[k].kind == Chord && defs[k].buttons != []
    ensures var (s', events) := Poll(t, defs, s, now, raws);
            var down := forall m :: m in defs[k].buttons ==> m < BUTTONS && s'.buttons[m].stable;
            && (HasCombo(events, k) <==>
                  !s.combos[k].fired && down
                  && forall m, n :: m in defs[k].buttons && n in defs[k].buttons ==>
                       s'.buttons[m].pressStart <= s'.buttons[n].pressStart + defs[k].windowMs)
            && s'.combos[k].fired == (HasCombo(events, k) || (s.combos[k].fired && down))
  {
    hide Poll;
    PollSays(t, defs, s, now, raws);
  }

  // ---------- what a combo carries ----------

  /** Every combo event carries the actions of its own definition. */
  ghost predicate CarriesActions(defs: seq<Def>, events: seq<Event>) {
    forall i :: 0 <= i < |events| && events[i].Combo? ==> events[i].index < |defs| && events[i].actions == defs[events[i].index].actions
  }

  lemma {:induction false} MatchersCarry(defs: seq<Def>, s: State, k: nat, button: nat, now: nat)
    requires s.Valid(defs) && k <= |defs|
    ensures CarriesActions(defs, MatchFrom(defs, s, k, button, now).1)
    decreases |defs| - k
  {
    if k < |defs| { MatchersCarry(defs, MatchOne(defs, s, k, button, now).0, k + 1, button, now); }
  }

  lemma {:induction false} ChordsCarry(defs: seq<Def>, s: State, k: nat)
    requires s.Valid(defs) && k <= |defs|
    ensures CarriesActions(defs, ChordsFrom(defs, s, k).1)
    decreases |defs| - k
  {
    if k < |defs| { ChordsCarry(defs, ChordOne(defs, s, k).0, k + 1); }
  }

  lemma {:induction false} ButtonsCarry(t: Timing, defs: seq<Def>, s: State, b: nat, now: nat, raws: seq<bool>)
    requires s.Valid(defs) && b <= BUTTONS && |raws| == BUTTONS
    ensures CarriesActions(defs, PollFrom(t, defs, s, b, now, raws).1)
    decreases BUTTONS - b
  {
    hide PollButton, MatchFrom;
    if b < BUTTONS {
      MatchersCarry(defs, s.(buttons := s.buttons[b := PollButton(t, s.buttons[b], now, raws[b]).0]), 0, b, now);
      ButtonsCarry(t, defs, PollAt(t, defs, s, b, now, raws[b]).0, b + 1, now, raws);
    }
  }

  lemma CombosCarryTheirActions(t: Timing, defs: seq<Def>, s: State, now: nat, raws: seq<bool>)
    requires s.Valid(defs) && |raws| == BUTTONS
    ensures CarriesActions(defs, Poll(t, defs, s, now, raws).1)
  {
    hide PollFrom, ChordsFrom;
    ButtonsCarry(t, defs, s, 0, now, raws);
    ChordsCarry(defs, PollFrom(t, defs, s, 0, now, raws).0, 0);
  }

  // ---------- the order of events ----------

  /** The presses of a poll come button by button, and what the chords fire comes last. */
  ghost predicate InOrder(defs: seq<Def>, events: seq<Event>) {
    && (forall i, j :: 0 <= i < j < |events| && events[i].Pressed? && events[j].Pressed? ==> events[i].button < events[j].button)
    && (forall i, j :: 0 <= i < j < |events| && OfChord(defs, events[i]) ==> events[j].Combo?)
  }

  ghost predicate OfChord(defs: seq<Def>, event: Event) {
    event.Combo? && event.index < |defs| && IsChord(defs[event.index])
  }

  /** Of the button part: presses of buttons from `b` on in ascending order, and no chord. */
  ghost predicate Ascending(defs: seq<Def>, events: seq<Event>, b: nat) {
    && (forall i :: 0 <= i < |events| ==> !OfChord(defs, events[i]) && (events[i].Pressed? ==> b <= events[i].button))
    && (forall i, j :: 0 <= i < j < |events| && events[i].Pressed? && events[j].Pressed? ==> events[i].button < events[j].button)
  }

  lemma OneButtonAscends(t: Timing, defs: seq<Def>, s: State, b: nat, now: nat, raw: bool)
    requires s.Valid(defs) && b < BUTTONS
    ensures var events := PollAt(t, defs, s, b, now, raw).1;
            Ascending(defs, events, b) && forall i :: 0 <= i < |events| && events[i].Pressed? ==> i == 0 && events[i].button == b
  {
    hide PollButton, MatchFrom;
    var (b', gestures) := PollButton(t, s.buttons[b], now, raw);
    MatchersSay(defs, s.(buttons := s.buttons[b := b']), 0, b, now);
  }

  lemma {:induction false} ButtonsAscend(t: Timing, defs: seq<Def>, s: State, b: nat, now: nat, raws: seq<bool>)
    requires s.Valid(defs) && b <= BUTTONS && |raws| == BUTTONS
    ensures Ascending(defs, PollFrom(t, defs, s, b, now, raws).1, b)
    decreases BUTTONS - b
  {
    hide PollAt, OfChord;
    if b < BUTTONS {
      OneButtonAscends(t, defs, s, b, now, raws[b]);
      ButtonsAscend(t, defs, PollAt(t, defs, s, b, now, raws[b]).0, b + 1, now, raws);
    }
  }

  lemma {:induction false} ChordsAreCombos(defs: seq<Def>, s: State, k: nat)
    requires s.Valid(defs) && k <= |defs|
    ensures forall i :: 0 <= i < |ChordsFrom(defs, s, k).1| ==> ChordsFrom(defs, s, k).1[i].Combo?
    decreases |defs| - k
  {
    if k < |defs| { ChordsAreCombos(defs, ChordOne(defs, s, k).0, k + 1); }
  }

  lemma PollIsInOrder(t: Timing, defs: seq<Def>, s: State, now: nat, raws: seq<bool>)
    requires s.Valid(defs) && |raws| == BUTTONS
    ensures InOrder(defs, Poll(t, defs, s, now, raws).1)
  {
    hide PollFrom, ChordsFrom, OfChord;
    ButtonsAscend(t, defs, s, 0, now, raws);
    ChordsAreCombos(defs, PollFrom(t, defs, s, 0, now, raws).0, 0);
  }

  /** A full queue loses the newest events and never one it already holds. */
  lemma {:induction false} QueueKeepsOlder(queue: seq<Event>, events: seq<Event>)
    requires |queue| <= QUEUE
    ensures queue <= Enqueue(queue, events) && Enqueue(queue, events) <= queue + events
    ensures |Enqueue(queue, events)| == if |queue| + |events| < QUEUE then |queue| + |events| else QUEUE
    decreases |events|
  {
    if events != [] {
      var next := if |queue| < QUEUE then queue + [events[0]] else queue;
      QueueKeepsOlder(next, events[1..]);
      if |queue| < QUEUE {
        assert queue + events == next + events[1..];
      } else {
        assert Enqueue(queue, events) == queue;
      }
    }
  }

  // ---------- over any samples ----------

  ghost predicate Board(defs: seq<Def>, xs: seq<F.Sample>) {
    |defs| <= COMBOS && forall i :: 0 <= i < |xs| ==> |xs[i].raws| == BUTTONS
  }

  /** The engine after the first `n` samples from power-on. */
  ghost function StateAt(t: Timing, defs: seq<Def>, xs: seq<F.Sample>, n: nat): (s: State)
    requires Board(defs, xs) && n <= |xs|
    ensures s.Valid(defs)
    decreases n
  {
    if n == 0 then FRESH else Poll(t, defs, StateAt(t, defs, xs, n - 1), xs[n - 1].now, xs[n - 1].raws).0
  }

  /** What sample `i` makes it emit. */
  ghost function EventsAt(t: Timing, defs: seq<Def>, xs: seq<F.Sample>, i: nat): seq<Event>
    requires Board(defs, xs) && i < |xs|
  {
    Poll(t, defs, StateAt(t, defs, xs, i), xs[i].now, xs[i].raws).1
  }

  lemma SamplePolled(t: Timing, defs: seq<Def>, xs: seq<F.Sample>, i: nat)
    requires Board(defs, xs) && i < |xs|
    ensures Polled(defs, StateAt(t, defs, xs, i), StateAt(t, defs, xs, i + 1), EventsAt(t, defs, xs, i))
  {
    hide Poll, Polled;
    PollSays(t, defs, StateAt(t, defs, xs, i), xs[i].now, xs[i].raws);
  }

  ghost predicate FiresAt(t: Timing, defs: seq<Def>, xs: seq<F.Sample>, i: int, k: nat)
    requires Board(defs, xs)
  {
    0 <= i < |xs| && HasCombo(EventsAt(t, defs, xs, i), k)
  }

  /** Some button of the chord is up after sample `i`. */
  ghost predicate LetGo(t: Timing, defs: seq<Def>, xs: seq<F.Sample>, i: int, k: nat)
    requires Board(defs, xs) && k < |defs|
  {
    0 <= i < |xs| && !Gripped(StateAt(t, defs, xs, i + 1).buttons, defs[k])
  }

  lemma {:induction false} FiredWhileGripped(t: Timing, defs: seq<Def>, xs: seq<F.Sample>, k: nat, i: nat, j: nat)
    requires Board(defs, xs) && k < |defs| && IsChord(defs[k]) && i < j <= |xs| && FiresAt(t, defs, xs, i, k)
    requires forall l :: i < l < j ==> !LetGo(t, defs, xs, l, k)
    ensures StateAt(t, defs, xs, j).combos[k].fired
    decreases j
  {
    hide Gripped, HasCombo, StateAt, EventsAt, Due;
    SamplePolled(t, defs, xs, j - 1);
    if j - 1 > i {
      FiredWhileGripped(t, defs, xs, k, i, j - 1);
      assert !LetGo(t, defs, xs, j - 1, k);
    }
  }

  /** A chord fires at most once until one of its buttons is let go. */
  lemma FiresOncePerGrip(t: Timing, defs: seq<Def>, xs: seq<F.Sample>, k: nat, i: nat, j: nat)
    requires Board(defs, xs) && k < |defs| && IsChord(defs[k]) && i < j && FiresAt(t, defs, xs, i, k) && FiresAt(t, defs, xs, j, k)
    ensures exists l :: i < l < j && LetGo(t, defs, xs, l, k)
  {
    hide Gripped, HasCombo, StateAt, EventsAt;
    if forall l :: i < l < j ==> !LetGo(t, defs, xs, l, k) {
      FiredWhileGripped(t, defs, xs, k, i, j);
      SamplePolled(t, defs, xs, j);
    }
  }

  /** Button `m` is pressed down at sample `i`. */
  ghost predicate PressedAt(t: Timing, defs: seq<Def>, xs: seq<F.Sample>, i: int, m: nat)
    requires Board(defs, xs) && m < BUTTONS
  {
    0 <= i < |xs| && GoesDown(StateAt(t, defs, xs, i).buttons[m], StateAt(t, defs, xs, i + 1).buttons[m])
  }

  /** A chord that holds `m` fired at sample `l`, and `m` was not pressed down again before `n`. */
  ghost predicate SilencedSince(t: Timing, defs: seq<Def>, xs: seq<F.Sample>, l: int, n: int, m: nat)
    requires Board(defs, xs) && m < BUTTONS
  {
    && 0 <= l < |xs| && Claimed(defs, EventsAt(t, defs, xs, l), m)
    && forall q :: l < q < n ==> !PressedAt(t, defs, xs, q, m)
  }

  lemma {:induction false} MarkMeansSilenced(t: Timing, defs: seq<Def>, xs: seq<F.Sample>, n: nat, m: nat)
    requires Board(defs, xs) && n <= |xs| && m < BUTTONS
    ensures StateAt(t, defs, xs, n).buttons[m].consumed <==> exists l :: 0 <= l < n && SilencedSince(t, defs, xs, l, n, m)
    decreases n
  {
    hide Claimed, EventsAt, Poll, GoesDown;
    if n > 0 {
      SamplePolled(t, defs, xs, n - 1);
      MarkMeansSilenced(t, defs, xs, n - 1, m);
      hide StateAt;
      var down := PressedAt(t, defs, xs, n - 1, m);
      if StateAt(t, defs, xs, n - 1).buttons[m].consumed && !down {
        var l :| 0 <= l < n - 1 && SilencedSince(t, defs, xs, l, n - 1, m);
        assert SilencedSince(t, defs, xs, l, n, m);
      }
      if Claimed(defs, EventsAt(t, defs, xs, n - 1), m) { assert SilencedSince(t, defs, xs, n - 1, n, m); }
      if l :| 0 <= l < n && SilencedSince(t, defs, xs, l, n, m) {
        if l < n - 1 { assert SilencedSince(t, defs, xs, l, n - 1, m); }
      }
    }
  }

  /** A chord that holds `m` fired at sample `l`, and `m` was not pressed down again up to `i`. */
  ghost predicate SilencedThrough(t: Timing, defs: seq<Def>, xs: seq<F.Sample>, l: int, i: int, m: nat)
    requires Board(defs, xs) && m < BUTTONS
  {
    SilencedSince(t, defs, xs, l, i, m) && !PressedAt(t, defs, xs, i, m)
  }

  /** A press event is suppressed exactly when a chord that holds its button has fired and the
      button was not pressed down again since, the sample of the event included. */
  lemma SuppressedExactly(t: Timing, defs: seq<Def>, xs: seq<F.Sample>, i: nat, m: nat, g: Gesture, suppressed: bool)
    requires Board(defs, xs) && i < |xs| && m < BUTTONS && Pressed(m, g, suppressed) in EventsAt(t, defs, xs, i)
    ensures suppressed <==> exists l :: 0 <= l < i && SilencedThrough(t, defs, xs, l, i, m)
  {
    hide Claimed, EventsAt, StateAt, GoesDown;
    SamplePolled(t, defs, xs, i);
    assert HasPress(EventsAt(t, defs, xs, i), m, g, suppressed);
    MarkMeansSilenced(t, defs, xs, i, m);
    if suppressed {
      var l :| 0 <= l < i && SilencedSince(t, defs, xs, l, i, m);
      assert SilencedThrough(t, defs, xs, l, i, m);
    }
  }

  // A press of a chord's button can escape the suppression: pressed again within the double-press
  // gap and held, the button is told as short for the first press, unmarked by the second.

  /** Every gesture a button tells in a poll is an event of it. */
  lemma GesturesAreEvents(t: Timing, defs: seq<Def>, s: State, now: nat, raws: seq<bool>, m: nat, g: Gesture)
    requires s.Valid(defs) && |raws| == BUTTONS && m < BUTTONS && g in PollButton(t, s.buttons[m], now, raws[m]).1
    ensures exists x :: Pressed(m, g, x) in Poll(t, defs, s, now, raws).1
  {
    hide PollFrom, ChordsFrom, PollButton;
    var (s1, presses) := PollFrom(t, defs, s, 0, now, raws);
    ButtonsSensed(t, defs, s, 0, now, raws);
    var x := PollButton(t, s.buttons[m], now, raws[m]).0.consumed;
    assert HasPress(presses, m, g, x);
    assert Pressed(m, g, x) in presses + ChordsFrom(defs, s1, 0).1;
  }

  lemma ButtonStep(t: Timing, defs: seq<Def>, xs: seq<F.Sample>, n: nat, m: nat)
    requires Board(defs, xs) && n < |xs| && m < BUTTONS
    ensures var b, b' := StateAt(t, defs, xs, n).buttons[m], StateAt(t, defs, xs, n + 1).buttons[m];
            b' == PollButton(t, b, xs[n].now, xs[n].raws[m]).0.(consumed := b'.consumed)
  {
    hide Poll, PollButton;
    PollSays(t, defs, StateAt(t, defs, xs, n), xs[n].now, xs[n].raws);
  }

  /** One sample of the first two buttons, the others up. */
  function Pair(now: nat, first: bool, second: bool): F.Sample {
    F.Sample(now, [first, second, false, false, false, false, false, false])
  }

  const USUAL: Timing := Timing(20, 600, 350)
  const BOTH: seq<Def> := [Def(Chord, [0, 1], 200, [3])]

  /** Both pressed and let go, then the first pressed again and held. */
  function PressedAgain(): (xs: seq<F.Sample>)
    ensures |xs| == 7 && Board(BOTH, xs)
  {
    [Pair(0, true, true), Pair(20, true, true), Pair(30, false, false), Pair(50, false, false),
     Pair(60, true, false), Pair(80, true, false), Pair(400, true, false)]
  }

  /** What the two buttons have been through after `n` of these samples, marks aside. */
  ghost predicate Seen(n: nat, first: Button, second: Button) {
    var xs := PressedAgain();
    n <= |xs| && F.Core(StateAt(USUAL, BOTH, xs, n).buttons[0]) == first && F.Core(StateAt(USUAL, BOTH, xs, n).buttons[1]) == second
  }

  lemma SeenStep(n: nat, now: nat, one: bool, two: bool, first: Button, second: Button)
    requires n < 7 && PressedAgain()[n] == Pair(now, one, two) && Seen(n, first, second)
    ensures Seen(n + 1, F.Core(PollButton(USUAL, first, now, one).0), F.Core(PollButton(USUAL, second, now, two).0))
    ensures PollButton(USUAL, first, now, one).1 == PollButton(USUAL, StateAt(USUAL, BOTH, PressedAgain(), n).buttons[0], now, one).1
  {
    hide PollButton, StateAt, PressedAgain;
    var xs := PressedAgain();
    ButtonStep(USUAL, BOTH, xs, n, 0);
    ButtonStep(USUAL, BOTH, xs, n, 1);
    var s := StateAt(USUAL, BOTH, xs, n);
    F.PollButtonIgnoresMark(USUAL, s.buttons[0], first, now, one);
    F.PollButtonIgnoresMark(USUAL, s.buttons[1], second, now, two);
  }

  lemma SeenThroughout()
    ensures Seen(1, Button(true, false, 0, 0, false, false, 0, false), Button(true, false, 0, 0, false, false, 0, false))
    ensures Seen(2, Button(true, true, 0, 20, false, false, 0, false), Button(true, true, 0, 20, false, false, 0, false))
    ensures Seen(5, Button(true, false, 60, 20, false, true, 50, false), Button(false, false, 30, 20, false, true, 50, false))
    ensures Seen(6, Button(true, true, 60, 80, false, true, 50, false), Button(false, false, 30, 20, false, true, 50, false))
  {
    hide StateAt;
    var up := Button(false, false, 0, 0, false, false, 0, false);
    assert Seen(0, up, up) by { StartsFresh(); }
    SeenStep(0, 0, true, true, up, up);
    var c1 := Button(true, false, 0, 0, false, false, 0, false);
    SeenStep(1, 20, true, true, c1, c1);
    var d := Button(true, true, 0, 20, false, false, 0, false);
    SeenStep(2, 30, false, false, d, d);
    var o := Button(false, true, 30, 20, false, false, 0, false);
    SeenStep(3, 50, false, false, o, o);
    var w := Button(false, false, 30, 20, false, true, 50, false);
    SeenStep(4, 60, true, false, w, w);
    SeenStep(5, 80, true, false, Button(true, false, 60, 20, false, true, 50, false), w);
  }

  lemma StartsFresh()
    ensures Seen(0, FRESH_BUTTON, FRESH_BUTTON)
  {
  }

  /** The chord fires at the second sample; the short press of that hold comes at the last one and
      is not suppressed. */
  lemma ChordPressEscapes()
    ensures var xs := PressedAgain();
            Board(BOTH, xs) && FiresAt(USUAL, BOTH, xs, 1, 0) && Pressed(0, Short, false) in EventsAt(USUAL, BOTH, xs, 6)
  {
    hide StateAt, EventsAt, Poll, PollButton, HasCombo, Claimed;
    var xs := PressedAgain();
    SeenThroughout();
    FiresEarly();
    var s5, s6 := StateAt(USUAL, BOTH, xs, 5), StateAt(USUAL, BOTH, xs, 6);
    assert !s6.buttons[0].consumed by { Unmarked(); }
    LastTellsShort();
    GesturesAreEvents(USUAL, BOTH, s6, xs[6].now, xs[6].raws, 0, Short);
    EventsAre(xs, 6);
    var x :| Pressed(0, Short, x) in EventsAt(USUAL, BOTH, xs, 6);
    SamplePolled(USUAL, BOTH, xs, 6);
    assert HasPress(EventsAt(USUAL, BOTH, xs, 6), 0, Short, x);
  }

  lemma EventsAre(xs: seq<F.Sample>, i: nat)
    requires Board(BOTH, xs) && i < |xs|
    ensures EventsAt(USUAL, BOTH, xs, i) == Poll(USUAL, BOTH, StateAt(USUAL, BOTH, xs, i), xs[i].now, xs[i].raws).1
  {
  }

  lemma FiresEarly()
    ensures FiresAt(USUAL, BOTH, PressedAgain(), 1, 0)
  {
    hide StateAt, EventsAt, HasCombo;
    var xs := PressedAgain();
    SeenThroughout();
    SamplePolled(USUAL, BOTH, xs, 0);
    SamplePolled(USUAL, BOTH, xs, 1);
    var s1, s2 := StateAt(USUAL, BOTH, xs, 1), StateAt(USUAL, BOTH, xs, 2);
    assert !s1.combos[0].fired by {
      assert !s1.buttons[0].stable && 0 in BOTH[0].buttons;
      assert !StateAt(USUAL, BOTH, xs, 0).combos[0].fired by { StartsUnfired(xs); }
    }
    assert s2.buttons[0].stable && s2.buttons[1].stable && s2.buttons[0].pressStart == s2.buttons[1].pressStart;
  }

  lemma StartsUnfired(xs: seq<F.Sample>)
    requires Board(BOTH, xs)
    ensures !StateAt(USUAL, BOTH, xs, 0).combos[0].fired
  {
  }

  lemma Unmarked()
    ensures !StateAt(USUAL, BOTH, PressedAgain(), 6).buttons[0].consumed
  {
    hide StateAt, EventsAt, HasCombo;
    var xs := PressedAgain();
    SeenThroughout();
    SamplePolled(USUAL, BOTH, xs, 5);
    assert !StateAt(USUAL, BOTH, xs, 6).buttons[1].stable && 1 in BOTH[0].buttons;
  }

  lemma LastTellsShort()
    ensures Short in PollButton(USUAL, StateAt(USUAL, BOTH, PressedAgain(), 6).buttons[0], 400, true).1
  {
    hide StateAt;
    SeenThroughout();
    var b := Button(true, true, 60, 80, false, true, 50, false);
    SeenStep(6, 400, true, false, b, Button(false, false, 30, 20, false, true, 50, false));
    assert PollButton(USUAL, b, 400, true).1 == [Short];
  }
}
