/**
  Chords and sequences cannot starve the cheat-code: the combos configured change
  neither which button presses are emitted nor, with the queue drained between polls,
  which are delivered.
 */
module InputFairness {
  import opened Input

  /** A button's state without the mark a chord leaves on it. */
  function Core(b: Button): Button {
    b.(consumed := false)
  }

  ghost predicate SameCore(s: State, s': State) {
    |s.buttons| == |s'.buttons| && forall i :: 0 <= i < |s.buttons| ==> Core(s.buttons[i]) == Core(s'.buttons[i])
  }

  /** What the cheat-code sees of a list of events: which button, which gesture. */
  function PressesOf(events: seq<Event>): seq<(nat, Gesture)> {
    if events == [] then []
    else (if events[0].Pressed? then [(events[0].button, events[0].gesture)] else []) + PressesOf(events[1..])
  }

  lemma {:induction false} PressesOfAppend(a: seq<Event>, b: seq<Event>)
    ensures PressesOf(a + b) == PressesOf(a) + PressesOf(b)
  {
    if a == [] {
      assert a + b == b;
    } else {
      assert (a + b)[1..] == a[1..] + b;
      PressesOfAppend(a[1..], b);
    }
  }

  lemma {:induction false} CombosAreNoPresses(events: seq<Event>)
    requires forall i :: 0 <= i < |events| ==> events[i].Combo?
    ensures PressesOf(events) == []
  {
    if events != [] { CombosAreNoPresses(events[1..]); }
  }

  lemma {:induction false} MatchEmitsCombos(defs: seq<Def>, s: State, k: nat, button: nat, now: nat)
    requires s.Valid(defs) && k <= |defs|
    ensures PressesOf(MatchFrom(defs, s, k, button, now).1) == []
    decreases |defs| - k
  {
    if k < |defs| {
      var (s1, first) := MatchOne(defs, s, k, button, now);
      CombosAreNoPresses(first);
      MatchEmitsCombos(defs, s1, k + 1, button, now);
      PressesOfAppend(first, MatchFrom(defs, s1, k + 1, button, now).1);
    }
  }

  lemma {:induction false} ChordsEmitCombos(defs: seq<Def>, s: State, k: nat)
    requires s.Valid(defs) && k <= |defs|
    ensures PressesOf(ChordsFrom(defs, s, k).1) == [] && SameCore(s, ChordsFrom(defs, s, k).0)
    decreases |defs| - k
  {
    if k < |defs| {
      var (s1, first) := ChordOne(defs, s, k);
      CombosAreNoPresses(first);
      ChordsEmitCombos(defs, s1, k + 1);
      PressesOfAppend(first, ChordsFrom(defs, s1, k + 1).1);
    }
  }

  lemma DebounceIgnoresMark(t: Timing, b: Button, b': Button, now: nat, raw: bool)
    requires Core(b) == Core(b')
    ensures var r, r' := Debounce(t, b, now, raw), Debounce(t, b', now, raw); Core(r.0) == Core(r'.0) && r.1 == r'.1
  {
    assert b.raw == b'.raw && b.stable == b'.stable && b.rawChange == b'.rawChange && b.longFired == b'.longFired;
    assert b.pending == b'.pending && b.lastRelease == b'.lastRelease && b.pressStart == b'.pressStart;
  }

  lemma ChecksIgnoreMark(t: Timing, b: Button, b': Button, now: nat)
    requires Core(b) == Core(b')
    ensures var r, r' := CheckLong(t, b, now), CheckLong(t, b', now); Core(r.0) == Core(r'.0) && r.1 == r'.1
    ensures var r, r' := CheckShort(t, b, now), CheckShort(t, b', now); Core(r.0) == Core(r'.0) && r.1 == r'.1
  {
    assert b.stable == b'.stable && b.longFired == b'.longFired && b.pressStart == b'.pressStart;
    assert b.pending == b'.pending && b.lastRelease == b'.lastRelease;
  }

  lemma PollButtonIgnoresMark(t: Timing, b: Button, b': Button, now: nat, raw: bool)
    requires Core(b) == Core(b')
    ensures Core(PollButton(t, b, now, raw).0) == Core(PollButton(t, b', now, raw).0)
    ensures PollButton(t, b, now, raw).1 == PollButton(t, b', now, raw).1
  {
    DebounceIgnoresMark(t, b, b', now, raw);
    var c, c' := Debounce(t, b, now, raw).0, Debounce(t, b', now, raw).0;
    ChecksIgnoreMark(t, c, c', now);
    ChecksIgnoreMark(t, CheckLong(t, c, now).0, CheckLong(t, c', now).0, now);
  }

  lemma {:induction false} PressesOfPressEvents(b: nat, gestures: seq<Gesture>, x: bool, y: bool)
    requires |gestures| <= 1
    ensures PressesOf(PressEvents(b, gestures, x)) == PressesOf(PressEvents(b, gestures, y))
  {
    if gestures != [] {
      assert PressEvents(b, gestures, x)[1..] == [] && PressEvents(b, gestures, y)[1..] == [];
    }
  }

  lemma PollAtPresses(t: Timing, defs: seq<Def>, s: State, b: nat, now: nat, raw: bool)
    requires s.Valid(defs) && b < BUTTONS
    ensures var (b', gestures) := PollButton(t, s.buttons[b], now, raw);
            && PressesOf(PollAt(t, defs, s, b, now, raw).1) == PressesOf(PressEvents(b, gestures, b'.consumed))
            && PollAt(t, defs, s, b, now, raw).0.buttons == s.buttons[b := b']
  {
    var (b', gestures) := PollButton(t, s.buttons[b], now, raw);
    var s1 := s.(buttons := s.buttons[b := b']);
    if Short in gestures {
      MatchEmitsCombos(defs, s1, 0, b, now);
      PressesOfAppend(PressEvents(b, gestures, b'.consumed), MatchFrom(defs, s1, 0, b, now).1);
    }
  }

  lemma {:induction false} PollFromIgnoresCombos(t: Timing, defs: seq<Def>, defs': seq<Def>, s: State, s': State, b: nat, now: nat, raws: seq<bool>)
    requires s.Valid(defs) && s'.Valid(defs') && SameCore(s, s') && b <= BUTTONS && |raws| == BUTTONS
    ensures var r, r' := PollFrom(t, defs, s, b, now, raws), PollFrom(t, defs', s', b, now, raws);
            PressesOf(r.1) == PressesOf(r'.1) && SameCore(r.0, r'.0)
    decreases BUTTONS - b
  {
    if b < BUTTONS {
      var p, p' := PollAt(t, defs, s, b, now, raws[b]), PollAt(t, defs', s', b, now, raws[b]);
      PollAtPresses(t, defs, s, b, now, raws[b]);
      PollAtPresses(t, defs', s', b, now, raws[b]);
      PollButtonIgnoresMark(t, s.buttons[b], s'.buttons[b], now, raws[b]);
      var q, q' := PollButton(t, s.buttons[b], now, raws[b]), PollButton(t, s'.buttons[b], now, raws[b]);
      PressesOfPressEvents(b, q.1, q.0.consumed, q'.0.consumed);
      PollFromIgnoresCombos(t, defs, defs', p.0, p'.0, b + 1, now, raws);
      PressesOfAppend(p.1, PollFrom(t, defs, p.0, b + 1, now, raws).1);
      PressesOfAppend(p'.1, PollFrom(t, defs', p'.0, b + 1, now, raws).1);
    }
  }

  lemma PollIgnoresCombos(t: Timing, defs: seq<Def>, defs': seq<Def>, s: State, s': State, now: nat, raws: seq<bool>)
    requires s.Valid(defs) && s'.Valid(defs') && SameCore(s, s') && |raws| == BUTTONS
    ensures var r, r' := Poll(t, defs, s, now, raws), Poll(t, defs', s', now, raws);
            PressesOf(r.1) == PressesOf(r'.1) && SameCore(r.0, r'.0)
  {
    hide PollFrom, ChordsFrom, PressesOf;
    PollFromIgnoresCombos(t, defs, defs', s, s', 0, now, raws);
    var p, p' := PollFrom(t, defs, s, 0, now, raws), PollFrom(t, defs', s', 0, now, raws);
    ChordsEmitCombos(defs, p.0, 0);
    ChordsEmitCombos(defs', p'.0, 0);
    PressesOfAppend(p.1, ChordsFrom(defs, p.0, 0).1);
    PressesOfAppend(p'.1, ChordsFrom(defs', p'.0, 0).1);
  }

  // ---------- the queue is large enough ----------

  /** Sequences among the combos from `k` on whose last button is exactly `b`, or at least `b`. */
  function EndingAt(defs: seq<Def>, k: nat, b: nat): (n: nat)
    requires k <= |defs|
    decreases |defs| - k
  {
    if k == |defs| then 0
    else (if IsSequence(defs[k]) && Last(defs[k]) == b then 1 else 0) + EndingAt(defs, k + 1, b)
  }

  function EndingFrom(defs: seq<Def>, k: nat, b: nat): (n: nat)
    requires k <= |defs|
    decreases |defs| - k
  {
    if k == |defs| then 0
    else (if IsSequence(defs[k]) && Last(defs[k]) >= b then 1 else 0) + EndingFrom(defs, k + 1, b)
  }

  function Chords(defs: seq<Def>, k: nat): (n: nat)
    requires k <= |defs|
    decreases |defs| - k
  {
    if k == |defs| then 0 else (if IsChord(defs[k]) then 1 else 0) + Chords(defs, k + 1)
  }

  function Last(def: Def): nat
    requires def.buttons != []
  {
    def.buttons[|def.buttons| - 1]
  }

  lemma {:induction false} EndingSplits(defs: seq<Def>, k: nat, b: nat)
    requires k <= |defs|
    ensures EndingFrom(defs, k, b) == EndingAt(defs, k, b) + EndingFrom(defs, k, b + 1)
    ensures EndingFrom(defs, k, 0) + Chords(defs, k) <= |defs| - k
    decreases |defs| - k
  {
    if k < |defs| { EndingSplits(defs, k + 1, b); }
  }

  /** A sequence can only fire on its last button. */
  lemma {:induction false} MatchBound(defs: seq<Def>, s: State, k: nat, button: nat, now: nat)
    requires s.Valid(defs) && k <= |defs|
    ensures |MatchFrom(defs, s, k, button, now).1| <= EndingAt(defs, k, button)
    decreases |defs| - k
  {
    if k < |defs| { MatchBound(defs, MatchOne(defs, s, k, button, now).0, k + 1, button, now); }
  }

  lemma {:induction false} PollFromBound(t: Timing, defs: seq<Def>, s: State, b: nat, now: nat, raws: seq<bool>)
    requires s.Valid(defs) && b <= BUTTONS && |raws| == BUTTONS
    ensures |PollFrom(t, defs, s, b, now, raws).1| <= BUTTONS - b + EndingFrom(defs, 0, b)
    decreases BUTTONS - b
  {
    if b < BUTTONS {
      var b' := PollButton(t, s.buttons[b], now, raws[b]).0;
      MatchBound(defs, s.(buttons := s.buttons[b := b']), 0, b, now);
      EndingSplits(defs, 0, b);
      PollFromBound(t, defs, PollAt(t, defs, s, b, now, raws[b]).0, b + 1, now, raws);
    }
  }

  lemma {:induction false} ChordsBound(defs: seq<Def>, s: State, k: nat)
    requires s.Valid(defs) && k <= |defs|
    ensures |ChordsFrom(defs, s, k).1| <= Chords(defs, k)
    decreases |defs| - k
  {
    if k < |defs| { ChordsBound(defs, ChordOne(defs, s, k).0, k + 1); }
  }

  /** No poll emits more than the queue holds: one gesture a button and one firing a combo. */
  lemma OnePollFits(t: Timing, defs: seq<Def>, s: State, now: nat, raws: seq<bool>)
    requires s.Valid(defs) && |raws| == BUTTONS
    ensures |Poll(t, defs, s, now, raws).1| <= BUTTONS + |defs| <= QUEUE
  {
    PollFromBound(t, defs, s, 0, now, raws);
    ChordsBound(defs, PollFrom(t, defs, s, 0, now, raws).0, 0);
    EndingSplits(defs, 0, 0);
  }

  // ---------- runs ----------

  datatype Sample = Sample(now: nat, raws: seq<bool>)

  ghost predicate Samples(polls: seq<Sample>) {
    forall i :: 0 <= i < |polls| ==> |polls[i].raws| == BUTTONS
  }

  /** Everything the loop that drains the queue after each poll takes out of it. */
  function Delivered(t: Timing, defs: seq<Def>, s: State, polls: seq<Sample>): seq<Event>
    requires s.Valid(defs) && Samples(polls)
    decreases |polls|
  {
    if polls == [] then []
    else
      var (s', events) := Poll(t, defs, s, polls[0].now, polls[0].raws);
      Enqueue([], events) + Delivered(t, defs, s', polls[1..])
  }

  lemma NothingIsDropped(t: Timing, defs: seq<Def>, s: State, polls: seq<Sample>)
    requires s.Valid(defs) && Samples(polls) && polls != []
    ensures var (s', events) := Poll(t, defs, s, polls[0].now, polls[0].raws);
            Delivered(t, defs, s, polls) == events + Delivered(t, defs, s', polls[1..])
  {
    OnePollFits(t, defs, s, polls[0].now, polls[0].raws);
    EnqueueFits(Poll(t, defs, s, polls[0].now, polls[0].raws).1);
  }

  lemma EnqueueFits(events: seq<Event>)
    requires |events| <= QUEUE
    ensures Enqueue([], events) == events
  {
    assert [] + events == events;
  }

  /** Two engines with the same timing and the same raw samples but any combos at all
      deliver the same button presses; with a queue drained every poll none is lost. */
  lemma {:induction false} CombosCannotStarve(t: Timing, defs: seq<Def>, defs': seq<Def>, s: State, s': State, polls: seq<Sample>)
    requires s.Valid(defs) && s'.Valid(defs') && SameCore(s, s') && Samples(polls)
    ensures PressesOf(Delivered(t, defs, s, polls)) == PressesOf(Delivered(t, defs', s', polls))
    decreases |polls|
  {
    if polls != [] {
      var p, p' := Poll(t, defs, s, polls[0].now, polls[0].raws), Poll(t, defs', s', polls[0].now, polls[0].raws);
      PollIgnoresCombos(t, defs, defs', s, s', polls[0].now, polls[0].raws);
      CombosCannotStarve(t, defs, defs', p.0, p'.0, polls[1..]);
      DeliveredPresses(t, defs, s, polls);
      DeliveredPresses(t, defs', s', polls);
    }
  }

  lemma DeliveredPresses(t: Timing, defs: seq<Def>, s: State, polls: seq<Sample>)
    requires s.Valid(defs) && Samples(polls) && polls != []
    ensures var p := Poll(t, defs, s, polls[0].now, polls[0].raws);
            PressesOf(Delivered(t, defs, s, polls)) == PressesOf(p.1) + PressesOf(Delivered(t, defs, p.0, polls[1..]))
  {
    var p := Poll(t, defs, s, polls[0].now, polls[0].raws);
    NothingIsDropped(t, defs, s, polls);
    PressesOfAppend(p.1, Delivered(t, defs, p.0, polls[1..]));
  }
}
