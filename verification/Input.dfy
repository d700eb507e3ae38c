/**
  The input engine (firmware/components/core/mc_input.c): debounce, the short, long and
  double gestures, the sequence and chord matchers, and a bounded event queue.
 */
module Input {

  const BUTTONS: nat := 8
  const COMBOS: nat := 8
  const QUEUE: nat := 16

  datatype Gesture = Short | Long | Double
  datatype Kind = Chord | Sequence
  datatype Def = Def(kind: Kind, buttons: seq<nat>, windowMs: nat, actions: seq<nat>)
  datatype Timing = Timing(debounceMs: nat, longMs: nat, gapMs: nat)

  datatype Event =
    | Pressed(button: nat, gesture: Gesture, suppressed: bool)
    | Combo(index: nat, actions: seq<nat>)

  datatype Button = Button(
    raw: bool,
    stable: bool,
    rawChange: nat,
    pressStart: nat,
    longFired: bool,
    pending: bool,
    lastRelease: nat,
    consumed: bool)

  datatype Progress = Progress(count: nat, start: nat, fired: bool)

  /** Everything but the configuration and the queue. */
  datatype State = State(buttons: seq<Button>, combos: seq<Progress>)
  {
    ghost predicate Valid(defs: seq<Def>) {
      && |buttons| == BUTTONS && |combos| == COMBOS && |defs| <= COMBOS
      && forall k :: 0 <= k < |defs| && defs[k].buttons != [] ==> combos[k].count < |defs[k].buttons|
    }
  }

  const FRESH_BUTTON: Button := Button(false, false, 0, 0, false, false, 0, false)
  const IDLE: Progress := Progress(0, 0, false)
  const FRESH: State :=
    State([FRESH_BUTTON, FRESH_BUTTON, FRESH_BUTTON, FRESH_BUTTON, FRESH_BUTTON, FRESH_BUTTON, FRESH_BUTTON, FRESH_BUTTON],
          [IDLE, IDLE, IDLE, IDLE, IDLE, IDLE, IDLE, IDLE])

  // ---------- one button ----------

  /** A debounced edge, once the raw level has held long enough. */
  predicate EdgeDue(t: Timing, b: Button, now: nat, raw: bool) {
    raw == b.raw && b.raw != b.stable && now - b.rawChange >= t.debounceMs
  }

  function PressDown(b: Button, now: nat): Button {
    b.(stable := true, pressStart := now, longFired := false, consumed := false)
  }

  /** A release that ends no long press: the second of a double, or one that waits. */
  predicate CompletesDouble(t: Timing, b: Button, now: nat) {
    !b.longFired && b.pending && now - b.lastRelease < t.gapMs + 1
  }

  function Release(t: Timing, b: Button, now: nat): Button {
    var b1 := b.(stable := false);
    if b.longFired then b1
    else if CompletesDouble(t, b, now) then b1.(pending := false)
    else b1.(pending := true, lastRelease := now)
  }

  /** The debouncer; emits a double when a release completes one. */
  function Debounce(t: Timing, b: Button, now: nat, raw: bool): (Button, seq<Gesture>) {
    if raw != b.raw then (b.(raw := raw, rawChange := now), [])
    else if !EdgeDue(t, b, now, raw) then (b, [])
    else if b.raw then (PressDown(b, now), [])
    else (Release(t, b, now), if CompletesDouble(t, b, now) then [Double] else [])
  }

  predicate LongDue(t: Timing, b: Button, now: nat) {
    b.stable && !b.longFired && now - b.pressStart >= t.longMs
  }

  function CheckLong(t: Timing, b: Button, now: nat): (Button, seq<Gesture>) {
    if LongDue(t, b, now) then (b.(longFired := true, pending := false), [Long]) else (b, [])
  }

  predicate ShortDue(t: Timing, b: Button, now: nat) {
    b.pending && now - b.lastRelease >= t.gapMs
  }

  function CheckShort(t: Timing, b: Button, now: nat): (Button, seq<Gesture>) {
    if ShortDue(t, b, now) then (b.(pending := false), [Short]) else (b, [])
  }

  /** One poll of one button: its new state and the gestures it emits, in order. */
  function PollButton(t: Timing, b: Button, now: nat, raw: bool): (r: (Button, seq<Gesture>))
    ensures |r.1| <= 1
  {
    var (b1, g1) := Debounce(t, b, now, raw);
    var (b2, g2) := CheckLong(t, b1, now);
    var (b3, g3) := CheckShort(t, b2, now);
    (b3, g1 + g2 + g3)
  }

  // ---------- sequences ----------

  function Timeout(def: Def, p: Progress, now: nat): Progress {
    if p.count > 0 && now - p.start >= def.windowMs then p.(count := 0) else p
  }

  predicate Fires(def: Def, p: Progress, button: nat, now: nat)
    requires p.count < |def.buttons|
  {
    var p1 := Timeout(def, p, now);
    def.buttons[p1.count] == button && p1.count + 1 == |def.buttons|
  }

  /** A sequence's progress after one more short press. */
  function Match(def: Def, p: Progress, button: nat, now: nat): (p': Progress)
    requires p.count < |def.buttons|
    ensures p'.count < |def.buttons|
  {
    var p1 := Timeout(def, p, now);
    if def.buttons[p1.count] == button then
      var p2 := if p1.count == 0 then p1.(start := now) else p1;
      p2.(count := if p1.count + 1 == |def.buttons| then 0 else p1.count + 1)
    else if def.buttons[0] == button then p1.(count := 1, start := now)
    else p1.(count := 0)
  }

  predicate IsSequence(def: Def) {
    def.kind.Sequence? && def.buttons != []
  }

  /** One short press offered to combo `k`. */
  function MatchOne(defs: seq<Def>, s: State, k: nat, button: nat, now: nat): (r: (State, seq<Event>))
    requires s.Valid(defs) && k < |defs|
    ensures r.0.Valid(defs) && r.0.buttons == s.buttons && |r.1| <= 1
    ensures r.1 != [] ==> r.1[0].Combo? && IsSequence(defs[k]) && defs[k].buttons[|defs[k].buttons| - 1] == button
  {
    if !IsSequence(defs[k]) then (s, [])
    else (s.(combos := s.combos[k := Match(defs[k], s.combos[k], button, now)]),
          if Fires(defs[k], s.combos[k], button, now) then [Combo(k, defs[k].actions)] else [])
  }

  function MatchFrom(defs: seq<Def>, s: State, k: nat, button: nat, now: nat): (r: (State, seq<Event>))
    requires s.Valid(defs) && k <= |defs|
    ensures r.0.Valid(defs) && r.0.buttons == s.buttons
    decreases |defs| - k
  {
    if k == |defs| then (s, [])
    else
      var (s1, first) := MatchOne(defs, s, k, button, now);
      var (s2, rest) := MatchFrom(defs, s1, k + 1, button, now);
      (s2, first + rest)
  }

  // ---------- chords ----------

  predicate AllDown(buttons: seq<Button>, members: seq<nat>) {
    forall i :: 0 <= i < |members| ==> members[i] < |buttons| && buttons[members[i]].stable
  }

  /** Every member was pressed within `windowMs` of every other. */
  predicate Together(buttons: seq<Button>, members: seq<nat>, windowMs: nat)
    requires AllDown(buttons, members)
  {
    forall i, j :: 0 <= i < |members| && 0 <= j < |members| ==>
      buttons[members[i]].pressStart - buttons[members[j]].pressStart <= windowMs
  }

  function Consume(buttons: seq<Button>, members: seq<nat>): (r: seq<Button>)
    ensures |r| == |buttons|
  {
    seq(|buttons|, i requires 0 <= i < |buttons| => if i in members then buttons[i].(consumed := true) else buttons[i])
  }

  predicate IsChord(def: Def) {
    def.kind.Chord? && def.buttons != []
  }

  /** Combo `k` of the chord matcher: fires once per hold, marking its members. */
  function ChordOne(defs: seq<Def>, s: State, k: nat): (r: (State, seq<Event>))
    requires s.Valid(defs) && k < |defs|
    ensures r.0.Valid(defs) && |r.1| <= 1
    ensures r.1 != [] ==> r.1[0].Combo? && IsChord(defs[k])
  {
    if !IsChord(defs[k]) then (s, [])
    else if !AllDown(s.buttons, defs[k].buttons) then (s.(combos := s.combos[k := s.combos[k].(fired := false)]), [])
    else if s.combos[k].fired || !Together(s.buttons, defs[k].buttons, defs[k].windowMs) then (s, [])
    else (State(Consume(s.buttons, defs[k].buttons), s.combos[k := s.combos[k].(fired := true)]), [Combo(k, defs[k].actions)])
  }

  function ChordsFrom(defs: seq<Def>, s: State, k: nat): (r: (State, seq<Event>))
    requires s.Valid(defs) && k <= |defs|
    ensures r.0.Valid(defs)
    decreases |defs| - k
  {
    if k == |defs| then (s, [])
    else
      var (s1, first) := ChordOne(defs, s, k);
      var (s2, rest) := ChordsFrom(defs, s1, k + 1);
      (s2, first + rest)
  }

  // ---------- a poll ----------

  function PressEvents(b: nat, gestures: seq<Gesture>, suppressed: bool): (r: seq<Event>)
    ensures |r| == |gestures|
  {
    seq(|gestures|, i requires 0 <= i < |gestures| => Pressed(b, gestures[i], suppressed))
  }

  /** One button of a poll, and the sequences its short press advances. */
  function PollAt(t: Timing, defs: seq<Def>, s: State, b: nat, now: nat, raw: bool): (r: (State, seq<Event>))
    requires s.Valid(defs) && b < BUTTONS
    ensures r.0.Valid(defs)
  {
    var (b', gestures) := PollButton(t, s.buttons[b], now, raw);
    var s1 := s.(buttons := s.buttons[b := b']);
    var (s2, fired) := if Short in gestures then MatchFrom(defs, s1, 0, b, now) else (s1, []);
    (s2, PressEvents(b, gestures, b'.consumed) + fired)
  }

  function PollFrom(t: Timing, defs: seq<Def>, s: State, b: nat, now: nat, raws: seq<bool>): (r: (State, seq<Event>))
    requires s.Valid(defs) && b <= BUTTONS && |raws| == BUTTONS
    ensures r.0.Valid(defs)
    decreases BUTTONS - b
  {
    if b == BUTTONS then (s, [])
    else
      var (s1, first) := PollAt(t, defs, s, b, now, raws[b]);
      var (s2, rest) := PollFrom(t, defs, s1, b + 1, now, raws);
      (s2, first + rest)
  }

  /** A whole poll: the state after it and every event it emits, in order. */
  function Poll(t: Timing, defs: seq<Def>, s: State, now: nat, raws: seq<bool>): (r: (State, seq<Event>))
    requires s.Valid(defs) && |raws| == BUTTONS
    ensures r.0.Valid(defs)
  {
    var (s1, presses) := PollFrom(t, defs, s, 0, now, raws);
    var (s2, chords) := ChordsFrom(defs, s1, 0);
    (s2, presses + chords)
  }

  /** A full queue drops the new event, never an older one. */
  function Enqueue(queue: seq<Event>, events: seq<Event>): (r: seq<Event>)
    ensures |queue| <= QUEUE ==> |r| <= QUEUE
    ensures |queue| + |events| <= QUEUE ==> r == queue + events
    decreases |events|
  {
    if events == [] then queue
    else Enqueue(if |queue| < QUEUE then queue + [events[0]] else queue, events[1..])
  }
}
