/**
  One pass of the firmware's main loop (firmware/main/main.c, app_task): which operations of
  the output engine and the lock it performs, and in which order. `PassOps` lists them;
  AppObject.dfy proves the loop over the objects against it.
 */
module AppTask {
  import opened Output
  import I = Input
  import F = InputFairness
  import L = Lock
  import LS = LockSafety
  import OS = OutputSafety
  import D = Diag

  const TURN_LEFT: nat := 1
  const TURN_RIGHT: nat := 2
  const HAZARDS: nat := 3
  const TOGGLE_BASE: nat := 0x100
  const ALTERNATE_BASE: nat := 0x200
  const LIST_MAX: nat := 4

  /** The button bindings, one list a button for each gesture, and the brake switch input. */
  datatype Wiring = Wiring(short: seq<seq<nat>>, long: seq<seq<nat>>, double: seq<seq<nat>>, brakeSwitch: int) {
    predicate Valid() {
      |short| == I.BUTTONS && |long| == I.BUTTONS && |double| == I.BUTTONS
    }
  }

  function FindBrake(roles: seq<Role>, k: nat := 0): (r: int)
    requires k <= |roles|
    ensures r == -1 || (k <= r < |roles| && roles[r].isBrake)
    ensures forall i :: k <= i < |roles| && (r == -1 || i < r) ==> !roles[i].isBrake
    decreases |roles| - k
  {
    if k == |roles| then -1 else if roles[k].isBrake then k else FindBrake(roles, k + 1)
  }

  // ---------- one action ----------

  predicate IsMomentary(cfg: Config, c: int)
    requires |cfg.roles| == N
  {
    0 <= c < N && cfg.roles[c].behaviour.Momentary?
  }

  function Toggle(e: Engine, c: int): seq<OS.Op>
    requires e.Valid() && c < N
  {
    if c < 0 || IsMomentary(e.cfg, c) then [] else [OS.DoSet(c, !e.ch[c].on, Local)]
  }

  /** What a bound action does; momentary channels are left to the button level. */
  function ActionOps(e: Engine, action: nat, t: nat): (ops: seq<OS.Op>)
    requires e.Valid()
    ensures |ops| <= 1
  {
    if TOGGLE_BASE <= action < TOGGLE_BASE + N then Toggle(e, action - TOGGLE_BASE)
    else if ALTERNATE_BASE <= action < ALTERNATE_BASE + N then
      var c := action - ALTERNATE_BASE;
      if IsMomentary(e.cfg, c) || IsMomentary(e.cfg, e.cfg.roles[c].alternate) then [] else [OS.DoAlternate(c, Local)]
    else if action == TURN_LEFT then Toggle(e, FindIndicator(e.cfg.roles, Left))
    else if action == TURN_RIGHT then Toggle(e, FindIndicator(e.cfg.roles, Right))
    else if action == HAZARDS then [OS.DoHazard(t)]
    else []
  }

  /** A list of actions, each seeing what the ones before it did. */
  function ListOps(e: Engine, actions: seq<nat>, t: nat): seq<OS.Op>
    requires e.Valid()
    decreases |actions|
  {
    if actions == [] then []
    else
      var ops := ActionOps(e, actions[0], t);
      ops + ListOps(OS.Run(e, ops), actions[1..], t)
  }

  function FirstFour(actions: seq<nat>): seq<nat> {
    if |actions| <= LIST_MAX then actions else actions[..LIST_MAX]
  }

  // ---------- levels ----------

  /** One action of a binding drives channel `c`. */
  predicate Drives(cfg: Config, action: nat, c: nat) {
    || (action >= TOGGLE_BASE && action - TOGGLE_BASE == c)
    || (action == TURN_LEFT && FindIndicator(cfg.roles, Left) == c)
    || (action == TURN_RIGHT && FindIndicator(cfg.roles, Right) == c)
  }

  predicate Targets(cfg: Config, actions: seq<nat>, c: nat) {
    exists k :: 0 <= k < |FirstFour(actions)| && Drives(cfg, FirstFour(actions)[k], c)
  }

  predicate HoldActive(s: I.State, b: nat)
    requires |s.buttons| == I.BUTTONS && b < I.BUTTONS
  {
    s.buttons[b].stable && s.buttons[b].longFired
  }

  predicate ChordHeld(s: I.State, def: I.Def)
    requires |s.buttons| == I.BUTTONS
  {
    && def.kind.Chord? && def.buttons != []
    && forall k :: 0 <= k < |def.buttons| ==> def.buttons[k] < I.BUTTONS && s.buttons[def.buttons[k]].stable
  }

  /** Some held button or chord bound to channel `c` is down. */
  predicate Held(cfg: Config, b: Wiring, defs: seq<I.Def>, s: I.State, c: nat)
    requires b.Valid() && |s.buttons| == I.BUTTONS
  {
    || (exists k :: 0 <= k < I.BUTTONS && Targets(cfg, b.long[k], c) && HoldActive(s, k))
    || (exists k :: 0 <= k < |defs| && Targets(cfg, defs[k].actions, c) && ChordHeld(s, defs[k]))
  }

  /** Sets a channel to a level if it differs. */
  function LevelOps(e: Engine, c: nat, level: bool): (ops: seq<OS.Op>)
    requires e.Valid() && c < N
    ensures |ops| <= 1
  {
    if level != e.ch[c].on then [OS.DoSet(c, level, Local)] else []
  }

  /** A channel made to follow a level ends at it, unless it was to go on and that is refused. */
  lemma LevelReached(e: Engine, c: nat, level: bool)
    requires e.Valid() && c < N
    ensures OS.Run(e, LevelOps(e, c, level)).ch[c].on == (level && (e.ch[c].on || Refusal(e, c, true, Local).Ok?))
  {
    var op := OS.DoSet(c, level, Local);
    assert [op][1..] == [];
    assert OS.Run(e, [op]) == Set(e, c, level, Local);
    hide Command, Prepare;
    OS.SettleLights(e, Prepare(e, c, level), c, level);
  }

  function ButtonLevel(s: I.State, b: int): bool
    requires |s.buttons| == I.BUTTONS
  {
    0 <= b < I.BUTTONS && s.buttons[b].stable
  }

  function BrakeOps(e: Engine, b: Wiring, s: I.State): (ops: seq<OS.Op>)
    requires e.Valid() && |s.buttons| == I.BUTTONS
    ensures |ops| <= 1
  {
    var c := FindBrake(e.cfg.roles);
    if b.brakeSwitch < 0 || c < 0 then [] else LevelOps(e, c, ButtonLevel(s, b.brakeSwitch))
  }

  function MomentaryAt(e: Engine, b: Wiring, defs: seq<I.Def>, s: I.State, muted: bool, c: nat): (ops: seq<OS.Op>)
    requires e.Valid() && b.Valid() && |s.buttons| == I.BUTTONS && c < N
    ensures |ops| <= 1
  {
    if !IsMomentary(e.cfg, c) then [] else LevelOps(e, c, !muted && Held(e.cfg, b, defs, s, c))
  }

  /** Momentary channels from `c` on follow the level of what is bound to them. */
  function MomentaryOps(e: Engine, b: Wiring, defs: seq<I.Def>, s: I.State, muted: bool, c: nat): seq<OS.Op>
    requires e.Valid() && b.Valid() && |s.buttons| == I.BUTTONS && c <= N
    decreases N - c
  {
    if c == N then []
    else
      var ops := MomentaryAt(e, b, defs, s, muted, c);
      ops + MomentaryOps(OS.Run(e, ops), b, defs, s, muted, c + 1)
  }

  // ---------- events ----------

  function Lift(ops: seq<OS.Op>): (r: seq<LS.Op>)
    ensures |r| == |ops|
  {
    seq(|ops|, i requires 0 <= i < |ops| => LS.OnOutput(ops[i]))
  }

  function BoundTo(b: Wiring, button: nat, g: I.Gesture): seq<nat>
    requires b.Valid()
  {
    if button >= I.BUTTONS then [] else match g case Short => b.short[button] case Long => b.long[button] case Double => b.double[button]
  }

  /** The cheat-code sees every short press, whatever chords or a capture suppress. */
  function CodeOps(event: I.Event, t: nat): seq<LS.Op> {
    if event.Pressed? && event.gesture.Short? then [LS.Press(t, event.button)] else []
  }

  function BoundActions(b: Wiring, event: I.Event, muted: bool): seq<nat>
    requires b.Valid()
  {
    match event
    case Pressed(button, gesture, suppressed) => if suppressed || muted then [] else FirstFour(BoundTo(b, button, gesture))
    case Combo(_, actions) => FirstFour(actions)
  }

  /** One queued event: the cheat-code first, then the bound actions. */
  function EventOps(H: L.Hash, p: L.Pair, b: Wiring, event: I.Event, t: nat, muted: bool): seq<LS.Op>
    requires p.out.Valid() && b.Valid()
  {
    var code := CodeOps(event, t);
    code + Lift(ListOps(LS.Run(H, p, code).out, BoundActions(b, event, muted), t))
  }

  function EventsOps(H: L.Hash, p: L.Pair, b: Wiring, events: seq<I.Event>, t: nat, muted: bool): seq<LS.Op>
    requires p.out.Valid() && b.Valid()
    decreases |events|
  {
    if events == [] then []
    else
      var ops := EventOps(H, p, b, events[0], t, muted);
      ops + EventsOps(H, LS.Run(H, p, ops), b, events[1..], t, muted)
  }

  // ---------- the pass ----------

  /** What the diagnostics decide in this pass: engine running, and cutoff. */
  datatype Verdict = Verdict(running: bool, cutoff: bool)

  /** The operations up to the diagnostics: the tick, the brake lever, the held channels. */
  function LevelPart(e: Engine, b: Wiring, defs: seq<I.Def>, s: I.State, t: nat, muted: bool): seq<OS.Op>
    requires e.Valid() && b.Valid() && |s.buttons| == I.BUTTONS
  {
    var tick := [OS.DoTick(t)];
    var e1 := OS.Run(e, tick);
    var brake := BrakeOps(e1, b, s);
    tick + (brake + MomentaryOps(OS.Run(e1, brake), b, defs, s, muted, 0))
  }

  /** Then the diagnostics and the lock. */
  function GuardPart(v: Verdict, t: nat, level: bool): seq<LS.Op> {
    [LS.OnOutput(OS.DoEngine(v.running)), LS.OnOutput(OS.DoCutoff(v.cutoff)), LS.LockTick(t, level)]
  }

  /** The whole pass, given the input engine's state and events after its poll. */
  function PassOps(H: L.Hash, p: L.Pair, b: Wiring, defs: seq<I.Def>, s: I.State, events: seq<I.Event>, v: Verdict, t: nat, muted: bool)
      : seq<LS.Op>
    requires p.out.Valid() && b.Valid() && |s.buttons| == I.BUTTONS
  {
    var levels := Lift(LevelPart(p.out, b, defs, s, t, muted));
    var p1 := LS.Run(H, p, levels);
    var guard := GuardPart(v, t, p.lock.cfg.switchInput >= 0 && ButtonLevel(s, p.lock.cfg.switchInput));
    var p2 := LS.Run(H, p1, guard);
    levels + (guard + EventsOps(H, p2, b, events, t, muted))
  }

  // ---------- what every pass keeps ----------

  lemma {:induction false} RunAppend(H: L.Hash, p: L.Pair, a: seq<LS.Op>, b: seq<LS.Op>)
    requires p.out.Valid()
    ensures LS.Run(H, p, a + b) == LS.Run(H, LS.Run(H, p, a), b)
    decreases |a|
  {
    hide LS.Step;
    if a == [] {
      assert a + b == b;
    } else {
      assert (a + b)[1..] == a[1..] + b;
      RunAppend(H, LS.Step(H, p, a[0]), a[1..], b);
    }
  }

  lemma RunThree(H: L.Hash, p: L.Pair, a: LS.Op, b: LS.Op, c: LS.Op)
    requires p.out.Valid()
    ensures LS.Run(H, p, [a, b, c]) == LS.Step(H, LS.Step(H, LS.Step(H, p, a), b), c)
  {
    hide LS.Step;
    assert [a, b, c][1..] == [b, c] && [b, c][1..] == [c] && [c][1..] == [];
    assert LS.Run(H, LS.Step(H, LS.Step(H, p, a), b), [c]) == LS.Step(H, LS.Step(H, LS.Step(H, p, a), b), c);
  }

  lemma {:induction false} LiftRuns(H: L.Hash, p: L.Pair, ops: seq<OS.Op>)
    requires p.out.Valid()
    ensures LS.Run(H, p, Lift(ops)) == p.(out := OS.Run(p.out, ops))
    decreases |ops|
  {
    hide OS.Apply;
    if ops != [] {
      assert Lift(ops)[1..] == Lift(ops[1..]);
      LiftRuns(H, p.(out := OS.Apply(p.out, ops[0])), ops[1..]);
    }
  }

  /** Every operation that carries a time carries `t`, and none raises or lifts the inhibit. */
  ghost predicate At(ops: seq<LS.Op>, t: nat) {
    forall i :: 0 <= i < |ops| ==> LS.Legal(ops[i]) && OpTime(ops[i], t) == t
  }

  function OpTime(op: LS.Op, otherwise: nat): nat {
    match op
    case OnOutput(o) => OS.ClockAfter(o, otherwise)
    case LockTick(now, _) => now
    case Press(now, _) => now
    case _ => otherwise
  }

  /** The same for operations of the output engine alone. */
  ghost predicate OutAt(ops: seq<OS.Op>, t: nat) {
    forall i :: 0 <= i < |ops| ==> !ops[i].DoImmobilize? && OS.ClockAfter(ops[i], t) == t
  }

  lemma {:induction false} ListAt(e: Engine, actions: seq<nat>, t: nat)
    requires e.Valid()
    ensures OutAt(ListOps(e, actions, t), t)
    decreases |actions|
  {
    if actions != [] { ListAt(OS.Run(e, ActionOps(e, actions[0], t)), actions[1..], t); }
  }

  lemma {:induction false} MomentaryIsAt(e: Engine, b: Wiring, defs: seq<I.Def>, s: I.State, muted: bool, c: nat, t: nat)
    requires e.Valid() && b.Valid() && |s.buttons| == I.BUTTONS && c <= N
    ensures OutAt(MomentaryOps(e, b, defs, s, muted, c), t)
    decreases N - c
  {
    hide Held;
    if c < N { MomentaryIsAt(OS.Run(e, MomentaryAt(e, b, defs, s, muted, c)), b, defs, s, muted, c + 1, t); }
  }

  lemma EventAt(H: L.Hash, p: L.Pair, b: Wiring, event: I.Event, t: nat, muted: bool)
    requires p.out.Valid() && b.Valid()
    ensures At(EventOps(H, p, b, event, t, muted), t)
  {
    hide ListOps;
    ListAt(LS.Run(H, p, CodeOps(event, t)).out, BoundActions(b, event, muted), t);
  }

  lemma {:induction false} EventsAt(H: L.Hash, p: L.Pair, b: Wiring, events: seq<I.Event>, t: nat, muted: bool)
    requires p.out.Valid() && b.Valid()
    ensures At(EventsOps(H, p, b, events, t, muted), t)
    decreases |events|
  {
    hide EventOps;
    if events != [] {
      var ops := EventOps(H, p, b, events[0], t, muted);
      EventAt(H, p, b, events[0], t, muted);
      EventsAt(H, LS.Run(H, p, ops), b, events[1..], t, muted);
    }
  }

  lemma LevelsAt(e: Engine, b: Wiring, defs: seq<I.Def>, s: I.State, t: nat, muted: bool)
    requires e.Valid() && b.Valid() && |s.buttons| == I.BUTTONS
    ensures OutAt(LevelPart(e, b, defs, s, t, muted), t)
    ensures LevelPart(e, b, defs, s, t, muted) != [] && LevelPart(e, b, defs, s, t, muted)[0] == OS.DoTick(t)
  {
    hide MomentaryOps;
    var e1 := OS.Run(e, [OS.DoTick(t)]);
    MomentaryIsAt(OS.Run(e1, BrakeOps(e1, b, s)), b, defs, s, muted, 0, t);
  }

  lemma {:induction false} TimedAt(ops: seq<LS.Op>, t: nat)
    requires At(ops, t)
    ensures LS.Timed(ops, t) && LS.EndClock(ops, t) == t
    decreases |ops|
  {
    if ops != [] { TimedAt(ops[1..], t); }
  }

  /** A pass is legal, in time order, and ends at its own time. */
  lemma PassIsLegal(H: L.Hash, p: L.Pair, b: Wiring, defs: seq<I.Def>, s: I.State, events: seq<I.Event>, v: Verdict, t: nat, muted: bool, clock: nat)
    requires p.out.Valid() && b.Valid() && |s.buttons| == I.BUTTONS && clock <= t
    ensures var ops := PassOps(H, p, b, defs, s, events, v, t, muted);
            LS.AllLegal(ops) && LS.Timed(ops, clock) && LS.EndClock(ops, clock) == t
  {
    hide LevelPart, EventsOps;
    var ops := PassOps(H, p, b, defs, s, events, v, t, muted);
    var levels := LevelPart(p.out, b, defs, s, t, muted);
    LevelsAt(p.out, b, defs, s, t, muted);
    var p1 := LS.Run(H, p, Lift(levels));
    var guard := GuardPart(v, t, p.lock.cfg.switchInput >= 0 && ButtonLevel(s, p.lock.cfg.switchInput));
    EventsAt(H, LS.Run(H, p1, guard), b, events, t, muted);
    assert At(Lift(levels), t) && At(guard, t);
    assert At(ops, t);
    TimedAt(ops[1..], t);
    assert ops[0] == LS.OnOutput(OS.DoTick(t));
  }

  // ---------- the cheat-code is always fed ----------

  /** The buttons a list of operations feeds to the cheat-code. */
  function CodeFeed(ops: seq<LS.Op>): seq<nat> {
    if ops == [] then [] else (if ops[0].Press? then [ops[0].button] else []) + CodeFeed(ops[1..])
  }

  function Shorts(presses: seq<(nat, I.Gesture)>): seq<nat> {
    if presses == [] then [] else (if presses[0].1.Short? then [presses[0].0] else []) + Shorts(presses[1..])
  }

  lemma {:induction false} CodeFeedAppend(a: seq<LS.Op>, b: seq<LS.Op>)
    ensures CodeFeed(a + b) == CodeFeed(a) + CodeFeed(b)
    decreases |a|
  {
    if a == [] {
      assert a + b == b;
    } else {
      assert (a + b)[0] == a[0] && (a + b)[1..] == a[1..] + b;
      CodeFeedAppend(a[1..], b);
    }
  }

  lemma {:induction false} LiftFeedsNothing(ops: seq<OS.Op>)
    ensures CodeFeed(Lift(ops)) == []
    decreases |ops|
  {
    if ops != [] {
      assert Lift(ops)[1..] == Lift(ops[1..]);
      LiftFeedsNothing(ops[1..]);
    }
  }

  lemma {:induction false} EventsFeed(H: L.Hash, p: L.Pair, b: Wiring, events: seq<I.Event>, t: nat, muted: bool)
    requires p.out.Valid() && b.Valid()
    ensures CodeFeed(EventsOps(H, p, b, events, t, muted)) == Shorts(F.PressesOf(events))
    decreases |events|
  {
    hide LS.Run, ListOps, BoundActions;
    if events != [] {
      var ops := EventOps(H, p, b, events[0], t, muted);
      var code := CodeOps(events[0], t);
      var acts := ListOps(LS.Run(H, p, code).out, BoundActions(b, events[0], muted), t);
      CodeFeedAppend(code, Lift(acts));
      LiftFeedsNothing(acts);
      assert CodeFeed(code) == (if code == [] then [] else [events[0].button]) by { assert code != [] ==> code[1..] == []; }
      CodeFeedAppend(ops, EventsOps(H, LS.Run(H, p, ops), b, events[1..], t, muted));
      EventsFeed(H, LS.Run(H, p, ops), b, events[1..], t, muted);
      if events[0].Pressed? {
        ShortsCons((events[0].button, events[0].gesture), F.PressesOf(events[1..]));
      } else {
        assert F.PressesOf(events) == F.PressesOf(events[1..]);
      }
    }
  }

  lemma ShortsCons(x: (nat, I.Gesture), rest: seq<(nat, I.Gesture)>)
    ensures Shorts([x] + rest) == (if x.1.Short? then [x.0] else []) + Shorts(rest)
  {
    assert ([x] + rest)[1..] == rest;
  }

  lemma GuardFeedsNothing(v: Verdict, t: nat, level: bool)
    ensures CodeFeed(GuardPart(v, t, level)) == []
  {
    var ops := GuardPart(v, t, level);
    assert CodeFeed(ops[3..]) == [];
    assert ops[2..][1..] == ops[3..] && CodeFeed(ops[2..]) == [];
    assert ops[1..][1..] == ops[2..] && CodeFeed(ops[1..]) == [];
  }

  /** A pass hands the lock every short press its poll gave, in order, and nothing else:
      bindings, suppression and capture make no difference. */
  lemma PassFeeds(H: L.Hash, p: L.Pair, b: Wiring, defs: seq<I.Def>, s: I.State, events: seq<I.Event>, v: Verdict, t: nat, muted: bool)
    requires p.out.Valid() && b.Valid() && |s.buttons| == I.BUTTONS
    ensures CodeFeed(PassOps(H, p, b, defs, s, events, v, t, muted)) == Shorts(F.PressesOf(events))
  {
    hide LevelPart, EventsOps, LS.Run;
    var levels := LevelPart(p.out, b, defs, s, t, muted);
    var p1 := LS.Run(H, p, Lift(levels));
    var guard := GuardPart(v, t, p.lock.cfg.switchInput >= 0 && ButtonLevel(s, p.lock.cfg.switchInput));
    var p2 := LS.Run(H, p1, guard);
    var evs := EventsOps(H, p2, b, events, t, muted);
    LiftFeedsNothing(levels);
    CodeFeedAppend(Lift(levels), guard + evs);
    CodeFeedAppend(guard, evs);
    GuardFeedsNothing(v, t, p.lock.cfg.switchInput >= 0 && ButtonLevel(s, p.lock.cfg.switchInput));
    EventsFeed(H, p2, b, events, t, muted);
  }

  /** Two boards wired and timed alike, whatever is bound to their buttons and combos and
      whatever state their outputs are in, feed their locks the same presses. */
  lemma CombosCannotStarveTheLock(H: L.Hash, p: L.Pair, p': L.Pair, b: Wiring, b': Wiring, defs: seq<I.Def>, defs': seq<I.Def>,
                                  timing: I.Timing, s: I.State, s': I.State, raws: seq<bool>, v: Verdict, v': Verdict, t: nat, muted: bool, muted': bool)
    requires p.out.Valid() && p'.out.Valid() && b.Valid() && b'.Valid() && s.Valid(defs) && s'.Valid(defs')
    requires F.SameCore(s, s') && |raws| == I.BUTTONS
    ensures var r, r' := I.Poll(timing, defs, s, t, raws), I.Poll(timing, defs', s', t, raws);
            && F.SameCore(r.0, r'.0)
            && CodeFeed(PassOps(H, p, b, defs, r.0, r.1, v, t, muted)) == CodeFeed(PassOps(H, p', b', defs', r'.0, r'.1, v', t, muted'))
  {
    hide PassOps, CodeFeed, I.Poll;
    F.PollIgnoresCombos(timing, defs, defs', s, s', t, raws);
    var r, r' := I.Poll(timing, defs, s, t, raws), I.Poll(timing, defs', s', t, raws);
    PassFeeds(H, p, b, defs, r.0, r.1, v, t, muted);
    PassFeeds(H, p', b', defs', r'.0, r'.1, v', t, muted');
  }

  lemma {:induction false} LegalAppend(a: seq<LS.Op>, b: seq<LS.Op>, clock: nat)
    requires LS.AllLegal(a) && LS.Timed(a, clock) && LS.AllLegal(b) && LS.Timed(b, LS.EndClock(a, clock))
    ensures LS.AllLegal(a + b) && LS.Timed(a + b, clock) && LS.EndClock(a + b, clock) == LS.EndClock(b, LS.EndClock(a, clock))
    decreases |a|
  {
    if a == [] {
      assert a + b == b;
    } else {
      assert (a + b)[1..] == a[1..] + b;
      LegalAppend(a[1..], b, LS.OutClock(a[0], clock));
    }
  }

  lemma {:induction false} ShortsAppend(a: seq<(nat, I.Gesture)>, b: seq<(nat, I.Gesture)>)
    ensures Shorts(a + b) == Shorts(a) + Shorts(b)
    decreases |a|
  {
    hide Shorts;
    if a == [] {
      assert a + b == b;
      NoShorts();
    } else {
      var x, rest := a[0], a[1..];
      assert a == [x] + rest && a + b == [x] + (rest + b);
      ShortsCons(x, rest);
      ShortsCons(x, rest + b);
      ShortsAppend(rest, b);
    }
  }

  lemma NoShorts()
    ensures Shorts([]) == []
  {
  }

  /** `trace` takes `p` to `p'` as a legal run from `clock` to `end` that feeds the cheat-code `feed`. */
  ghost predicate Explains(H: L.Hash, p: L.Pair, p': L.Pair, trace: seq<LS.Op>, clock: nat, end: nat, feed: seq<nat>)
    requires p.out.Valid()
  {
    && p' == LS.Run(H, p, trace)
    && LS.AllLegal(trace) && LS.Timed(trace, clock) && LS.EndClock(trace, clock) == end
    && CodeFeed(trace) == feed
  }

  lemma ExplainsBoth(H: L.Hash, p: L.Pair, p1: L.Pair, p2: L.Pair, a: seq<LS.Op>, b: seq<LS.Op>,
                     clock: nat, mid: nat, end: nat, feed: seq<nat>, more: seq<nat>)
    requires p.out.Valid() && p1.out.Valid()
    requires Explains(H, p, p1, a, clock, mid, feed) && Explains(H, p1, p2, b, mid, end, more)
    ensures Explains(H, p, p2, a + b, clock, end, feed + more)
  {
    RunAppend(H, p, a, b);
    LegalAppend(a, b, clock);
    CodeFeedAppend(a, b);
  }

  lemma PassExplains(H: L.Hash, p: L.Pair, b: Wiring, defs: seq<I.Def>, s: I.State, events: seq<I.Event>, v: Verdict, t: nat, muted: bool, clock: nat)
    requires p.out.Valid() && b.Valid() && |s.buttons| == I.BUTTONS && clock <= t
    ensures var ops := PassOps(H, p, b, defs, s, events, v, t, muted);
            Explains(H, p, LS.Run(H, p, ops), ops, clock, t, Shorts(F.PressesOf(events)))
  {
    hide PassOps, LS.Run, CodeFeed, Shorts;
    PassIsLegal(H, p, b, defs, s, events, v, t, muted, clock);
    PassFeeds(H, p, b, defs, s, events, v, t, muted);
  }
}
