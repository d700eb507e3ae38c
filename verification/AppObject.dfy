/**
  The main loop over the four objects (firmware/main/main.c, app_task), proved to perform
  exactly the operations `AppTask.PassOps` lists, pass after pass.
 */
module AppObject {
  import opened AppTask
  import O = Output
  import I = Input
  import F = InputFairness
  import L = Lock
  import LS = LockSafety
  import OS = OutputSafety
  import D = Diag
  import opened InputObject
  import opened OutputObject
  import opened LockObject

  lemma RunOne(e: O.Engine, op: OS.Op)
    requires e.Valid()
    ensures OS.Run(e, [op]) == OS.Apply(e, op) && OS.Run(e, []) == e
  {
    assert [op][1..] == [];
  }

  method DoToggle(out: OutputEngine, c: int)
    requires out.Valid() && c < O.N
    modifies out`hazards, out.channels, out.pins
    ensures out.Valid() && out.State() == OS.Run(old(out.State()), Toggle(old(out.State()), c))
  {
    if c >= 0 && !IsMomentary(out.cfg, c) {
      RunOne(out.State(), OS.DoSet(c, !out.channels[c].on, O.Local));
      hide O.Set;
      var _ := out.DoSet(c, !out.channels[c].on, O.Local);
    }
  }

  /** dispatch_action. */
  method Act(out: OutputEngine, action: nat, t: nat)
    requires out.Valid()
    modifies out`hazards, out.channels, out.pins
    ensures out.Valid() && out.State() == OS.Run(old(out.State()), ActionOps(old(out.State()), action, t))
  {
    hide O.HazardPress, O.AlternatePress, Toggle;
    ghost var e := out.State();
    RunOne(e, OS.DoHazard(t));
    if TOGGLE_BASE <= action < TOGGLE_BASE + O.N {
      DoToggle(out, action - TOGGLE_BASE);
    } else if ALTERNATE_BASE <= action < ALTERNATE_BASE + O.N {
      var c := action - ALTERNATE_BASE;
      RunOne(e, OS.DoAlternate(c, O.Local));
      if !IsMomentary(out.cfg, c) && !IsMomentary(out.cfg, out.cfg.roles[c].alternate) {
        var _ := out.DoAlternatePress(c, O.Local);
      }
    } else if action == TURN_LEFT {
      DoToggle(out, O.FindIndicator(out.cfg.roles, O.Left));
    } else if action == TURN_RIGHT {
      DoToggle(out, O.FindIndicator(out.cfg.roles, O.Right));
    } else if action == HAZARDS {
      out.DoHazardPress(t);
    }
  }

  lemma ListStep(e: O.Engine, actions: seq<nat>, i: nat, t: nat)
    requires e.Valid() && i < |actions|
    ensures var ops := ActionOps(e, actions[i], t);
            OS.Run(e, ListOps(e, actions[i..], t)) == OS.Run(OS.Run(e, ops), ListOps(OS.Run(e, ops), actions[i + 1..], t))
  {
    hide ActionOps;
    assert actions[i..][1..] == actions[i + 1..];
    var ops := ActionOps(e, actions[i], t);
    OS.RunAppend(e, ops, ListOps(OS.Run(e, ops), actions[i + 1..], t));
  }

  /** dispatch_action_list. */
  method ActAll(out: OutputEngine, actions: seq<nat>, t: nat)
    requires out.Valid()
    modifies out`hazards, out.channels, out.pins
    ensures out.Valid() && out.State() == OS.Run(old(out.State()), ListOps(old(out.State()), FirstFour(actions), t))
  {
    ghost var target := OS.Run(out.State(), ListOps(out.State(), FirstFour(actions), t));
    var pending := FirstFour(actions);
    var i := 0;
    assert pending[0..] == pending;
    while i < |pending|
      invariant out.Valid() && i <= |pending| && OS.Run(out.State(), ListOps(out.State(), pending[i..], t)) == target
    {
      hide ActionOps, ListOps, OS.Run;
      ListStep(out.State(), pending, i, t);
      Act(out, pending[i], t);
      i := i + 1;
    }
    assert pending[i..] == [];
  }

  method Follow(out: OutputEngine, c: nat, level: bool)
    requires out.Valid() && c < O.N
    modifies out`hazards, out.channels, out.pins
    ensures out.Valid() && out.State() == OS.Run(old(out.State()), LevelOps(old(out.State()), c, level))
  {
    hide O.Set;
    RunOne(out.State(), OS.DoSet(c, level, O.Local));
    if level != out.channels[c].on {
      var _ := out.DoSet(c, level, O.Local);
    }
  }

  lemma MomentaryStep(e: O.Engine, b: Wiring, defs: seq<I.Def>, s: I.State, muted: bool, c: nat)
    requires e.Valid() && b.Valid() && |s.buttons| == I.BUTTONS && c < O.N
    ensures var ops := MomentaryAt(e, b, defs, s, muted, c);
            OS.Run(e, MomentaryOps(e, b, defs, s, muted, c)) ==
            OS.Run(OS.Run(e, ops), MomentaryOps(OS.Run(e, ops), b, defs, s, muted, c + 1))
  {
    hide MomentaryAt;
    var ops := MomentaryAt(e, b, defs, s, muted, c);
    OS.RunAppend(e, ops, MomentaryOps(OS.Run(e, ops), b, defs, s, muted, c + 1));
  }

  method FollowHeld(input: InputEngine, out: OutputEngine, b: Wiring, muted: bool, c: nat)
    requires input.Valid() && out.Valid() && b.Valid() && c < O.N
    modifies out`hazards, out.channels, out.pins
    ensures out.Valid()
    ensures out.State() == OS.Run(old(out.State()), MomentaryAt(old(out.State()), b, input.defs, input.Snapshot(), muted, c))
  {
    hide Held;
    RunOne(out.State(), OS.DoTick(0));
    if IsMomentary(out.cfg, c) {
      var held := !muted && Held(out.cfg, b, input.defs, I.State(input.buttons[..], input.combos[..]), c);
      Follow(out, c, held);
    }
  }

  /** momentary_tick. */
  method MomentaryTick(input: InputEngine, out: OutputEngine, b: Wiring, muted: bool)
    requires input.Valid() && out.Valid() && b.Valid()
    modifies out`hazards, out.channels, out.pins
    ensures out.Valid() && input.Snapshot() == old(input.Snapshot())
    ensures out.State() == OS.Run(old(out.State()), MomentaryOps(old(out.State()), b, input.defs, input.Snapshot(), muted, 0))
  {
    hide MomentaryAt, MomentaryOps, OS.Run;
    ghost var s := input.Snapshot();
    ghost var target := OS.Run(out.State(), MomentaryOps(out.State(), b, input.defs, s, muted, 0));
    for c := 0 to O.N
      invariant out.Valid() && input.Snapshot() == s
      invariant OS.Run(out.State(), MomentaryOps(out.State(), b, input.defs, s, muted, c)) == target
    {
      MomentaryStep(out.State(), b, input.defs, s, muted, c);
      FollowHeld(input, out, b, muted, c);
    }
    MomentaryEnds(out.State(), b, input.defs, s, muted);
  }

  lemma MomentaryEnds(e: O.Engine, b: Wiring, defs: seq<I.Def>, s: I.State, muted: bool)
    requires e.Valid() && b.Valid() && |s.buttons| == I.BUTTONS
    ensures OS.Run(e, MomentaryOps(e, b, defs, s, muted, O.N)) == e
  {
  }

  method FollowBrake(input: InputEngine, out: OutputEngine, b: Wiring)
    requires input.Valid() && out.Valid()
    modifies out`hazards, out.channels, out.pins
    ensures out.Valid() && input.Snapshot() == old(input.Snapshot())
    ensures out.State() == OS.Run(old(out.State()), BrakeOps(old(out.State()), b, input.Snapshot()))
  {
    hide OS.Apply, LevelOps;
    RunOne(out.State(), OS.DoTick(0));
    if b.brakeSwitch >= 0 {
      var c := FindBrake(out.cfg.roles);
      if c >= 0 {
        var asserted := b.brakeSwitch < I.BUTTONS && input.buttons[b.brakeSwitch].stable;
        Follow(out, c, asserted);
      }
    }
  }

  /** The first part of a pass: the tick, the brake lever, the held channels. */
  method Levels(input: InputEngine, out: OutputEngine, b: Wiring, t: nat, muted: bool)
    requires input.Valid() && out.Valid() && b.Valid()
    modifies out`lastTick, out`hazards, out.channels, out.pins
    ensures out.Valid() && input.Snapshot() == old(input.Snapshot())
    ensures out.State() == OS.Run(old(out.State()), LevelPart(old(out.State()), b, input.defs, input.Snapshot(), t, muted))
  {
    hide O.Tick, BrakeOps, MomentaryOps;
    ghost var e, s := out.State(), input.Snapshot();
    RunOne(e, OS.DoTick(t));
    out.DoTick(t);
    ghost var e1 := out.State();
    FollowBrake(input, out, b);
    ghost var e2 := out.State();
    MomentaryTick(input, out, b, muted);
    ghost var brake, mom := BrakeOps(e1, b, s), MomentaryOps(e2, b, input.defs, s, muted, 0);
    OS.RunAppend(e1, brake, mom);
    OS.RunAppend(e, [OS.DoTick(t)], brake + mom);
  }

  /** The second part: the diagnostics decide, the lock looks at the result. */
  method Guard(diag: D.DiagUnit, lock: LockUnit, out: OutputEngine, t: nat, ma: seq<nat>, battery: nat, level: bool) returns (ghost v: Verdict)
    requires diag.Valid() && lock.Valid() && out.Valid() && |ma| == O.N && lock.entryBuf != diag.currentMa
    modifies diag, diag.currentMa, diag.fault, lock, out`engineRunning, out`lvCutoff, out`immobilized, out`hazards, out.channels, out.pins
    ensures diag.Valid() && lock.Valid() && out.Valid() && diag.cfg == old(diag.cfg)
    ensures v.running == D.EngineAfter(diag.cfg, old(diag.engineRunning), battery, D.KeyIsOff(old(out.State())))
    ensures v.cutoff == D.CutoffAfter(diag.cfg, old(diag.cutoff), v.running, battery)
    ensures diag.engineRunning == v.running && diag.cutoff == v.cutoff
    ensures lock.With(out) == LS.Run(lock.H, old(lock.With(out)), GuardPart(v, t, level))
  {
    hide D.EngineAfter, D.CutoffAfter, D.KeyIsOff, L.Tick, O.SetEngineRunning, LS.Run;
    ghost var p := lock.With(out);
    diag.DoTick(out, t, ma, battery);
    v := Verdict(diag.engineRunning, diag.cutoff);
    assert lock.State() == p.lock;
    lock.DoTick(out, t, level);
    RunThree(lock.H, p, LS.OnOutput(OS.DoEngine(v.running)), LS.OnOutput(OS.DoCutoff(v.cutoff)), LS.LockTick(t, level));
  }

  /** One event: the cheat-code, then the bound actions. */
  method HandleEvent(lock: LockUnit, out: OutputEngine, b: Wiring, event: I.Event, t: nat, muted: bool)
    requires lock.Valid() && out.Valid() && b.Valid()
    modifies lock, lock.entryBuf, out`immobilized, out`hazards, out.channels, out.pins
    ensures lock.Valid() && out.Valid()
    ensures lock.With(out) == LS.Run(lock.H, old(lock.With(out)), EventOps(lock.H, old(lock.With(out)), b, event, t, muted))
  {
    ghost var p, code := lock.With(out), CodeOps(event, t);
    Feed(lock, out, event, t);
    ghost var p1 := lock.With(out);
    var actions := BoundActions(b, event, muted);
    hide CodeOps, ListOps, LS.Run, OS.Run;
    ghost var ops := ListOps(out.State(), actions, t);
    ActAll(out, actions, t);
    FourIsEnough(b, event, muted);
    LiftRuns(lock.H, p1, ops);
    RunAppend(lock.H, p, code, Lift(ops));
  }

  lemma FourIsEnough(b: Wiring, event: I.Event, muted: bool)
    requires b.Valid()
    ensures FirstFour(BoundActions(b, event, muted)) == BoundActions(b, event, muted)
  {
  }

  method Feed(lock: LockUnit, out: OutputEngine, event: I.Event, t: nat)
    requires lock.Valid() && out.Valid()
    modifies lock, lock.entryBuf, out`immobilized, out`hazards, out.channels, out.pins
    ensures lock.Valid() && out.Valid()
    ensures lock.With(out) == LS.Run(lock.H, old(lock.With(out)), CodeOps(event, t))
  {
    hide L.CodePress, L.CodeOutcome;
    if event.Pressed? && event.gesture.Short? {
      assert [LS.Press(t, event.button)][1..] == [];
      var _ := lock.DoCodePress(out, t, event.button);
    }
  }

  lemma EventsStep(H: L.Hash, p: L.Pair, b: Wiring, event: I.Event, rest: seq<I.Event>, t: nat, muted: bool)
    requires p.out.Valid() && b.Valid()
    ensures var p1 := LS.Run(H, p, EventOps(H, p, b, event, t, muted));
            LS.Run(H, p, EventsOps(H, p, b, [event] + rest, t, muted)) == LS.Run(H, p1, EventsOps(H, p1, b, rest, t, muted))
  {
    hide EventOps;
    assert ([event] + rest)[1..] == rest;
    var ops := EventOps(H, p, b, event, t, muted);
    RunAppend(H, p, ops, EventsOps(H, LS.Run(H, p, ops), b, rest, t, muted));
  }

  /** The last part: the queue is emptied, event by event. */
  method Drain(input: InputEngine, lock: LockUnit, out: OutputEngine, b: Wiring, t: nat, muted: bool)
    requires input.Valid() && lock.Valid() && out.Valid() && b.Valid()
    modifies input`head, input`count, lock, lock.entryBuf, out`immobilized, out`hazards, out.channels, out.pins
    ensures input.Valid() && lock.Valid() && out.Valid() && input.Queued() == [] && input.Snapshot() == old(input.Snapshot())
    ensures lock.With(out) == LS.Run(lock.H, old(lock.With(out)), EventsOps(lock.H, old(lock.With(out)), b, old(input.Queued()), t, muted))
  {
    hide EventOps, EventsOps, LS.Run;
    ghost var s := input.Snapshot();
    ghost var target := Finally(lock.H, lock.With(out), b, input.Queued(), t, muted);
    while true
      invariant input.Valid() && lock.Valid() && out.Valid() && input.Snapshot() == s
      invariant Finally(lock.H, lock.With(out), b, input.Queued(), t, muted) == target
      decreases |input.Queued()|
    {
      NothingLeft(lock.H, lock.With(out), b, t, muted);
      ghost var p := lock.With(out);
      var more, event := input.PopEvent();
      assert lock.With(out) == p;
      if !more { break; }
      ghost var rest := input.Queued();
      EventsStep(lock.H, p, b, event, rest, t, muted);
      HandleEvent(lock, out, b, event, t, muted);
      assert input.Queued() == rest && input.Valid();
    }
  }

  /** Where the lock and the engine end up once these events are handled. */
  ghost function Finally(H: L.Hash, p: L.Pair, b: Wiring, events: seq<I.Event>, t: nat, muted: bool): L.Pair
    requires p.out.Valid() && b.Valid()
  {
    LS.Run(H, p, EventsOps(H, p, b, events, t, muted))
  }

  lemma NothingLeft(H: L.Hash, p: L.Pair, b: Wiring, t: nat, muted: bool)
    requires p.out.Valid() && b.Valid()
    ensures LS.Run(H, p, EventsOps(H, p, b, [], t, muted)) == p
  {
  }

  /** One pass's inputs: the time, the raw button levels, the sensed currents, the battery,
      and whether an app is capturing a cheat-code. */
  datatype PassInput = PassInput(now: nat, raws: seq<bool>, ma: seq<nat>, battery: nat, muted: bool)

  ghost predicate Sized(x: PassInput) {
    |x.raws| == I.BUTTONS && |x.ma| == O.N
  }

  class App {
    const input: InputEngine
    const out: OutputEngine
    const lock: LockUnit
    const diag: D.DiagUnit
    const b: Wiring

    ghost function Parts(): set<object>
      reads this
    {
      {input, input.buttons, input.combos, input.ring, out, out.channels, out.pins, lock, lock.entryBuf, diag, diag.currentMa, diag.fault}
    }

    ghost predicate Ready()
      reads this, Parts()
    {
      input.Valid() && out.Valid() && lock.Valid() && diag.Valid() && b.Valid() && lock.entryBuf != diag.currentMa
    }

    /** Between passes no event waits in the queue. */
    ghost predicate Valid()
      reads this, Parts()
    {
      Ready() && input.Queued() == []
    }

    ghost function Both(): L.Pair
      requires lock.Valid()
      reads this, lock, lock.entryBuf, out, out.channels
    {
      lock.With(out)
    }

    constructor (input: InputEngine, out: OutputEngine, lock: LockUnit, diag: D.DiagUnit, b: Wiring)
      requires input.Valid() && out.Valid() && lock.Valid() && diag.Valid() && b.Valid() && lock.entryBuf != diag.currentMa && input.Queued() == []
      ensures Valid() && this.input == input && this.out == out && this.lock == lock && this.diag == diag && this.b == b
    {
      this.input, this.out, this.lock, this.diag, this.b := input, out, lock, diag, b;
    }

    /** The body of app_task's loop. */
    method Pass(x: PassInput) returns (ghost v: Verdict)
      requires Valid() && Sized(x)
      modifies Parts()
      ensures Valid() && input.timing == old(input.timing) && input.defs == old(input.defs) && diag.cfg == old(diag.cfg)
      ensures var polled := I.Poll(input.timing, input.defs, old(input.Snapshot()), x.now, x.raws);
              && input.Snapshot() == polled.0
              && Both() == LS.Run(lock.H, old(Both()), PassOps(lock.H, old(Both()), b, input.defs, polled.0, polled.1, v, x.now, x.muted))
              && var atDiag := OS.Run(old(out.State()), LevelPart(old(out.State()), b, input.defs, polled.0, x.now, x.muted));
                 && v.running == D.EngineAfter(diag.cfg, old(diag.engineRunning), x.battery, D.KeyIsOff(atDiag))
                 && v.cutoff == D.CutoffAfter(diag.cfg, old(diag.cutoff), v.running, x.battery)
    {
      hide I.Poll, LevelPart, PassOps, D.EngineAfter, D.CutoffAfter, D.KeyIsOff, OS.Run, LS.Run;
      PollFresh(x);
      v := React(x);
    }

    /** What a pass does once the buttons are polled: the levels, the guard, then the events. */
    method React(x: PassInput) returns (ghost v: Verdict)
      requires Ready() && Sized(x)
      modifies input`head, input`count, out, out.channels, out.pins, lock, lock.entryBuf, diag, diag.currentMa, diag.fault
      ensures Valid() && input.Snapshot() == old(input.Snapshot()) && diag.cfg == old(diag.cfg)
      ensures Both() == LS.Run(lock.H, old(Both()), PassOps(lock.H, old(Both()), b, input.defs, old(input.Snapshot()), old(input.Queued()), v, x.now, x.muted))
      ensures var atDiag := OS.Run(old(out.State()), LevelPart(old(out.State()), b, input.defs, old(input.Snapshot()), x.now, x.muted));
              && v.running == D.EngineAfter(diag.cfg, old(diag.engineRunning), x.battery, D.KeyIsOff(atDiag))
              && v.cutoff == D.CutoffAfter(diag.cfg, old(diag.cutoff), v.running, x.battery)
    {
      hide LevelPart, PassOps, EventsOps, GuardPart, D.EngineAfter, D.CutoffAfter, D.KeyIsOff, OS.Run, LS.Run;
      ghost var p := Both();
      ghost var s1, events := input.Snapshot(), input.Queued();
      ghost var levels := LevelPart(out.State(), b, input.defs, s1, x.now, x.muted);
      Levels(input, out, b, x.now, x.muted);
      ghost var p1 := Both();
      var isw := lock.cfg.switchInput;
      var level := 0 <= isw < I.BUTTONS && input.buttons[isw].stable;
      v := Guard(diag, lock, out, x.now, x.ma, x.battery, level);
      ghost var p2 := Both();
      Drain(input, lock, out, b, x.now, x.muted);
      Joined(lock.H, p, p1, p2, b, input.defs, s1, events, v, x.now, x.muted, level);
    }

    /** The poll starts from an empty queue, so the queue then holds exactly its events. */
    method PollFresh(x: PassInput)
      requires input.Valid() && input.Queued() == [] && Sized(x)
      modifies input`count, input.buttons, input.combos, input.ring
      ensures input.Valid()
      ensures (input.Snapshot(), input.Queued()) == I.Poll(input.timing, input.defs, old(input.Snapshot()), x.now, x.raws)
    {
      hide I.Poll;
      F.OnePollFits(input.timing, input.defs, input.Snapshot(), x.now, x.raws);
      F.EnqueueFits(I.Poll(input.timing, input.defs, input.Snapshot(), x.now, x.raws).1);
      input.DoPoll(x.now, x.raws);
    }
  }

  /** The three parts of a pass, one after the other, are the pass. */
  lemma Joined(H: L.Hash, p: L.Pair, p1: L.Pair, p2: L.Pair, b: Wiring, defs: seq<I.Def>, s: I.State, events: seq<I.Event>,
               v: Verdict, t: nat, muted: bool, level: bool)
    requires p.out.Valid() && b.Valid() && |s.buttons| == I.BUTTONS
    requires p1 == p.(out := OS.Run(p.out, LevelPart(p.out, b, defs, s, t, muted)))
    requires level == (p.lock.cfg.switchInput >= 0 && ButtonLevel(s, p.lock.cfg.switchInput))
    requires p2 == LS.Run(H, p1, GuardPart(v, t, level))
    ensures LS.Run(H, p, PassOps(H, p, b, defs, s, events, v, t, muted)) == LS.Run(H, p2, EventsOps(H, p2, b, events, t, muted))
  {
    hide LevelPart, GuardPart, EventsOps, OS.Run, LS.Run;
    var levels := LevelPart(p.out, b, defs, s, t, muted);
    LiftRuns(H, p, levels);
    var evs := EventsOps(H, p2, b, events, t, muted);
    RunAppend(H, p1, GuardPart(v, t, level), evs);
    RunAppend(H, p, Lift(levels), GuardPart(v, t, level) + evs);
  }

  // ---------- the loop ----------

  /** The passes come in time order. */
  ghost predicate Ordered(xs: seq<PassInput>, clock: nat) {
    xs != [] ==> Sized(xs[0]) && clock <= xs[0].now && Ordered(xs[1..], xs[0].now)
  }

  function Last(xs: seq<PassInput>, clock: nat): nat {
    if xs == [] then clock else Last(xs[1..], xs[0].now)
  }

  function Polls(xs: seq<PassInput>): seq<F.Sample> {
    seq(|xs|, i requires 0 <= i < |xs| => F.Sample(xs[i].now, xs[i].raws))
  }

  lemma {:induction false} PollsSized(xs: seq<PassInput>, clock: nat)
    requires Ordered(xs, clock)
    ensures F.Samples(Polls(xs))
    decreases |xs|
  {
    if xs != [] {
      PollsSized(xs[1..], xs[0].now);
      assert forall i :: 0 < i < |xs| ==> Polls(xs)[i] == Polls(xs[1..])[i - 1];
    }
  }

  /** The short presses in the raw samples of these passes. */
  ghost function FeedOf(timing: I.Timing, defs: seq<I.Def>, s: I.State, xs: seq<PassInput>): seq<nat>
    requires s.Valid(defs) && F.Samples(Polls(xs))
  {
    Shorts(F.PressesOf(F.Delivered(timing, defs, s, Polls(xs))))
  }

  lemma FeedStep(timing: I.Timing, defs: seq<I.Def>, s: I.State, xs: seq<PassInput>, clock: nat)
    requires s.Valid(defs) && xs != [] && Ordered(xs, clock) && F.Samples(Polls(xs)) && F.Samples(Polls(xs[1..]))
    ensures var polled := I.Poll(timing, defs, s, xs[0].now, xs[0].raws);
            FeedOf(timing, defs, s, xs) == Shorts(F.PressesOf(polled.1)) + FeedOf(timing, defs, polled.0, xs[1..])
  {
    hide I.Poll, F.Delivered, F.PressesOf, Shorts;
    var polled := I.Poll(timing, defs, s, xs[0].now, xs[0].raws);
    assert Polls(xs)[1..] == Polls(xs[1..]);
    F.DeliveredPresses(timing, defs, s, Polls(xs));
    ShortsAppend(F.PressesOf(polled.1), F.PressesOf(F.Delivered(timing, defs, polled.0, Polls(xs[1..]))));
  }

  /** Any number of passes are one legal run of the system, in time order. What that run feeds
      to the cheat-code are the short presses of the raw samples and nothing else. */
  method RunLoop(app: App, xs: seq<PassInput>, ghost clock: nat) returns (ghost trace: seq<LS.Op>)
    requires app.Valid() && Ordered(xs, clock)
    modifies app.Parts()
    ensures app.Valid() && F.Samples(Polls(xs))
    ensures Explains(app.lock.H, old(app.Both()), app.Both(), trace, clock, Last(xs, clock),
                     FeedOf(old(app.input.timing), old(app.input.defs), old(app.input.Snapshot()), xs))
    decreases |xs|
  {
    PollsSized(xs, clock);
    if xs == [] {
      trace := [];
      return;
    }
    trace := RunFrom(app, xs, clock);
  }

  method RunFrom(app: App, xs: seq<PassInput>, ghost clock: nat) returns (ghost trace: seq<LS.Op>)
    requires app.Valid() && Ordered(xs, clock) && xs != [] && F.Samples(Polls(xs))
    modifies app.Parts()
    ensures app.Valid()
    ensures Explains(app.lock.H, old(app.Both()), app.Both(), trace, clock, Last(xs, clock),
                     FeedOf(old(app.input.timing), old(app.input.defs), old(app.input.Snapshot()), xs))
    decreases |xs|, 0
  {
    hide PassOps, Explains, FeedOf, I.Poll, LS.Run, Shorts, F.PressesOf;
    ghost var H, p, s := app.lock.H, app.Both(), app.input.Snapshot();
    ghost var timing, defs := app.input.timing, app.input.defs;
    var x := xs[0];
    ghost var v := app.Pass(x);
    ghost var p1 := app.Both();
    ghost var polled := I.Poll(timing, defs, s, x.now, x.raws);
    PassExplains(H, p, app.b, defs, polled.0, polled.1, v, x.now, x.muted, clock);
    trace := RunLoop(app, xs[1..], x.now);
    FeedStep(timing, defs, s, xs, clock);
    ghost var ops := PassOps(H, p, app.b, defs, polled.0, polled.1, v, x.now, x.muted);
    ExplainsBoth(H, p, p1, app.Both(), ops, trace, clock, x.now, Last(xs, clock), Shorts(F.PressesOf(polled.1)), FeedOf(timing, defs, polled.0, xs[1..]));
    trace := ops + trace;
  }

  // ---------- from power-on ----------

  /** The turn signals and every alternating pair keep apart, if they were apart at boot. */
  ghost predicate KeptApart(on: LS.PowerOn, e: O.Engine)
    requires on.Valid() && e.Valid()
  {
    && (forall l: nat, r: nat :: l < O.N && r < O.N && OS.OneEachSide(on.outputs, l, r) && !(on.image[l] && on.image[r]) ==>
          OS.SidesExclusive(e, l, r))
    && (forall a: nat, c: nat :: a < O.N && c < O.N && OS.CommandedPair(on.outputs, a, c) && !(on.image[a] && on.image[c]) ==>
          OS.NotBoth(e, a, c))
  }

  ghost predicate NoSignalAtBoot(on: LS.PowerOn)
    requires on.Valid()
  {
    forall i :: 0 <= i < O.N && on.outputs.roles[i].indicator != O.NoSide ==> !on.image[i]
  }

  /** Everything the safety theorems give of a board that booted from `on` and then ran `trace`:
      among others every signal still lit was last armed less than the auto-cancel time before
      the latest tick of the outputs. */
  ghost predicate SafeSince(H: L.Hash, on: LS.PowerOn, p: L.Pair, trace: seq<LS.Op>, clock: nat)
    requires on.Valid() && p.out.Valid()
  {
    && LS.Coupled(p) && KeptApart(on, p.out)
    && (OS.StarterOnlyCommanded(on.outputs) ==> OS.StarterSafe(p.out))
    && (OS.Cancels(on.outputs) && NoSignalAtBoot(on) ==> OS.Armed(p.out, clock, LS.LastArmed(H, on.Pair(), trace, LS.NEVER)))
  }

  lemma ApartAfter(H: L.Hash, on: LS.PowerOn, trace: seq<LS.Op>)
    requires on.Valid() && LS.Timed(trace, 0)
    ensures KeptApart(on, LS.Run(H, on.Pair(), trace).out)
  {
    hide LS.Run, OS.SidesExclusive, OS.NotBoth, OS.OneEachSide, OS.CommandedPair;
    var e := LS.Run(H, on.Pair(), trace).out;
    forall l: nat, r: nat | l < O.N && r < O.N && OS.OneEachSide(on.outputs, l, r) && !(on.image[l] && on.image[r])
      ensures OS.SidesExclusive(e, l, r)
    {
      LS.SidesExclusiveAlways(H, on, trace, l, r);
    }
    forall a: nat, c: nat | a < O.N && c < O.N && OS.CommandedPair(on.outputs, a, c) && !(on.image[a] && on.image[c])
      ensures OS.NotBoth(e, a, c)
    {
      LS.PairExclusiveAlways(H, on, trace, a, c);
    }
  }

  lemma SafeAfter(H: L.Hash, on: LS.PowerOn, p: L.Pair, trace: seq<LS.Op>, end: nat, feed: seq<nat>)
    requires on.Valid() && Explains(H, on.Pair(), p, trace, 0, end, feed)
    ensures p.out.Valid() && SafeSince(H, on, p, trace, end)
  {
    hide LS.Run, LS.LastArmed, LS.Coupled, OS.StarterSafe, OS.Armed, OS.Cancels, OS.StarterOnlyCommanded, KeptApart;
    LS.CoupledAlways(H, on, trace);
    ApartAfter(H, on, trace);
    if OS.StarterOnlyCommanded(on.outputs) { LS.StarterSafeAlways(H, on, trace); }
    if OS.Cancels(on.outputs) && NoSignalAtBoot(on) { LS.ArmedAlways(H, on, trace); }
  }

  /** The outputs restored, then the lock, which may lock at once. */
  method BootLock(H: L.Hash, on: LS.PowerOn) returns (out: OutputEngine, lock: LockUnit)
    requires on.Valid()
    ensures out.Valid() && lock.Valid() && lock.H == H && lock.With(out) == on.Pair()
    ensures fresh(out) && fresh(out.channels) && fresh(out.pins) && fresh(lock) && fresh(lock.entryBuf)
  {
    hide L.Init, O.Boot;
    out := new OutputEngine(on.outputs, on.canDim, on.image);
    out.RestoreFromConfig();
    lock := new LockUnit(H, on.cfg);
    lock.DoInit(on.flag, out);
  }

  /** Brings the board up from what was persisted. */
  method BootUp(H: L.Hash, on: LS.PowerOn, timing: I.Timing, defs: seq<I.Def>, b: Wiring, diagCfg: D.DiagConfig) returns (app: App)
    requires on.Valid() && |defs| <= I.COMBOS && b.Valid() && |diagCfg.thresholds| == O.N
    ensures app.Valid() && app.Both() == on.Pair() && app.lock.H == H
    ensures app.input.timing == timing && app.input.defs == defs && app.input.Snapshot() == I.FRESH
    ensures fresh(app.Parts())
  {
    hide L.Init, O.Boot;
    var out, lock := BootLock(H, on);
    var input := new InputEngine(timing, defs);
    var diag := new D.DiagUnit(diagCfg);
    app := new App(input, out, lock, diag, b);
  }

  /** Boots and runs any number of passes: that is one legal run of the system in time order, fed
      by the raw samples, and the live objects satisfy every safety theorem of that run. */
  method BootAndRun(H: L.Hash, on: LS.PowerOn, timing: I.Timing, defs: seq<I.Def>, b: Wiring, diagCfg: D.DiagConfig, xs: seq<PassInput>)
      returns (app: App, ghost trace: seq<LS.Op>)
    requires on.Valid() && |defs| <= I.COMBOS && b.Valid() && |diagCfg.thresholds| == O.N && Ordered(xs, 0)
    ensures app.Valid() && F.Samples(Polls(xs))
    ensures Explains(H, on.Pair(), app.Both(), trace, 0, Last(xs, 0), FeedOf(timing, defs, I.FRESH, xs))
    ensures SafeSince(H, on, app.Both(), trace, Last(xs, 0))
  {
    hide SafeSince, Explains, FeedOf;
    app := BootUp(H, on, timing, defs, b, diagCfg);
    PollsSized(xs, 0);
    ghost var feed := FeedOf(timing, defs, I.FRESH, xs);
    trace := RunLoop(app, xs, 0);
    SafeAfter(H, on, app.Both(), trace, Last(xs, 0), feed);
  }
}
