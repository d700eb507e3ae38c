/**
  What a button does to the lamps (dispatch in firmware/main/main.c), told by the action ids of
  the configuration document and the roles of the channels: left lights left, each gesture runs
  its own binding, a suppressed or muted press lights nothing, held channels follow the hold.
 */
module AppLaws {
  import opened Output
  import opened AppTask
  import I = Input
  import L = Lock
  import LS = LockSafety
  import OS = OutputSafety
  import OL = OutputLaws
  import LL = LockLaws

  // ---------- what an action does ----------

  /** The outputs after one bound action. */
  function After(e: Engine, action: nat, t: nat): (e': Engine)
    requires e.Valid()
    ensures e'.Valid() && e'.cfg == e.cfg
  {
    OS.Run(e, ActionOps(e, action, t))
  }

  lemma RunsOne(e: Engine, op: OS.Op)
    requires e.Valid()
    ensures OS.Run(e, [op]) == OS.Apply(e, op) && OS.Run(e, []) == e
  {
    assert [op][1..] == [];
  }

  /** Channel `c` is switched over, if that is allowed. */
  ghost predicate SwitchedOver(e: Engine, e': Engine, c: nat)
    requires e.Valid() && e'.Valid() && c < N
  {
    e'.ch[c].on == if Refusal(e, c, !e.ch[c].on, Local) == Ok then !e.ch[c].on else e.ch[c].on
  }

  lemma TogglesOver(e: Engine, c: nat)
    requires e.Valid() && c < N && e.cfg.roles[c].behaviour != Momentary
    ensures OS.Run(e, AppTask.Toggle(e, c)) == Set(e, c, !e.ch[c].on, Local) && SwitchedOver(e, OS.Run(e, AppTask.Toggle(e, c)), c)
  {
    hide Set;
    RunsOne(e, OS.DoSet(c, !e.ch[c].on, Local));
    OL.SetReaches(e, c, !e.ch[c].on, Local);
  }

  /** Action 1 is the left signal and action 2 the right one: each switches its own side over,
      and lighting one side puts the other out. */
  lemma TurnActions(e: Engine, t: nat, l: nat, r: nat)
    requires e.Valid() && OS.OneEachSide(e.cfg, l, r)
    requires e.cfg.roles[l].behaviour != Momentary && e.cfg.roles[r].behaviour != Momentary
    ensures SwitchedOver(e, After(e, 1, t), l) && SwitchedOver(e, After(e, 2, t), r)
    ensures !e.ch[l].on && After(e, 1, t).ch[l].on ==> !After(e, 1, t).ch[r].on
    ensures !e.ch[r].on && After(e, 2, t).ch[r].on ==> !After(e, 2, t).ch[l].on
  {
    hide AppTask.Toggle, Set, OS.Run;
    assert FindIndicator(e.cfg.roles, Left) == l;
    assert FindIndicator(e.cfg.roles, Right) == r;
    TogglesOver(e, l);
    TogglesOver(e, r);
    LightingExcludes(e, l, l, r);
    LightingExcludes(e, r, l, r);
  }

  lemma LightingExcludes(e: Engine, c: nat, l: nat, r: nat)
    requires e.Valid() && OS.OneEachSide(e.cfg, l, r) && (c == l || c == r)
    ensures Refusal(e, c, true, Local) == Ok ==> !Set(e, c, true, Local).ch[if c == l then r else l].on
  {
    hide Command, LeaveHazards;
    var e1 := LeaveHazards(e, c);
    OS.DropOppositeSides(e1, c, true, l, r);
    PartnerLightsNothing(DropOpposite(e1, c, true), c);
    OS.SettleLights(e, Prepare(e, c, true), c, true);
  }

  lemma PartnerLightsNothing(e: Engine, c: nat)
    requires e.Valid() && c < N
    ensures forall i :: 0 <= i < N && DropPartner(e, c, true).ch[i].on ==> e.ch[i].on
  {
  }

  /** Action 3 is the hazard control. */
  lemma HazardAction(e: Engine, t: nat, i: nat)
    requires e.Valid() && i < N && exists k :: 0 <= k < N && e.cfg.roles[k].hazardMember
    ensures After(e, 3, t).hazards == !e.hazards
    ensures e.cfg.roles[i].hazardMember ==> After(e, 3, t).ch[i].on == if e.hazards then e.ch[i].saved else true
    ensures !e.cfg.roles[i].hazardMember ==> After(e, 3, t).ch[i].on == e.ch[i].on
  {
    hide HazardPress;
    RunsOne(e, OS.DoHazard(t));
    if e.hazards { OL.HazardsEndGivesBack(e, t, i); } else { OL.HazardsLightMembers(e, t, i); }
  }

  /** Actions 0x100 to 0x10B switch over the channel of that number, unless it is momentary:
      such a channel follows its level and no action touches anything. */
  lemma ToggleAction(e: Engine, t: nat, c: nat)
    requires e.Valid() && c < N
    ensures if e.cfg.roles[c].behaviour == Momentary then After(e, 0x100 + c, t) == e
            else SwitchedOver(e, After(e, 0x100 + c, t), c)
  {
    if e.cfg.roles[c].behaviour != Momentary {
      TogglesOver(e, c);
    } else {
      RunsOne(e, OS.DoHazard(t));
    }
  }

  /** Actions 0x200 to 0x20B step the pair: the member that was out is lit, the other put out. */
  lemma PairAction(e: Engine, t: nat, a: nat, b: nat)
    requires e.Valid() && OS.CommandedPair(e.cfg, a, b) && OS.NotBoth(e, a, b)
    requires e.cfg.roles[a].behaviour != Momentary && e.cfg.roles[b].behaviour != Momentary
    ensures var e' := After(e, 0x200 + a, t);
            if Refusal(e, if e.ch[a].on then b else a, true, Local) == Ok
            then e'.ch[a].on == !e.ch[a].on && e'.ch[b].on == !e'.ch[a].on
            else e' == e
  {
    hide AlternatePress;
    RunsOne(e, OS.DoAlternate(a, Local));
    OS.AlternateLandsOnOne(e, a, b, Local);
  }

  /** No other id does anything. */
  lemma UnknownActions(e: Engine, action: nat, t: nat)
    requires e.Valid() && (action == 0 || 4 <= action < 0x100 || 0x10C <= action < 0x200 || 0x20C <= action)
    ensures After(e, action, t) == e
  {
  }

  // ---------- which actions an event runs ----------

  /** The board after one event. */
  function Handled(H: L.Hash, p: L.Pair, b: Wiring, event: I.Event, t: nat, muted: bool): (p': L.Pair)
    requires p.out.Valid() && b.Valid()
    ensures p'.out.Valid() && p'.out.cfg == p.out.cfg
  {
    LS.Run(H, p, EventOps(H, p, b, event, t, muted))
  }

  /** What the configuration document lists for this button and gesture. */
  ghost predicate IsBound(b: Wiring, button: nat, g: I.Gesture, actions: seq<nat>)
    requires b.Valid()
  {
    && button < 8
    && (g == I.Short ==> b.short[button] == actions)
    && (g == I.Long ==> b.long[button] == actions)
    && (g == I.Double ==> b.double[button] == actions)
  }

  /** The cheat-code does not listen: the press is no short one, or the bike is not LOCKED. */
  predicate CodeDeaf(p: L.Pair, g: I.Gesture) {
    g != I.Short || p.lock.state != L.Locked
  }

  /** The board once the cheat-code has seen the event. */
  function Heard(H: L.Hash, p: L.Pair, event: I.Event, t: nat): (p': L.Pair)
    requires p.out.Valid()
    ensures p'.out.Valid() && p'.out.cfg == p.out.cfg
  {
    if event.Pressed? && event.gesture == I.Short then L.CodePress(H, p, t, event.button) else p
  }

  lemma CodeHears(H: L.Hash, p: L.Pair, event: I.Event, t: nat)
    requires p.out.Valid()
    ensures LS.Run(H, p, CodeOps(event, t)) == Heard(H, p, event, t)
  {
    hide L.CodePress, LS.Run;
    RunsNothing(H, p);
    if event.Pressed? && event.gesture == I.Short { RunsOneStep(H, p, LS.Press(t, event.button)); }
  }

  lemma ActsAsListed(H: L.Hash, p: L.Pair, b: Wiring, event: I.Event, t: nat, muted: bool)
    requires p.out.Valid() && b.Valid()
    ensures var p1 := Heard(H, p, event, t);
            Handled(H, p, b, event, t, muted) == p1.(out := OS.Run(p1.out, ListOps(p1.out, BoundActions(b, event, muted), t)))
  {
    hide ListOps, BoundActions, LS.Run, OS.Run, CodeOps, Heard;
    CodeHears(H, p, event, t);
    var p1 := Heard(H, p, event, t);
    var ops := ListOps(p1.out, BoundActions(b, event, muted), t);
    RunAppend(H, p, CodeOps(event, t), Lift(ops));
    LiftRuns(H, p1, ops);
  }

  lemma OneAction(e: Engine, action: nat, t: nat)
    requires e.Valid()
    ensures OS.Run(e, ListOps(e, [action], t)) == After(e, action, t) && OS.Run(e, ListOps(e, [], t)) == e
  {
    hide ActionOps;
    assert [action][1..] == [];
    assert ListOps(e, [action], t) == ActionOps(e, action, t) + [];
    assert ActionOps(e, action, t) + [] == ActionOps(e, action, t);
  }

  /** A press that nothing suppresses runs the list bound to its own gesture, a short one after the
      cheat-code has heard it: the press that opens the bike already acts on the open bike. */
  lemma PressRunsItsBinding(H: L.Hash, p: L.Pair, b: Wiring, button: nat, g: I.Gesture, t: nat, action: nat)
    requires p.out.Valid() && b.Valid() && IsBound(b, button, g, [action])
    ensures var p1 := if g == I.Short then L.CodePress(H, p, t, button) else p;
            Handled(H, p, b, I.Pressed(button, g, false), t, false) == p1.(out := After(p1.out, action, t))
    ensures CodeDeaf(p, g) && g == I.Short ==> L.CodePress(H, p, t, button) == p
  {
    hide ListOps, LS.Run, OS.Run, CodeOps, EventOps;
    ActsAsListed(H, p, b, I.Pressed(button, g, false), t, false);
    assert BoundActions(b, I.Pressed(button, g, false), false) == [action];
    OneAction(Heard(H, p, I.Pressed(button, g, false), t).out, action, t);
  }

  /** A suppressed press, or one while an app captures a code, moves no output; a short one still
      reaches the cheat-code. */
  lemma SilencedPress(H: L.Hash, p: L.Pair, b: Wiring, button: nat, g: I.Gesture, s: bool, t: nat, muted: bool)
    requires p.out.Valid() && b.Valid() && (s || muted)
    ensures Handled(H, p, b, I.Pressed(button, g, s), t, muted) == if g == I.Short then L.CodePress(H, p, t, button) else p
  {
    hide L.CodePress, LS.Run, OS.Run, BoundActions, ListOps, EventOps;
    var event := I.Pressed(button, g, s);
    NothingBound(b, event, muted);
    ActsAsListed(H, p, b, event, t, muted);
    OneAction(Heard(H, p, event, t).out, 0, t);
  }

  lemma NothingBound(b: Wiring, event: I.Event, muted: bool)
    requires b.Valid() && event.Pressed? && (event.suppressed || muted)
    ensures BoundActions(b, event, muted) == []
  {
  }

  lemma RunsOneStep(H: L.Hash, p: L.Pair, op: LS.Op)
    requires p.out.Valid()
    ensures LS.Run(H, p, [op]) == LS.Step(H, p, op)
  {
    hide LS.Step;
    assert [op][1..] == [];
  }

  /** A combo runs its own list, capture or not. */
  lemma ComboRunsItsList(H: L.Hash, p: L.Pair, b: Wiring, k: nat, t: nat, muted: bool, action: nat)
    requires p.out.Valid() && b.Valid()
    ensures Handled(H, p, b, I.Combo(k, [action]), t, muted) == p.(out := After(p.out, action, t))
  {
    hide ListOps, LS.Run, OS.Run, EventOps;
    ActsAsListed(H, p, b, I.Combo(k, [action]), t, muted);
    assert BoundActions(b, I.Combo(k, [action]), muted) == [action];
    OneAction(p.out, action, t);
  }

  lemma RunsNothing(H: L.Hash, p: L.Pair)
    requires p.out.Valid()
    ensures LS.Run(H, p, []) == p
  {
  }

  /** A longer list runs left to right, each action on what the ones before it left. */
  lemma {:induction false} ListRunsInOrder(e: Engine, xs: seq<nat>, ys: seq<nat>, t: nat)
    requires e.Valid()
    ensures var e1 := OS.Run(e, ListOps(e, xs, t));
            OS.Run(e, ListOps(e, xs + ys, t)) == OS.Run(e1, ListOps(e1, ys, t))
    decreases |xs|
  {
    hide ActionOps;
    if xs == [] {
      assert xs + ys == ys;
    } else {
      var ops := ActionOps(e, xs[0], t);
      var e0 := OS.Run(e, ops);
      assert (xs + ys)[0] == xs[0] && (xs + ys)[1..] == xs[1..] + ys;
      OS.RunAppend(e, ops, ListOps(e0, xs[1..] + ys, t));
      OS.RunAppend(e, ops, ListOps(e0, xs[1..], t));
      ListRunsInOrder(e0, xs[1..], ys, t);
    }
  }

  // ---------- so: what each button does ----------

  /** Pressing what is bound to the left signal lights the left signal. */
  lemma LeftButtonSignalsLeft(H: L.Hash, p: L.Pair, b: Wiring, button: nat, g: I.Gesture, t: nat, l: nat, r: nat)
    requires p.out.Valid() && b.Valid() && IsBound(b, button, g, [1]) && CodeDeaf(p, g)
    requires OS.OneEachSide(p.out.cfg, l, r) && p.out.cfg.roles[l].behaviour != Momentary && p.out.cfg.roles[r].behaviour != Momentary
    ensures var p' := Handled(H, p, b, I.Pressed(button, g, false), t, false);
            && SwitchedOver(p.out, p'.out, l) && p'.lock == p.lock
            && (!p.out.ch[l].on && p'.out.ch[l].on ==> !p'.out.ch[r].on)
  {
    hide Handled, After, SwitchedOver;
    PressRunsItsBinding(H, p, b, button, g, t, 1);
    TurnActions(p.out, t, l, r);
  }

  lemma RightButtonSignalsRight(H: L.Hash, p: L.Pair, b: Wiring, button: nat, g: I.Gesture, t: nat, l: nat, r: nat)
    requires p.out.Valid() && b.Valid() && IsBound(b, button, g, [2]) && CodeDeaf(p, g)
    requires OS.OneEachSide(p.out.cfg, l, r) && p.out.cfg.roles[l].behaviour != Momentary && p.out.cfg.roles[r].behaviour != Momentary
    ensures var p' := Handled(H, p, b, I.Pressed(button, g, false), t, false);
            && SwitchedOver(p.out, p'.out, r) && p'.lock == p.lock
            && (!p.out.ch[r].on && p'.out.ch[r].on ==> !p'.out.ch[l].on)
  {
    hide Handled, After, SwitchedOver;
    PressRunsItsBinding(H, p, b, button, g, t, 2);
    TurnActions(p.out, t, l, r);
  }

  lemma HazardButton(H: L.Hash, p: L.Pair, b: Wiring, button: nat, g: I.Gesture, t: nat, i: nat)
    requires p.out.Valid() && b.Valid() && IsBound(b, button, g, [3]) && CodeDeaf(p, g)
    requires i < N && exists k :: 0 <= k < N && p.out.cfg.roles[k].hazardMember
    ensures var p' := Handled(H, p, b, I.Pressed(button, g, false), t, false);
            && p'.out.hazards == !p.out.hazards && p'.lock == p.lock
            && p'.out.ch[i].on == if !p.out.cfg.roles[i].hazardMember then p.out.ch[i].on else if p.out.hazards then p.out.ch[i].saved else true
  {
    hide Handled, After;
    PressRunsItsBinding(H, p, b, button, g, t, 3);
    HazardAction(p.out, t, i);
  }

  lemma ChannelButton(H: L.Hash, p: L.Pair, b: Wiring, button: nat, g: I.Gesture, t: nat, c: nat)
    requires p.out.Valid() && b.Valid() && c < N && IsBound(b, button, g, [0x100 + c]) && CodeDeaf(p, g)
    requires p.out.cfg.roles[c].behaviour != Momentary
    ensures var p' := Handled(H, p, b, I.Pressed(button, g, false), t, false);
            SwitchedOver(p.out, p'.out, c) && p'.lock == p.lock
  {
    hide Handled, After, SwitchedOver;
    PressRunsItsBinding(H, p, b, button, g, t, 0x100 + c);
    ToggleAction(p.out, t, c);
  }

  lemma PairButton(H: L.Hash, p: L.Pair, b: Wiring, button: nat, g: I.Gesture, t: nat, a: nat, c: nat)
    requires p.out.Valid() && b.Valid() && OS.CommandedPair(p.out.cfg, a, c) && OS.NotBoth(p.out, a, c)
    requires IsBound(b, button, g, [0x200 + a]) && CodeDeaf(p, g)
    requires p.out.cfg.roles[a].behaviour != Momentary && p.out.cfg.roles[c].behaviour != Momentary
    ensures var e, e' := p.out, Handled(H, p, b, I.Pressed(button, g, false), t, false).out;
            if Refusal(e, if e.ch[a].on then c else a, true, Local) == Ok
            then e'.ch[a].on == !e.ch[a].on && e'.ch[c].on == !e'.ch[a].on
            else e' == e
  {
    hide Handled, After;
    PressRunsItsBinding(H, p, b, button, g, t, 0x200 + a);
    PairAction(p.out, t, a, c);
  }

  // ---------- channels that follow a level ----------

  ghost predicate FirstOf(cfg: Config, side: Side, c: nat) {
    && c < |cfg.roles| && cfg.roles[c].indicator == side
    && forall k :: 0 <= k < c ==> cfg.roles[k].indicator != side
  }

  /** An action that stands for channel `c`. */
  ghost predicate StandsFor(cfg: Config, action: nat, c: nat) {
    action == 0x100 + c || (action == 1 && FirstOf(cfg, Left, c)) || (action == 2 && FirstOf(cfg, Right, c))
  }

  /** One of the first four actions stands for channel `c`. */
  ghost predicate Lists(cfg: Config, actions: seq<nat>, c: nat) {
    exists k :: 0 <= k < |actions| && k < 4 && StandsFor(cfg, actions[k], c)
  }

  /** Somebody holds channel `c` on: a button whose long press lists it, held past its long
      press, or a chord that lists it, all its buttons down. */
  ghost predicate HeldOn(cfg: Config, b: Wiring, defs: seq<I.Def>, s: I.State, c: nat)
    requires b.Valid() && |s.buttons| == 8
  {
    || (exists k :: 0 <= k < 8 && Lists(cfg, b.long[k], c) && s.buttons[k].stable && s.buttons[k].longFired)
    || (exists d :: d in defs && d.kind == I.Chord && d.buttons != [] && Lists(cfg, d.actions, c)
                    && forall m :: m in d.buttons ==> m < 8 && s.buttons[m].stable)
  }

  lemma ListsIsTargets(cfg: Config, actions: seq<nat>, c: nat)
    requires |cfg.roles| == N && c < N
    ensures Lists(cfg, actions, c) <==> Targets(cfg, actions, c)
  {
    var four := FirstFour(actions);
    forall a: nat ensures StandsFor(cfg, a, c) <==> Drives(cfg, a, c) {}
    if Lists(cfg, actions, c) {
      var k :| 0 <= k < |actions| && k < 4 && StandsFor(cfg, actions[k], c);
      assert four[k] == actions[k];
    }
    if Targets(cfg, actions, c) {
      var k :| 0 <= k < |four| && Drives(cfg, four[k], c);
      assert actions[k] == four[k];
    }
  }

  lemma ChordDown(s: I.State, def: I.Def)
    requires |s.buttons| == 8
    ensures ChordHeld(s, def) <==> def.kind == I.Chord && def.buttons != [] && forall m :: m in def.buttons ==> m < 8 && s.buttons[m].stable
  {
    forall m | m in def.buttons && ChordHeld(s, def) ensures m < 8 && s.buttons[m].stable {
      var k :| 0 <= k < |def.buttons| && def.buttons[k] == m;
    }
    forall k | 0 <= k < |def.buttons| && forall m :: m in def.buttons ==> m < 8 && s.buttons[m].stable
      ensures def.buttons[k] < 8 && s.buttons[def.buttons[k]].stable
    {
      assert def.buttons[k] in def.buttons;
    }
  }

  lemma HeldOnIsHeld(cfg: Config, b: Wiring, defs: seq<I.Def>, s: I.State, c: nat)
    requires |cfg.roles| == N && b.Valid() && |s.buttons| == 8 && c < N
    ensures HeldOn(cfg, b, defs, s, c) <==> Held(cfg, b, defs, s, c)
  {
    hide Lists, Targets, ChordHeld;
    forall actions ensures Lists(cfg, actions, c) <==> Targets(cfg, actions, c) { ListsIsTargets(cfg, actions, c); }
    forall d: I.Def ensures ChordHeld(s, d) <==> d.kind == I.Chord && d.buttons != [] && forall m :: m in d.buttons ==> m < 8 && s.buttons[m].stable {
      ChordDown(s, d);
    }
    if Held(cfg, b, defs, s, c) && exists k :: 0 <= k < |defs| && Targets(cfg, defs[k].actions, c) && ChordHeld(s, defs[k]) {
      var k :| 0 <= k < |defs| && Targets(cfg, defs[k].actions, c) && ChordHeld(s, defs[k]);
      assert defs[k] in defs;
    }
    if d :| d in defs && d.kind == I.Chord && d.buttons != [] && Lists(cfg, d.actions, c) && forall m :: m in d.buttons ==> m < 8 && s.buttons[m].stable {
      var k :| 0 <= k < |defs| && defs[k] == d;
      assert Targets(cfg, defs[k].actions, c) && ChordHeld(s, defs[k]);
    }
  }

  /** A momentary channel is on exactly while somebody holds it, unless a capture mutes the
      buttons or it may not go on. Every other channel is left to the presses. */
  lemma MomentaryFollowsHold(e: Engine, b: Wiring, defs: seq<I.Def>, s: I.State, muted: bool, c: nat)
    requires e.Valid() && b.Valid() && |s.buttons| == 8 && c < N
    ensures var e' := OS.Run(e, MomentaryAt(e, b, defs, s, muted, c));
            if e.cfg.roles[c].behaviour == Momentary
            then e'.ch[c].on == (!muted && HeldOn(e.cfg, b, defs, s, c) && (e.ch[c].on || Refusal(e, c, true, Local) == Ok))
            else e' == e
  {
    hide HeldOn, Held, LevelOps;
    HeldOnIsHeld(e.cfg, b, defs, s, c);
    LevelReached(e, c, !muted && Held(e.cfg, b, defs, s, c));
    RunsOne(e, OS.DoHazard(0));
  }

  /** One by one the momentary channels are brought to their levels; a channel keeps its own while
      the others get theirs, unless they are its opposite or partner, hazard members or the key. */
  lemma {:induction false} SweepReaches(e: Engine, b: Wiring, defs: seq<I.Def>, s: I.State, muted: bool, k: nat, c: nat)
    requires e.Valid() && b.Valid() && |s.buttons| == 8 && k <= c < N && e.cfg.roles[c].behaviour == Momentary
    requires Refusal(e, c, true, Local) == Ok
    requires forall i: nat :: c < i < N && e.cfg.roles[i].behaviour == Momentary ==>
               OL.Unrelated(e.cfg, i, c) && !e.cfg.roles[i].isIgnition && !e.cfg.roles[i].hazardMember
    ensures OS.Run(e, MomentaryOps(e, b, defs, s, muted, k)).ch[c].on == (!muted && HeldOn(e.cfg, b, defs, s, c))
    decreases N - k
  {
    hide HeldOn, MomentaryAt, OS.Run, Refusal;
    var e1 := OS.Run(e, MomentaryAt(e, b, defs, s, muted, k));
    OS.RunAppend(e, MomentaryAt(e, b, defs, s, muted, k), MomentaryOps(e1, b, defs, s, muted, k + 1));
    SameRefusal(e, b, defs, s, muted, k, c);
    if k < c {
      SweepReaches(e1, b, defs, s, muted, k + 1, c);
    } else {
      MomentaryFollowsHold(e, b, defs, s, muted, c);
      SweepSpares(e1, b, defs, s, muted, c + 1, c);
    }
  }

  lemma SameRefusal(e: Engine, b: Wiring, defs: seq<I.Def>, s: I.State, muted: bool, k: nat, c: nat)
    requires e.Valid() && b.Valid() && |s.buttons| == 8 && k < N && c < N
    ensures var e' := OS.Run(e, MomentaryAt(e, b, defs, s, muted, k));
            e'.cfg == e.cfg && Refusal(e', c, true, Local) == Refusal(e, c, true, Local)
  {
    hide Held, Command;
    var level := !muted && Held(e.cfg, b, defs, s, k);
    RunsOne(e, OS.DoSet(k, level, Local));
  }

  lemma {:induction false} SweepSpares(e: Engine, b: Wiring, defs: seq<I.Def>, s: I.State, muted: bool, k: nat, c: nat)
    requires e.Valid() && b.Valid() && |s.buttons| == 8 && c < k <= N
    requires forall i: nat :: c < i < N && e.cfg.roles[i].behaviour == Momentary ==>
               OL.Unrelated(e.cfg, i, c) && !e.cfg.roles[i].isIgnition && !e.cfg.roles[i].hazardMember
    ensures OS.Run(e, MomentaryOps(e, b, defs, s, muted, k)).ch[c] == e.ch[c]
    decreases N - k
  {
    hide Held, Set, OS.Run;
    RunsOne(e, OS.DoTick(0));
    if k < N {
      var ops := MomentaryAt(e, b, defs, s, muted, k);
      var e1 := OS.Run(e, ops);
      OS.RunAppend(e, ops, MomentaryOps(e1, b, defs, s, muted, k + 1));
      if e.cfg.roles[k].behaviour == Momentary {
        var level := !muted && Held(e.cfg, b, defs, s, k);
        RunsOne(e, OS.DoSet(k, level, Local));
        OL.CommandSpares(e, k, level, Local, c);
      }
      SweepSpares(e1, b, defs, s, muted, k + 1, c);
    }
  }

  /** So after the sweep every momentary channel that may go on is on exactly while it is held. */
  lemma EveryMomentaryFollows(e: Engine, b: Wiring, defs: seq<I.Def>, s: I.State, muted: bool, c: nat)
    requires e.Valid() && b.Valid() && |s.buttons| == 8 && c < N && e.cfg.roles[c].behaviour == Momentary
    requires Refusal(e, c, true, Local) == Ok
    requires forall i: nat :: c < i < N && e.cfg.roles[i].behaviour == Momentary ==>
               OL.Unrelated(e.cfg, i, c) && !e.cfg.roles[i].isIgnition && !e.cfg.roles[i].hazardMember
    ensures OS.Run(e, MomentaryOps(e, b, defs, s, muted, 0)).ch[c].on == (!muted && HeldOn(e.cfg, b, defs, s, c))
  {
    hide HeldOn, Refusal, OS.Run;
    SweepReaches(e, b, defs, s, muted, 0, c);
  }

  /** The brake light, the first channel with that role, is on exactly while the lever is pulled. */
  lemma BrakeFollowsLever(e: Engine, b: Wiring, s: I.State, c: nat)
    requires e.Valid() && b.Valid() && |s.buttons| == 8 && 0 <= b.brakeSwitch < 8
    requires c < N && e.cfg.roles[c].isBrake && forall k :: 0 <= k < c ==> !e.cfg.roles[k].isBrake
    ensures var pulled := s.buttons[b.brakeSwitch].stable;
            OS.Run(e, BrakeOps(e, b, s)).ch[c].on == (pulled && (e.ch[c].on || Refusal(e, c, true, Local) == Ok))
  {
    hide LevelOps;
    assert FindBrake(e.cfg.roles) == c;
    LevelReached(e, c, s.buttons[b.brakeSwitch].stable);
  }

  // ---------- a whole pass and the lock ----------

  lemma {:induction false} EventsNeverLock(H: L.Hash, p: L.Pair, b: Wiring, events: seq<I.Event>, t: nat, muted: bool)
    requires p.out.Valid() && b.Valid() && p.lock.state != L.Locked
    ensures LS.Run(H, p, EventsOps(H, p, b, events, t, muted)).lock == p.lock
    decreases |events|
  {
    hide EventOps, LS.Run, BoundActions, ListOps;
    if events == [] {
      RunsNothing(H, p);
    } else {
      var ops := EventOps(H, p, b, events[0], t, muted);
      var p1 := LS.Run(H, p, ops);
      EventKeepsLock(H, p, b, events[0], t, muted);
      RunAppend(H, p, ops, EventsOps(H, p1, b, events[1..], t, muted));
      EventsNeverLock(H, p1, b, events[1..], t, muted);
    }
  }

  lemma EventKeepsLock(H: L.Hash, p: L.Pair, b: Wiring, event: I.Event, t: nat, muted: bool)
    requires p.out.Valid() && b.Valid() && p.lock.state != L.Locked
    ensures LS.Run(H, p, EventOps(H, p, b, event, t, muted)).lock == p.lock
  {
    hide EventOps, ListOps, BoundActions, OS.Run, LS.Run;
    ActsAsListed(H, p, b, event, t, muted);
  }

  /** A lock that is not LOCKED after its tick stays as the tick left it. */
  ghost predicate EndsAsTicked(ticked: L.Pair, end: L.Pair) {
    ticked.lock.state != L.Locked ==> end.lock == ticked.lock
  }

  /** The outputs as the lock's tick of a pass finds them: levels followed, verdict applied. */
  function AtTheLock(e: Engine, b: Wiring, defs: seq<I.Def>, s: I.State, v: Verdict, t: nat, muted: bool): (e': Engine)
    requires e.Valid() && b.Valid() && |s.buttons| == I.BUTTONS
    ensures e'.Valid() && e'.cfg == e.cfg && e'.engineRunning == v.running && e'.lvCutoff == v.cutoff
  {
    SetEngineRunning(OS.Run(e, LevelPart(e, b, defs, s, t, muted)), v.running).(lvCutoff := v.cutoff)
  }

  lemma GuardRuns(H: L.Hash, p: L.Pair, v: Verdict, t: nat, level: bool)
    requires p.out.Valid()
    ensures LS.Run(H, p, GuardPart(v, t, level)) ==
            L.Tick(p.(out := SetEngineRunning(p.out, v.running).(lvCutoff := v.cutoff)), t, level)
  {
    hide L.Tick, SetEngineRunning, LS.Run, LS.Step;
    GuardSteps(H, p, v, t, level);
    RunThree(H, p, LS.OnOutput(OS.DoEngine(v.running)), LS.OnOutput(OS.DoCutoff(v.cutoff)), LS.LockTick(t, level));
  }

  lemma GuardSteps(H: L.Hash, p: L.Pair, v: Verdict, t: nat, level: bool)
    requires p.out.Valid()
    ensures var p1 := p.(out := SetEngineRunning(p.out, v.running));
            var p2 := p1.(out := p1.out.(lvCutoff := v.cutoff));
            && LS.Step(H, p, LS.OnOutput(OS.DoEngine(v.running))) == p1
            && LS.Step(H, p1, LS.OnOutput(OS.DoCutoff(v.cutoff))) == p2
            && LS.Step(H, p2, LS.LockTick(t, level)) == L.Tick(p2, t, level)
  {
    hide L.Tick, SetEngineRunning;
  }

  /** The lock's tick of a pass sees this pass's verdict and this pass's switch, and a lock it
      leaves open stays open to the end of the pass. */
  lemma PassMeetsLock(H: L.Hash, p: L.Pair, b: Wiring, defs: seq<I.Def>, s: I.State, events: seq<I.Event>, v: Verdict, t: nat, muted: bool)
    requires p.out.Valid() && b.Valid() && |s.buttons| == 8
    ensures var isw := p.lock.cfg.switchInput;
            var level := 0 <= isw < 8 && s.buttons[isw].stable;
            EndsAsTicked(L.Tick(L.Pair(p.lock, AtTheLock(p.out, b, defs, s, v, t, muted)), t, level),
                         LS.Run(H, p, PassOps(H, p, b, defs, s, events, v, t, muted)))
  {
    hide LevelPart, EventsOps, LS.Run, L.Tick, OS.Run, SetEngineRunning, GuardPart;
    var levels := LevelPart(p.out, b, defs, s, t, muted);
    var level := p.lock.cfg.switchInput >= 0 && ButtonLevel(s, p.lock.cfg.switchInput);
    var guard := GuardPart(v, t, level);
    var p1 := LS.Run(H, p, Lift(levels));
    LiftRuns(H, p, levels);
    var p2 := LS.Run(H, p1, guard);
    GuardRuns(H, p1, v, t, level);
    var evs := EventsOps(H, p2, b, events, t, muted);
    RunAppend(H, p, Lift(levels), guard + evs);
    RunAppend(H, p1, guard, evs);
    if p2.lock.state != L.Locked { EventsNeverLock(H, p2, b, events, t, muted); }
  }

  /** A pass that sees the engine running does not lock the bike. */
  lemma RunningPassNeverLocks(H: L.Hash, p: L.Pair, b: Wiring, defs: seq<I.Def>, s: I.State, events: seq<I.Event>, v: Verdict, t: nat, muted: bool)
    requires p.out.Valid() && b.Valid() && |s.buttons| == 8 && v.running && p.lock.state != L.Locked
    ensures LS.Run(H, p, PassOps(H, p, b, defs, s, events, v, t, muted)).lock.state != L.Locked
  {
    hide PassOps, LS.Run, L.Tick, AtTheLock;
    PassMeetsLock(H, p, b, defs, s, events, v, t, muted);
    var level := 0 <= p.lock.cfg.switchInput < 8 && s.buttons[p.lock.cfg.switchInput].stable;
    RunningTickNeverLocks(L.Pair(p.lock, AtTheLock(p.out, b, defs, s, v, t, muted)), t, level);
  }

  lemma RunningTickNeverLocks(p: L.Pair, t: nat, level: bool)
    requires p.out.Valid() && p.out.engineRunning && p.lock.state != L.Locked
    ensures L.Tick(p, t, level).lock.state != L.Locked
  {
    hide L.Timers, L.EnterLocked, L.EnterUnlocked, L.Release, L.SwitchEdge, L.Advance;
    LS.TimersKeep(p.lock, t);
    var p0 := p.(lock := L.Timers(p.lock, t));
    if p0.lock.cfg.enabled {
      var p1 := L.SwitchEdge(p0, level);
      SwitchKeepsEngine(p0, level);
      RunningNeverLocks(p1, t, level);
    } else {
      ReleaseSets(p0);
    }
  }

  lemma ReleaseSets(p: L.Pair)
    requires p.out.Valid()
    ensures L.Release(p, L.Disabled).lock.state == L.Disabled
  {
  }

  lemma SwitchKeepsEngine(p: L.Pair, level: bool)
    requires p.out.Valid()
    ensures L.SwitchEdge(p, level).out.engineRunning == p.out.engineRunning
  {
    hide Set;
  }

  lemma RunningNeverLocks(p: L.Pair, t: nat, level: bool)
    requires p.out.Valid() && p.out.engineRunning && p.lock.state != L.Locked
    ensures L.Advance(p, t, level).lock.state != L.Locked
  {
    hide L.EnterLocked, L.EnterUnlocked;
  }

  /** A pass that sees the ignition switch on opens a LOCKED bike that has it as a method. */
  lemma SwitchOpensInOnePass(H: L.Hash, p: L.Pair, b: Wiring, defs: seq<I.Def>, s: I.State, events: seq<I.Event>, v: Verdict, t: nat, muted: bool)
    requires p.out.Valid() && b.Valid() && |s.buttons| == 8 && p.lock.state == L.Locked && p.lock.cfg.enabled && p.lock.cfg.switchMethod
    requires 0 <= p.lock.cfg.switchInput < 8 && s.buttons[p.lock.cfg.switchInput].stable
    ensures LS.Run(H, p, PassOps(H, p, b, defs, s, events, v, t, muted)).lock.state == L.Unlocked
  {
    hide PassOps, LS.Run, L.Tick, AtTheLock;
    PassMeetsLock(H, p, b, defs, s, events, v, t, muted);
    LL.LockedSwitchOpens(L.Pair(p.lock, AtTheLock(p.out, b, defs, s, v, t, muted)), t, true);
  }
}
