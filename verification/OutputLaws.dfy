/**
  What the output engine does to a channel, told by the roles the rider gave it: which lamp
  is lit at what moment, what a command reaches and what it leaves alone, what the key does.
  None of these statements mentions the functions the engine is computed with but the
  operation itself.
 */
module OutputLaws {
  import opened Output
  import opened OutputObject
  import OS = OutputSafety

  // ---------- how a lit channel looks ----------

  /** A low battery never darkens the essential channels, the ignition and the brake light, and
      always darkens every other one. */
  lemma CutoffSparesEssential(g: Rig, r: Role, on: bool, burst: nat, now: nat)
    ensures r.essential || r.isIgnition || r.isBrake ==>
              Level(g.(lvCutoff := true), r, on, burst, now) == Level(g.(lvCutoff := false), r, on, burst, now)
    ensures !r.essential && !r.isIgnition && !r.isBrake ==> Level(g.(lvCutoff := true), r, on, burst, now) == Low
  {
  }

  /** The battery leaves this channel alone. */
  predicate Powered(g: Rig, r: Role) {
    !g.lvCutoff || r.essential || r.isIgnition || r.isBrake
  }

  /** Dark in the odd half periods. */
  predicate OddHalf(cfg: Config, now: nat) {
    var half := cfg.flashPeriodMs / 2;
    half > 0 && (now / half) % 2 == 1
  }

  /** What a lit channel shows while it is not dark: its duty, where it may be dimmed at all. */
  function Shine(canDim: bool, r: Role): Pin {
    if canDim && r.dutyPct < 100 && (r.behaviour == Toggle || r.behaviour == Momentary) then Dimmed(r.dutyPct) else High
  }

  /** A plain channel shines steadily as long as it is commanded on. */
  lemma PlainShines(g: Rig, r: Role, burst: nat, now: nat)
    requires Powered(g, r) && (r.behaviour == Toggle || r.behaviour == Momentary) && !(g.hazards && r.hazardMember)
    ensures Level(g, r, true, burst, now) == Shine(g.canDim, r)
  {
  }

  /** A blinking channel, and any hazard member while the hazards run, whatever its own
      behaviour, is dark exactly in the odd half periods. */
  lemma BlinksInStep(g: Rig, r: Role, burst: nat, now: nat)
    requires Powered(g, r) && (r.behaviour == Blink || (g.hazards && r.hazardMember))
    ensures Level(g, r, true, burst, now) == if OddHalf(g.cfg, now) then Low else Shine(g.canDim, r)
  {
    var half := g.cfg.flashPeriodMs / 2;
    if half > 0 { BlinkLitIsPhase(half, now); }
  }

  /** A flasher is dark exactly in the off parts of its counted pulses after it was lit. */
  lemma FlashesThenShines(g: Rig, r: Role, burst: nat, now: nat)
    requires Powered(g, r) && r.behaviour == Flasher && !(g.hazards && r.hazardMember)
    requires burst <= now < burst + 0x1_0000_0000
    ensures var cycle := g.cfg.pulseOnMs + g.cfg.pulseOffMs;
            Level(g, r, true, burst, now) ==
            if now - burst < cycle * g.cfg.pulseCount && (now - burst) % cycle >= g.cfg.pulseOnMs then Low else High
  {
    var cycle := g.cfg.pulseOnMs + g.cfg.pulseOffMs;
    if cycle > 0 {
      BurstLitIsPhase(g.cfg.pulseCount, g.cfg.pulseOnMs, g.cfg.pulseOffMs, now - burst);
    } else {
      OutputEngine.NoPulseIsSolid(g.cfg.pulseCount, now - burst);
    }
  }

  /** What the rider sees of channel `i` at `now`. */
  ghost predicate Shows(out: OutputEngine, i: nat, now: nat)
    requires out.Sized() && i < N
    reads out, out.channels, out.pins
  {
    var r, pin := out.cfg.roles[i], out.pins[i];
    var inStep := r.behaviour == Blink || (out.hazards && r.hazardMember);
    && (!out.channels[i].on ==> pin == Low)
    && (out.lvCutoff && !r.essential && !r.isIgnition && !r.isBrake ==> pin == Low)
    && (out.channels[i].on && (!out.lvCutoff || r.essential || r.isIgnition || r.isBrake) ==>
          && (inStep ==> pin == if OddHalf(out.cfg, now) then Low else Shine(out.canDim, r))
          && (!inStep && r.behaviour != Flasher ==> pin == Shine(out.canDim, r)))
  }

  lemma AgreedPinsShow(out: OutputEngine, now: nat)
    requires out.Sized() && out.PinsAgree(now)
    ensures forall i: nat :: i < N ==> Shows(out, i, now)
  {
    forall i: nat | i < N ensures Shows(out, i, now) {
      var g, r, burst := Rig(out.cfg, out.canDim, out.lvCutoff, out.hazards), out.cfg.roles[i], out.channels[i].burst;
      CutoffSparesEssential(g, r, out.channels[i].on, burst, now);
      if out.channels[i].on && Powered(g, r) {
        if r.behaviour == Blink || (out.hazards && r.hazardMember) {
          BlinksInStep(g, r, burst, now);
        } else if r.behaviour != Flasher {
          PlainShines(g, r, burst, now);
        }
      }
    }
  }

  /** Each tick leaves the pins showing that. */
  method TickShows(out: OutputEngine, now: nat)
    requires out.Valid()
    modifies out`lastTick, out.channels, out.pins
    ensures out.Valid() && out.State() == Tick(old(out.State()), now)
    ensures forall i: nat :: i < N ==> Shows(out, i, now)
  {
    hide Level, Tick;
    out.DoTick(now);
    AgreedPinsShow(out, now);
  }

  /** And so does every change of the cutoff, at once. */
  method CutoffShows(out: OutputEngine, cutoff: bool)
    requires out.Valid() && cutoff != out.lvCutoff
    modifies out`lvCutoff, out.pins
    ensures out.Valid() && out.State() == old(out.State()).(lvCutoff := cutoff)
    ensures forall i: nat :: i < N ==> Shows(out, i, out.lastTick)
  {
    hide Level;
    out.SetCutoff(cutoff);
    AgreedPinsShow(out, out.lastTick);
  }

  // ---------- which commands are accepted ----------

  /** Switching off is never refused. Switching on is refused to everything while immobilized,
      and to a starter from the app, with the engine running, or against its interlock. */
  lemma AcceptedExactly(e: Engine, c: nat, on: bool, src: Source)
    requires e.Valid() && c < N
    ensures Refusal(e, c, false, src) == Ok
    ensures Refusal(e, c, true, src) == Ok <==>
            && !e.immobilized
            && (e.cfg.roles[c].isStarter ==> src == Local && !e.engineRunning && (e.cfg.interlockInput < 0 || e.interlock))
    ensures Refusal(e, c, on, src) != Ok ==> Set(e, c, on, src) == e
  {
  }

  /** An accepted command reaches its own channel. */
  lemma SetReaches(e: Engine, c: nat, on: bool, src: Source)
    requires e.Valid() && c < N
    ensures Set(e, c, on, src).ch[c].on == if Refusal(e, c, on, src) == Ok then on else e.ch[c].on
  {
    hide Command, Prepare;
    OS.SettleLights(e, Prepare(e, c, on), c, on);
  }

  // ---------- what a command leaves alone ----------

  /** Channel `i` is not the opposite number or the partner that lighting `c` puts out. */
  predicate Unrelated(cfg: Config, c: nat, i: nat)
    requires |cfg.roles| == N && c < N && i < N
  {
    && i != c && cfg.roles[c].alternate != i
    && (cfg.roles[c].indicator == NoSide || cfg.roles[i].indicator == NoSide || cfg.roles[c].indicator == cfg.roles[i].indicator)
  }

  /** The command ends running hazards. */
  predicate EndsHazards(e: Engine, c: nat)
    requires e.Valid() && c < N
  {
    e.hazards && e.cfg.roles[c].hazardMember
  }

  /** Preparing a command disturbs no unrelated channel, unless it ends the hazards. */
  lemma PreparingSpares(e: Engine, c: nat, on: bool, i: nat)
    requires e.Valid() && c < N && i < N && Unrelated(e.cfg, c, i) && !(EndsHazards(e, c) && e.cfg.roles[i].hazardMember)
    ensures Prepare(e, c, on).ch[i] == e.ch[i]
  {
    var e1 := LeaveHazards(e, c);
    assert e1.ch[i] == e.ch[i];
    var e2 := DropOpposite(e1, c, on);
    assert e2.ch[i] == e1.ch[i];
  }

  lemma PreparingKeeps(e: Engine, c: nat, on: bool)
    requires e.Valid() && c < N
    ensures Prepare(e, c, on).ch[c] == e.ch[c] && Prepare(e, c, on).hazards == (e.hazards && !e.cfg.roles[c].hazardMember)
  {
    hide LeaveHazards, DropOpposite, DropPartner;
    LeavingKeeps(e, c);
    DroppingKeeps(LeaveHazards(e, c), c, on);
    DroppingKeeps(DropOpposite(LeaveHazards(e, c), c, on), c, on);
  }

  lemma LeavingKeeps(e: Engine, c: nat)
    requires e.Valid() && c < N
    ensures LeaveHazards(e, c).ch[c] == e.ch[c] && LeaveHazards(e, c).hazards == (e.hazards && !e.cfg.roles[c].hazardMember)
  {
  }

  lemma DroppingKeeps(e: Engine, c: nat, on: bool)
    requires e.Valid() && c < N
    ensures DropOpposite(e, c, on).ch[c] == e.ch[c] == DropPartner(e, c, on).ch[c]
    ensures DropOpposite(e, c, on).hazards == e.hazards == DropPartner(e, c, on).hazards
  {
  }

  /** The command turns the key. */
  predicate TurnsKey(e: Engine, c: nat, on: bool)
    requires e.Valid() && c < N
  {
    e.cfg.roles[c].isIgnition && e.ch[c].on != on
  }

  /** Without the key, a command leaves every unrelated channel exactly as it was, timers and
      all, and the hazards too unless it is aimed at one of them. */
  lemma CommandSpares(e: Engine, c: nat, on: bool, src: Source, i: nat)
    requires e.Valid() && c < N && i < N && !TurnsKey(e, c, on) && Unrelated(e.cfg, c, i)
    requires !(EndsHazards(e, c) && e.cfg.roles[i].hazardMember)
    ensures Set(e, c, on, src).ch[i] == e.ch[i]
    ensures Set(e, c, on, src).hazards == (e.hazards && !(e.cfg.roles[c].hazardMember && Refusal(e, c, on, src) == Ok))
  {
    hide Prepare;
    PreparingSpares(e, c, on, i);
    PreparingKeeps(e, c, on);
  }

  /** Lighting one member of a pair puts the other out, whatever else it does. */
  lemma PartnerGoesOut(e: Engine, c: nat, src: Source, p: nat)
    requires e.Valid() && c < N && p < N && p != c && e.cfg.roles[c].alternate == p && Refusal(e, c, true, src) == Ok
    requires !TurnsKey(e, c, true)
    ensures !Set(e, c, true, src).ch[p].on
  {
    hide LeaveHazards, DropOpposite;
    PreparingKeeps(e, c, true);
    assert !Prepare(e, c, true).ch[p].on;
  }

  /** `o` is the first channel that signals the other way. */
  ghost predicate FirstOpposite(cfg: Config, c: nat, o: nat)
    requires |cfg.roles| == N && c < N && o < N
  {
    var other := if cfg.roles[c].indicator == Left then Right else Left;
    cfg.roles[c].indicator != NoSide && cfg.roles[o].indicator == other && forall k :: 0 <= k < o ==> cfg.roles[k].indicator != other
  }

  /** Lighting a turn signal puts the first one of the other side out, and stops its timer. */
  lemma OppositeGoesOut(e: Engine, c: nat, src: Source, o: nat)
    requires e.Valid() && c < N && o < N && FirstOpposite(e.cfg, c, o) && Refusal(e, c, true, src) == Ok && !TurnsKey(e, c, true)
    ensures !Set(e, c, true, src).ch[o].on
    ensures e.ch[o].on && !EndsHazards(e, c) ==> Set(e, c, true, src).ch[o].deadline == 0
  {
    hide LeaveHazards;
    var e1 := LeaveHazards(e, c);
    assert OppositeOf(e.cfg.roles, c) == o;
    LeavesAlone(e, c);
    DroppedOpposite(e1, c, o);
    PreparingKeeps(e, c, true);
  }

  lemma LeavesAlone(e: Engine, c: nat)
    requires e.Valid() && c < N
    ensures !EndsHazards(e, c) ==> LeaveHazards(e, c) == e
  {
  }

  lemma DroppedOpposite(e: Engine, c: nat, o: nat)
    requires e.Valid() && c < N && o < N && OppositeOf(e.cfg.roles, c) == o
    ensures var e2 := DropPartner(DropOpposite(e, c, true), c, true);
            !e2.ch[o].on && (e.ch[o].on ==> e2.ch[o].deadline == 0)
  {
  }

  /** A flasher starts its burst when it is lit, not when it is commanded on again. */
  lemma BurstStartsWhenLit(e: Engine, c: nat, src: Source)
    requires e.Valid() && c < N && !e.cfg.roles[c].isIgnition && Refusal(e, c, true, src) == Ok
    ensures Set(e, c, true, src).ch[c].burst == if e.cfg.roles[c].behaviour == Flasher && !e.ch[c].on then e.lastTick else e.ch[c].burst
  {
    hide Prepare;
    PreparingKeeps(e, c, true);
  }

  // ---------- the key ----------

  /** Nothing but the ignition itself stays on, and no timer runs. */
  ghost predicate KeyedOff(e: Engine)
    requires e.Valid()
  {
    !e.hazards && forall i :: 0 <= i < N && !e.cfg.roles[i].isIgnition ==> !e.ch[i].on && e.ch[i].deadline == 0
  }

  /** Turning the key off darkens the bike: the hazards end and everything goes out, whatever
      put it on. */
  lemma KeyOffDarkens(e: Engine, c: nat, src: Source)
    requires e.Valid() && c < N && e.cfg.roles[c].isIgnition && e.ch[c].on
    ensures KeyedOff(Set(e, c, false, src)) && !Set(e, c, false, src).ch[c].on
  {
    hide Prepare;
    PreparingKeeps(e, c, false);
    SetReaches(e, c, false, src);
  }

  /** Turning it on lights exactly the channels that follow the key, besides what was lit. */
  lemma KeyOnLights(e: Engine, c: nat, src: Source, i: nat)
    requires e.Valid() && c < N && i < N && e.cfg.roles[c].isIgnition && !e.ch[c].on && Refusal(e, c, true, src) == Ok
    requires Unrelated(e.cfg, c, i) && !(EndsHazards(e, c) && e.cfg.roles[i].hazardMember)
    ensures Set(e, c, true, src).ch[i].on == (e.ch[i].on || (e.cfg.roles[i].onWithIgnition && !e.cfg.roles[i].isIgnition))
    ensures e.ch[i].on ==> Set(e, c, true, src).ch[i] == e.ch[i]
  {
    hide Prepare;
    PreparingSpares(e, c, true, i);
    PreparingKeeps(e, c, true);
  }

  // ---------- hazards, time and the engine ----------

  /** The hazard control lights every member and nothing else, and remembers what was lit. */
  lemma HazardsLightMembers(e: Engine, now: nat, i: nat)
    requires e.Valid() && !e.hazards && i < N && exists k :: 0 <= k < N && e.cfg.roles[k].hazardMember
    ensures HazardPress(e, now).hazards
    ensures HazardPress(e, now).ch[i].on == (e.ch[i].on || e.cfg.roles[i].hazardMember)
    ensures HazardPress(e, now).ch[i].saved == (e.cfg.roles[i].hazardMember && e.ch[i].on)
    ensures e.cfg.roles[i].hazardMember ==> HazardPress(e, now).ch[i].deadline == 0
  {
  }

  /** Without a hazard member the control does nothing at all. */
  lemma NoMembersNoHazards(e: Engine, now: nat)
    requires e.Valid() && forall k :: 0 <= k < N ==> !e.cfg.roles[k].hazardMember
    ensures HazardPress(e, now) == e
  {
  }

  /** Ending them gives every member back what it was and leaves the others alone. */
  lemma HazardsEndGivesBack(e: Engine, now: nat, i: nat)
    requires e.Valid() && e.hazards && i < N && exists k :: 0 <= k < N && e.cfg.roles[k].hazardMember
    ensures !HazardPress(e, now).hazards
    ensures if e.cfg.roles[i].hazardMember then HazardPress(e, now).ch[i].on == e.ch[i].saved else HazardPress(e, now).ch[i] == e.ch[i]
  {
  }

  /** A tick puts out exactly what is due. */
  lemma TickPutsOutTheDue(e: Engine, now: nat, i: nat)
    requires e.Valid() && i < N
    ensures var due := 0 < e.ch[i].deadline <= now;
            Tick(e, now).ch[i] == if due then e.ch[i].(on := false, deadline := 0) else e.ch[i]
  {
  }

  /** The engine starting puts out the starters, and only them. */
  lemma StartedEngineDropsStarters(e: Engine, running: bool, i: nat)
    requires e.Valid() && i < N
    ensures var e' := SetEngineRunning(e, running);
            && e'.engineRunning == running
            && e'.ch[i].on == (e.ch[i].on && !(running && !e.engineRunning && e.cfg.roles[i].isStarter))
            && (e'.ch[i].on == e.ch[i].on ==> e'.ch[i] == e.ch[i])
  {
  }
}
