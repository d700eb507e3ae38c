/**
  What the output engine's operations keep, each invariant operation by operation.
  `Apply` interleaves the public operations in any order; a run is a sequence
  of them and `clock` is the latest time any of them has been given.
 */
module OutputSafety {
  import opened Output

  datatype Op =
    | DoSet(c: nat, on: bool, src: Source)
    | DoAlternate(c: nat, src: Source)
    | DoHazard(now: nat)
    | DoTick(now: nat)
    | DoEngine(running: bool)
    | DoInterlock(engaged: bool)
    | DoImmobilize(immobilized: bool)
    | DoCutoff(cutoff: bool)

  function Apply(e: Engine, op: Op): (e': Engine)
    requires e.Valid()
    ensures e'.Valid() && e'.cfg == e.cfg && e'.canDim == e.canDim
  {
    match op
    case DoSet(c, on, src) => Set(e, c, on, src)
    case DoAlternate(c, src) => AlternatePress(e, c, src)
    case DoHazard(now) => HazardPress(e, now)
    case DoTick(now) => Tick(e, now)
    case DoEngine(running) => SetEngineRunning(e, running)
    case DoInterlock(engaged) => e.(interlock := engaged)
    case DoImmobilize(immobilized) => e.(immobilized := immobilized)
    case DoCutoff(cutoff) => e.(lvCutoff := cutoff)
  }

  // ---------- starter protection ----------

  /** No starter is lit by anything but a direct command. */
  ghost predicate StarterOnlyCommanded(cfg: Config) {
    forall i :: 0 <= i < |cfg.roles| && cfg.roles[i].isStarter ==>
      !cfg.roles[i].hazardMember && !cfg.roles[i].onWithIgnition
  }

  ghost predicate NoStarterOn(e: Engine)
    requires e.Valid()
  {
    forall i :: 0 <= i < N && e.cfg.roles[i].isStarter ==> !e.ch[i].on
  }

  ghost predicate StarterSafe(e: Engine)
    requires e.Valid()
  {
    e.engineRunning ==> NoStarterOn(e)
  }

  /** A command moves a starter from off to on only if it is that starter's own
      accepted command. */
  lemma CommandStarter(e: Engine, c: nat, on: bool, i: nat)
    requires e.Valid() && StarterOnlyCommanded(e.cfg) && c < N && i < N
    requires e.cfg.roles[i].isStarter && !e.ch[i].on
    requires i != c || !on
    ensures !Command(e, c, on).ch[i].on
  {
  }

  lemma StarterSafeKept(e: Engine, op: Op)
    requires e.Valid() && StarterOnlyCommanded(e.cfg) && StarterSafe(e)
    ensures StarterSafe(Apply(e, op))
  {
    forall c: nat, on | c < N && !(on && e.cfg.roles[c].isStarter && e.engineRunning)
      ensures StarterSafe(Command(e, c, on))
    {
      forall i | 0 <= i < N && e.cfg.roles[i].isStarter && e.engineRunning
        ensures !Command(e, c, on).ch[i].on
      {
        CommandStarter(e, c, on, i);
      }
    }
  }

  /** No remote command, whatever it is aimed at, cranks a starter. */
  lemma RemoteNeverCranks(e: Engine, c: nat, on: bool, i: nat)
    requires e.Valid() && StarterOnlyCommanded(e.cfg)
    requires i < N && e.cfg.roles[i].isStarter && !e.ch[i].on
    ensures !Set(e, c, on, Remote).ch[i].on
    ensures !AlternatePress(e, c, Remote).ch[i].on
  {
    if c < N && (i != c || !on) { CommandStarter(e, c, on, i); }
    var t := AlternateTarget(e, c);
    if 0 <= t && i != t { CommandStarter(e, t, true, i); }
  }

  // ---------- turn exclusion and the hazards ----------

  /** One left and one right indicator, both or neither in the hazard group,
      neither lit by the key. */
  ghost predicate OneEachSide(cfg: Config, l: nat, r: nat) {
    && |cfg.roles| == N && l < N && r < N
    && (forall i :: 0 <= i < N ==> (cfg.roles[i].indicator == Left <==> i == l))
    && (forall i :: 0 <= i < N ==> (cfg.roles[i].indicator == Right <==> i == r))
    && cfg.roles[l].hazardMember == cfg.roles[r].hazardMember
    && !cfg.roles[l].onWithIgnition && !cfg.roles[r].onWithIgnition
    && AtMostOneIgnition(cfg)
  }

  ghost predicate SidesExclusive(e: Engine, l: nat, r: nat)
    requires e.Valid() && l < N && r < N
  {
    && (e.ch[l].on && e.ch[r].on ==> e.hazards && e.cfg.roles[l].hazardMember)
    && !(e.ch[l].saved && e.ch[r].saved)
  }

  lemma LeaveHazardsSides(e: Engine, c: nat, l: nat, r: nat)
    requires e.Valid() && OneEachSide(e.cfg, l, r) && SidesExclusive(e, l, r) && c < N
    ensures var e1 := LeaveHazards(e, c); !(e1.ch[l].saved && e1.ch[r].saved) && (c != l && c != r ==> SidesExclusive(e1, l, r))
  {
  }

  lemma DropOppositeSides(e: Engine, c: nat, on: bool, l: nat, r: nat)
    requires e.Valid() && OneEachSide(e.cfg, l, r) && c < N
    ensures var e1 := DropOpposite(e, c, on);
            && (on && c == l ==> !e1.ch[r].on) && (on && c == r ==> !e1.ch[l].on)
  {
    assert OppositeOf(e.cfg.roles, l) == r;
    assert OppositeOf(e.cfg.roles, r) == l;
  }

  lemma SidesExclusiveCommand(e: Engine, c: nat, on: bool, l: nat, r: nat)
    requires e.Valid() && OneEachSide(e.cfg, l, r) && SidesExclusive(e, l, r) && c < N
    ensures SidesExclusive(Command(e, c, on), l, r)
  {
    var p := Prepare(e, c, on);
    assert !(p.ch[l].saved && p.ch[r].saved)
        && (c != l && c != r ==> SidesExclusive(p, l, r))
        && (on && c == l ==> !p.ch[r].on) && (on && c == r ==> !p.ch[l].on) by {
      LeaveHazardsSides(e, c, l, r);
      var e1 := LeaveHazards(e, c);
      DropOppositeSides(e1, c, on, l, r);
    }
    SettleSides(e, p, c, on, l, r);
  }

  lemma SettleSides(e: Engine, p: Engine, c: nat, on: bool, l: nat, r: nat)
    requires e.Valid() && p.Valid() && OneEachSide(p.cfg, l, r) && c < N && p == Prepare(e, c, on)
    requires !(p.ch[l].saved && p.ch[r].saved)
    requires c != l && c != r ==> SidesExclusive(p, l, r)
    requires (on && c == l ==> !p.ch[r].on) && (on && c == r ==> !p.ch[l].on)
    ensures SidesExclusive(Command(e, c, on), l, r)
  {
    hide Prepare;
  }

  lemma SidesExclusiveKept(e: Engine, op: Op, l: nat, r: nat)
    requires e.Valid() && OneEachSide(e.cfg, l, r) && SidesExclusive(e, l, r)
    ensures SidesExclusive(Apply(e, op), l, r)
  {
    hide Command;
    match op
    case DoSet(c, on, src) => if c < N { SidesExclusiveCommand(e, c, on, l, r); }
    case DoAlternate(c, src) =>
      var t := AlternateTarget(e, c);
      if 0 <= t { SidesExclusiveCommand(e, t, true, l, r); }
    case DoHazard(now) =>
    case DoTick(now) =>
    case DoEngine(running) =>
    case DoInterlock(engaged) =>
    case DoImmobilize(immobilized) =>
    case DoCutoff(cutoff) =>
  }

  // ---------- alternating pairs ----------

  /** A reciprocal pair that only commands can light. */
  ghost predicate CommandedPair(cfg: Config, a: nat, b: nat) {
    && |cfg.roles| == N && Reciprocal(cfg, a, b)
    && !cfg.roles[a].hazardMember && !cfg.roles[a].onWithIgnition
    && !cfg.roles[b].hazardMember && !cfg.roles[b].onWithIgnition
  }

  ghost predicate NotBoth(e: Engine, a: nat, b: nat)
    requires e.Valid() && a < N && b < N
  {
    !(e.ch[a].on && e.ch[b].on)
  }

  lemma PreparedPair(e: Engine, c: nat, a: nat, b: nat)
    requires e.Valid() && CommandedPair(e.cfg, a, b) && (c == a || c == b)
    ensures !Prepare(e, c, true).ch[if c == a then b else a].on
  {
    var e1 := DropOpposite(LeaveHazards(e, c), c, true);
    assert !DropPartner(e1, c, true).ch[if c == a then b else a].on;
  }

  lemma NotBothCommand(e: Engine, c: nat, on: bool, a: nat, b: nat)
    requires e.Valid() && CommandedPair(e.cfg, a, b) && NotBoth(e, a, b) && c < N
    ensures NotBoth(Command(e, c, on), a, b)
    ensures on && (c == a || c == b) ==> Command(e, c, on).ch[c].on
  {
    hide Command, Settle, Prepare, IgnitionEdge;
    if on && (c == a || c == b) { PreparedPair(e, c, a, b); }
    SettleLights(e, Prepare(e, c, on), c, on);
  }

  /** After `Prepare` only the commanded channel and the key's companions can light,
      and a commanded channel ends up as commanded. */
  lemma SettleLights(e: Engine, p: Engine, c: nat, on: bool)
    requires e.Valid() && p.Valid() && p.cfg == e.cfg && c < N && p == Prepare(e, c, on)
    ensures forall i :: 0 <= i < N && i != c && Command(e, c, on).ch[i].on ==>
              p.ch[i].on || (on && e.cfg.roles[c].isIgnition && e.cfg.roles[i].onWithIgnition)
    ensures Command(e, c, on).ch[c].on == on
  {
    hide Prepare;
  }

  lemma NotBothKept(e: Engine, op: Op, a: nat, b: nat)
    requires e.Valid() && CommandedPair(e.cfg, a, b) && NotBoth(e, a, b)
    ensures NotBoth(Apply(e, op), a, b)
  {
    hide Command;
    match op
    case DoSet(c, on, src) => if c < N { NotBothCommand(e, c, on, a, b); }
    case DoAlternate(c, src) =>
      var t := AlternateTarget(e, c);
      if 0 <= t { NotBothCommand(e, t, true, a, b); }
    case DoHazard(now) =>
    case DoTick(now) =>
    case DoEngine(running) =>
    case DoInterlock(engaged) =>
    case DoImmobilize(immobilized) =>
    case DoCutoff(cutoff) =>
  }

  /** A successful alternate press leaves exactly one of the pair lit, and not
      the one that was lit before; a refused one changes nothing. */
  lemma AlternateLandsOnOne(e: Engine, a: nat, b: nat, src: Source)
    requires e.Valid() && CommandedPair(e.cfg, a, b) && NotBoth(e, a, b)
    ensures var e' := AlternatePress(e, a, src);
            if AlternateRefusal(e, a, src).Ok?
            then e'.ch[a].on == !e.ch[a].on && e'.ch[b].on == !e'.ch[a].on
            else e' == e
  {
    var t := AlternateTarget(e, a);
    NotBothCommand(e, t, true, a, b);
  }

  // ---------- what the hazards give back ----------

  /** While the hazards stay on, the remembered states do not change. */
  lemma SavedFrozen(e: Engine, op: Op)
    requires e.Valid() && e.hazards && Apply(e, op).hazards
    ensures SameSaved(e, Apply(e, op))
  {
  }

  // ---------- no signal outlives its auto-cancel ----------

  ghost predicate Cancels(cfg: Config) {
    && |cfg.roles| == N && cfg.autoCancelMs > 0 && AtMostOneIgnition(cfg)
    && forall i :: 0 <= i < N && cfg.roles[i].indicator != NoSide ==> !cfg.roles[i].onWithIgnition
  }

  /** Channel `i` is an indicator lit on its own account, not by the hazards. */
  ghost predicate Signalling(e: Engine, i: int)
    requires e.Valid()
  {
    0 <= i < N && e.cfg.roles[i].indicator != NoSide && e.ch[i].on && !(e.hazards && e.cfg.roles[i].hazardMember)
  }

  /** An accepted command that switches channel `i` itself on. */
  predicate Commands(e: Engine, op: Op, i: nat)
    requires e.Valid()
  {
    match op
    case DoSet(c, on, src) => c == i && on && Refusal(e, c, on, src).Ok?
    case DoAlternate(c, src) => AlternateTarget(e, c) == i && Refusal(e, i, true, src).Ok?
    case _ => false
  }

  /** The operation arms signal `i`: it is commanded on, or it comes back from the hazards. */
  ghost predicate Arms(e: Engine, op: Op, i: nat)
    requires e.Valid()
  {
    Signalling(Apply(e, op), i) && (!Signalling(e, i) || Commands(e, op, i))
  }

  /** The time an arming counts from: that of a hazard press, else of the latest tick. */
  function ArmTime(e: Engine, op: Op): nat {
    if op.DoHazard? then op.now else e.lastTick
  }

  /** When each signal was last armed, one operation on. */
  ghost function Rearm(e: Engine, op: Op, at: seq<nat>): (at': seq<nat>)
    requires e.Valid() && |at| == N
    ensures |at'| == N
  {
    seq(N, i requires 0 <= i < N => if Arms(e, op, i) then ArmTime(e, op) else at[i])
  }

  /** Every signal expires `autoCancelMs` after its last arming, and the latest tick has not
      reached that time. */
  ghost predicate Armed(e: Engine, clock: nat, at: seq<nat>)
    requires e.Valid()
  {
    && |at| == N && e.lastTick <= clock
    && forall i :: Signalling(e, i) ==> at[i] <= clock && e.lastTick < e.ch[i].deadline == at[i] + e.cfg.autoCancelMs
  }

  /** What a step may do to a signal's deadline: nothing, or set it afresh. */
  ghost predicate Deadlines(e: Engine, e': Engine, c: int)
    requires e.Valid() && e'.Valid()
  {
    forall i :: Signalling(e', i) ==>
      e'.ch[i].deadline == if i == c || !Signalling(e, i) then e.lastTick + e.cfg.autoCancelMs else e.ch[i].deadline
  }

  lemma LeaveHazardsRearms(e: Engine, c: nat)
    requires e.Valid() && Cancels(e.cfg) && c < N
    ensures var e1 := LeaveHazards(e, c);
            forall i :: Signalling(e1, i) && i != c ==>
              e1.ch[i].deadline == if Signalling(e, i) then e.ch[i].deadline else e.lastTick + e.cfg.autoCancelMs
  {
  }

  lemma OppositeKeeps(e: Engine, c: nat, on: bool)
    requires e.Valid() && c < N
    ensures var e1 := DropOpposite(e, c, on);
            forall i :: Signalling(e1, i) ==> Signalling(e, i) && e1.ch[i].deadline == e.ch[i].deadline
  {
  }

  lemma PartnerKeeps(e: Engine, c: nat, on: bool)
    requires e.Valid() && c < N
    ensures var e1 := DropPartner(e, c, on);
            forall i :: Signalling(e1, i) ==> Signalling(e, i) && e1.ch[i].deadline == e.ch[i].deadline
  {
  }

  lemma PrepareRearms(e: Engine, c: nat, on: bool)
    requires e.Valid() && Cancels(e.cfg) && c < N
    ensures var p := Prepare(e, c, on);
            forall i :: Signalling(p, i) && i != c ==>
              p.ch[i].deadline == if Signalling(e, i) then e.ch[i].deadline else e.lastTick + e.cfg.autoCancelMs
  {
    hide DropOpposite, DropPartner, LeaveHazards;
    var e1 := LeaveHazards(e, c);
    LeaveHazardsRearms(e, c);
    OppositeKeeps(e1, c, on);
    PartnerKeeps(DropOpposite(e1, c, on), c, on);
  }

  /** The ignition edge lights no indicator and keeps the timers of those it leaves lit. */
  lemma EdgeKeeps(s: Engine, on: bool)
    requires s.Valid() && Cancels(s.cfg)
    requires !on ==> forall i :: 0 <= i < N && s.cfg.roles[i].isIgnition ==> !s.ch[i].on
    ensures var e1 := IgnitionEdge(s, on);
            forall i :: Signalling(e1, i) ==> Signalling(s, i) && e1.ch[i].deadline == s.ch[i].deadline
  {
  }

  /** A command arms the channel it lights and whatever it brings back from the hazards,
      and touches no other signal's timer. */
  lemma CommandRearms(e: Engine, c: nat, on: bool)
    requires e.Valid() && Cancels(e.cfg) && c < N
    ensures Deadlines(e, Command(e, c, on), c) && (Signalling(Command(e, c, on), c) ==> on)
  {
    hide Prepare, IgnitionEdge;
    var p := Prepare(e, c, on);
    PrepareRearms(e, c, on);
    var s := Settle(p, c, on);
    assert Deadlines(e, s, c) && (s.ch[c].on ==> on);
    if e.cfg.roles[c].isIgnition { EdgeKeeps(s, on); }
  }

  /** The time an operation is given, if any; never before the clock. */
  function ClockAfter(op: Op, clock: nat): nat {
    match op
    case DoHazard(now) => now
    case DoTick(now) => now
    case _ => clock
  }

  /** A signal's deadline moves only when the signal itself is armed. */
  lemma DeadlineMovesOnlyWhenArmed(e: Engine, op: Op, i: nat)
    requires e.Valid() && Cancels(e.cfg) && Signalling(Apply(e, op), i)
    ensures Apply(e, op).ch[i].deadline == if Arms(e, op, i) then ArmTime(e, op) + e.cfg.autoCancelMs else e.ch[i].deadline
  {
    hide Command;
    match op
    case DoSet(c, on, src) => if c < N { CommandRearms(e, c, on); }
    case DoAlternate(c, src) =>
      var t := AlternateTarget(e, c);
      if 0 <= t { CommandRearms(e, t, true); }
    case DoHazard(now) =>
    case DoTick(now) =>
    case DoEngine(running) =>
    case DoInterlock(engaged) =>
    case DoImmobilize(immobilized) =>
    case DoCutoff(cutoff) =>
  }

  lemma ArmedKept(e: Engine, op: Op, clock: nat, at: seq<nat>)
    requires e.Valid() && Cancels(e.cfg) && Armed(e, clock, at) && clock <= ClockAfter(op, clock)
    ensures Armed(Apply(e, op), ClockAfter(op, clock), Rearm(e, op, at))
  {
    var e' := Apply(e, op);
    forall i | Signalling(e', i)
      ensures Rearm(e, op, at)[i] <= ClockAfter(op, clock)
      ensures e'.lastTick < e'.ch[i].deadline == Rearm(e, op, at)[i] + e.cfg.autoCancelMs
    {
      DeadlineMovesOnlyWhenArmed(e, op, i);
      LitBeforeDeadline(e, op, i);
    }
    OnlyTicksTick(e, op);
  }

  lemma OnlyTicksTick(e: Engine, op: Op)
    requires e.Valid()
    ensures Apply(e, op).lastTick == if op.DoTick? then op.now else e.lastTick
  {
    hide Command;
  }

  /** What a tick leaves lit has not reached its deadline. */
  lemma LitBeforeDeadline(e: Engine, op: Op, i: nat)
    requires e.Valid() && Signalling(Apply(e, op), i)
    ensures op.DoTick? ==> Signalling(e, i) && (e.ch[i].deadline == 0 || op.now < e.ch[i].deadline)
  {
    if op.DoTick? { assert Tick(e, op.now).ch[i] == TickChannel(e.cfg.roles[i], e.ch[i], op.now); }
  }

  // ---------- runs ----------

  function Run(e: Engine, ops: seq<Op>): (e': Engine)
    requires e.Valid()
    ensures e'.Valid() && e'.cfg == e.cfg && e'.canDim == e.canDim
    decreases |ops|
  {
    if ops == [] then e else Run(Apply(e, ops[0]), ops[1..])
  }

  /** No operation is given a time before one already seen. */
  ghost predicate Timed(ops: seq<Op>, clock: nat) {
    ops == [] || (clock <= ClockAfter(ops[0], clock) && Timed(ops[1..], ClockAfter(ops[0], clock)))
  }

  function EndClock(ops: seq<Op>, clock: nat): nat {
    if ops == [] then clock else EndClock(ops[1..], ClockAfter(ops[0], clock))
  }

  lemma {:induction false} RunAppend(e: Engine, a: seq<Op>, b: seq<Op>)
    requires e.Valid()
    ensures Run(e, a + b) == Run(Run(e, a), b)
    decreases |a|
  {
    if a == [] {
      assert a + b == b;
    } else {
      assert (a + b)[1..] == a[1..] + b;
      RunAppend(Apply(e, a[0]), a[1..], b);
    }
  }

  lemma {:induction false} RunStarterSafe(e: Engine, ops: seq<Op>)
    requires e.Valid() && StarterOnlyCommanded(e.cfg) && StarterSafe(e)
    ensures StarterSafe(Run(e, ops))
    decreases |ops|
  {
    if ops != [] {
      StarterSafeKept(e, ops[0]);
      RunStarterSafe(Apply(e, ops[0]), ops[1..]);
    }
  }

  lemma {:induction false} RunSidesExclusive(e: Engine, ops: seq<Op>, l: nat, r: nat)
    requires e.Valid() && OneEachSide(e.cfg, l, r) && SidesExclusive(e, l, r)
    ensures SidesExclusive(Run(e, ops), l, r)
    decreases |ops|
  {
    if ops != [] {
      SidesExclusiveKept(e, ops[0], l, r);
      RunSidesExclusive(Apply(e, ops[0]), ops[1..], l, r);
    }
  }

  lemma {:induction false} RunNotBoth(e: Engine, ops: seq<Op>, a: nat, b: nat)
    requires e.Valid() && CommandedPair(e.cfg, a, b) && NotBoth(e, a, b)
    ensures NotBoth(Run(e, ops), a, b)
    decreases |ops|
  {
    if ops != [] {
      NotBothKept(e, ops[0], a, b);
      RunNotBoth(Apply(e, ops[0]), ops[1..], a, b);
    }
  }

  /** When each signal was last armed, over a run. */
  ghost function LastArmed(e: Engine, ops: seq<Op>, at: seq<nat>): (at': seq<nat>)
    requires e.Valid() && |at| == N
    ensures |at'| == N
    decreases |ops|
  {
    if ops == [] then at else LastArmed(Apply(e, ops[0]), ops[1..], Rearm(e, ops[0], at))
  }

  lemma {:induction false} RunArmed(e: Engine, ops: seq<Op>, clock: nat, at: seq<nat>)
    requires e.Valid() && Cancels(e.cfg) && Armed(e, clock, at) && Timed(ops, clock)
    ensures Armed(Run(e, ops), EndClock(ops, clock), LastArmed(e, ops, at))
    decreases |ops|
  {
    hide Apply, Rearm;
    if ops != [] {
      ArmedKept(e, ops[0], clock, at);
      RunArmed(Apply(e, ops[0]), ops[1..], ClockAfter(ops[0], clock), Rearm(e, ops[0], at));
    }
  }

  /** Hazards never stop during `ops`. */
  ghost predicate HazardsThroughout(e: Engine, ops: seq<Op>)
    requires e.Valid()
    decreases |ops|
  {
    e.hazards && (ops != [] ==> HazardsThroughout(Apply(e, ops[0]), ops[1..]))
  }

  lemma {:induction false} RunSavedFrozen(e: Engine, ops: seq<Op>)
    requires e.Valid() && HazardsThroughout(e, ops)
    ensures Run(e, ops).hazards && SameSaved(e, Run(e, ops))
    decreases |ops|
  {
    if ops != [] {
      SavedFrozen(e, ops[0]);
      RunSavedFrozen(Apply(e, ops[0]), ops[1..]);
    }
  }

  /** Start the hazards, do anything that does not end them, press again: every
      member is back where it was before the first press, and a signal that comes
      back is armed afresh. */
  lemma HazardsGiveBack(e: Engine, start: nat, ops: seq<Op>, stop: nat)
    requires e.Valid() && !e.hazards && AnyHazardMember(e.cfg.roles)
    requires HazardsThroughout(HazardPress(e, start), ops)
    ensures var e' := HazardPress(Run(HazardPress(e, start), ops), stop);
            && !e'.hazards
            && (forall i :: 0 <= i < N && e.cfg.roles[i].hazardMember ==> e'.ch[i].on == e.ch[i].on)
            && (forall i :: Signalling(e', i) && e.cfg.roles[i].hazardMember && e.cfg.autoCancelMs > 0 ==>
                  e'.ch[i].deadline == stop + e.cfg.autoCancelMs)
  {
    RunSavedFrozen(HazardPress(e, start), ops);
  }

  /** The operation is a tick at or past the time. */
  predicate TicksPast(op: Op, deadline: nat) {
    op.DoTick? && op.now >= deadline
  }

  ghost predicate TickedAt(ops: seq<Op>, deadline: nat) {
    ops != [] && (TicksPast(ops[0], deadline) || TickedAt(ops[1..], deadline))
  }

  /** Signal `i` is not armed during `ops`. */
  ghost predicate NotRearmed(e: Engine, ops: seq<Op>, i: nat)
    requires e.Valid()
    decreases |ops|
  {
    ops != [] ==> !Arms(e, ops[0], i) && NotRearmed(Apply(e, ops[0]), ops[1..], i)
  }

  lemma {:induction false} TicksPass(e: Engine, ops: seq<Op>, clock: nat, time: nat)
    requires e.Valid() && e.lastTick <= clock && Timed(ops, clock)
    ensures Run(e, ops).lastTick >= e.lastTick && (TickedAt(ops, time) ==> Run(e, ops).lastTick >= time)
    decreases |ops|
  {
    hide Apply;
    if ops != [] {
      OnlyTicksTick(e, ops[0]);
      TicksPass(Apply(e, ops[0]), ops[1..], ClockAfter(ops[0], clock), time);
    }
  }

  lemma {:induction false} LastArmedKept(e: Engine, ops: seq<Op>, at: seq<nat>, i: nat)
    requires e.Valid() && |at| == N && i < N && NotRearmed(e, ops, i)
    ensures LastArmed(e, ops, at)[i] == at[i]
    decreases |ops|
  {
    hide Apply;
    if ops != [] { LastArmedKept(Apply(e, ops[0]), ops[1..], Rearm(e, ops[0], at), i); }
  }

  lemma {:induction false} LastArmedAppend(e: Engine, a: seq<Op>, b: seq<Op>, at: seq<nat>)
    requires e.Valid() && |at| == N
    ensures LastArmed(e, a + b, at) == LastArmed(Run(e, a), b, LastArmed(e, a, at))
    decreases |a|
  {
    hide Apply, Rearm;
    if a == [] {
      assert a + b == b;
    } else {
      assert (a + b)[1..] == a[1..] + b;
      LastArmedAppend(Apply(e, a[0]), a[1..], b, Rearm(e, a[0], at));
    }
  }

  /** At no point of any interleaving is an indicator lit outside the hazards at a tick
      `autoCancelMs` or more after its last arming. */
  lemma NoSignalOutlivesAutoCancel(e: Engine, ops: seq<Op>, clock: nat, at: seq<nat>, i: nat)
    requires e.Valid() && Cancels(e.cfg) && Armed(e, clock, at) && Timed(ops, clock) && i < N
    ensures var e' := Run(e, ops);
            Signalling(e', i) ==>
              e'.ch[i].deadline == LastArmed(e, ops, at)[i] + e.cfg.autoCancelMs && e'.lastTick < e'.ch[i].deadline
  {
    RunArmed(e, ops, clock, at);
  }

  /** So whatever is done to the other channels, a signal not armed again is out after the
      first tick at or past its last arming plus the auto-cancel time. */
  lemma GoneAfterLastArming(e: Engine, ops: seq<Op>, clock: nat, at: seq<nat>, tail: seq<Op>, i: nat)
    requires e.Valid() && Cancels(e.cfg) && Armed(e, clock, at) && Timed(ops, clock) && i < N
    requires Timed(tail, EndClock(ops, clock)) && NotRearmed(Run(e, ops), tail, i)
    requires TickedAt(tail, LastArmed(e, ops, at)[i] + e.cfg.autoCancelMs)
    ensures !Signalling(Run(e, ops + tail), i)
  {
    hide Apply;
    var e1, at1 := Run(e, ops), LastArmed(e, ops, at);
    RunArmed(e, ops, clock, at);
    RunArmed(e1, tail, EndClock(ops, clock), at1);
    LastArmedKept(e1, tail, at1, i);
    TicksPass(e1, tail, EndClock(ops, clock), at1[i] + e.cfg.autoCancelMs);
    RunAppend(e, ops, tail);
  }

  // ---------- and it goes out no sooner ----------

  /** A command to `c` that has nothing to do with signal `i`. */
  predicate SparesCommand(cfg: Config, c: nat, i: nat)
    requires |cfg.roles| == N && i < N
  {
    c < N ==>
      && c != i && !cfg.roles[c].isIgnition && OppositeOf(cfg.roles, c) != i && cfg.roles[c].alternate != i
      && !(cfg.roles[c].hazardMember && cfg.roles[i].hazardMember)
  }

  /** An operation that neither commands signal `i` nor excludes it: the horn, the brake
      light, a beam, hazards it does not belong to. */
  predicate Spares(e: Engine, op: Op, i: nat)
    requires e.Valid() && i < N
  {
    match op
    case DoSet(c, _, _) => SparesCommand(e.cfg, c, i)
    case DoAlternate(c, _) => AlternateTarget(e, c) >= 0 ==> SparesCommand(e.cfg, AlternateTarget(e, c), i)
    case DoHazard(_) => !e.cfg.roles[i].hazardMember
    case _ => true
  }

  ghost predicate AllSpare(e: Engine, ops: seq<Op>, i: nat)
    requires e.Valid() && i < N
    decreases |ops|
  {
    ops != [] ==> Spares(e, ops[0], i) && AllSpare(Apply(e, ops[0]), ops[1..], i)
  }

  lemma CommandSpares(e: Engine, c: nat, on: bool, i: nat)
    requires e.Valid() && c < N && i < N && SparesCommand(e.cfg, c, i)
    ensures Command(e, c, on).ch[i] == e.ch[i]
  {
    hide DropOpposite, DropPartner, LeaveHazards, Settle;
    var e1 := LeaveHazards(e, c);
    assert e1.ch[i] == e.ch[i] by { LeavingSpares(e, c, i); }
    var e2 := DropOpposite(e1, c, on);
    DropsSpare(e1, c, on, i);
    DropsSpare(e2, c, on, i);
    SettleSpares(DropPartner(e2, c, on), c, on, i);
  }

  lemma LeavingSpares(e: Engine, c: nat, i: nat)
    requires e.Valid() && c < N && i < N && SparesCommand(e.cfg, c, i)
    ensures LeaveHazards(e, c).ch[i] == e.ch[i]
  {
  }

  lemma DropsSpare(e: Engine, c: nat, on: bool, i: nat)
    requires e.Valid() && c < N && i < N && SparesCommand(e.cfg, c, i)
    ensures DropOpposite(e, c, on).ch[i] == e.ch[i] && DropPartner(e, c, on).ch[i] == e.ch[i]
  {
  }

  lemma SettleSpares(e: Engine, c: nat, on: bool, i: nat)
    requires e.Valid() && c < N && i < N && i != c
    ensures Settle(e, c, on).ch[i] == e.ch[i]
  {
  }

  lemma SpareStep(e: Engine, op: Op, i: nat)
    requires e.Valid() && i < N && Spares(e, op, i) && !e.cfg.roles[i].isStarter && e.ch[i].on && e.ch[i].deadline > 0
    ensures var c := Apply(e, op).ch[i];
            (c.on <==> !TicksPast(op, e.ch[i].deadline)) && (c.on ==> c.deadline == e.ch[i].deadline)
  {
    hide Command, SparesCommand;
    match op
    case DoSet(c, on, src) => if c < N { CommandSpares(e, c, on, i); }
    case DoAlternate(c, src) =>
      var t := AlternateTarget(e, c);
      if 0 <= t { CommandSpares(e, t, true, i); }
    case DoTick(now) => assert Tick(e, now).ch[i] == TickChannel(e.cfg.roles[i], e.ch[i], now);
    case _ =>
  }

  /** Over any operations that spare it, a lit signal stays lit exactly until the first tick
      at or past its deadline. */
  lemma {:induction false} SignalExpires(e: Engine, ops: seq<Op>, i: nat)
    requires e.Valid() && i < N && AllSpare(e, ops, i) && !e.cfg.roles[i].isStarter && e.ch[i].on && e.ch[i].deadline > 0
    ensures LitThroughout(e, ops, i) <==> !TickedAt(ops, e.ch[i].deadline)
    decreases |ops|
  {
    hide Apply, Spares;
    if ops != [] {
      SpareStep(e, ops[0], i);
      if Apply(e, ops[0]).ch[i].on { SignalExpires(Apply(e, ops[0]), ops[1..], i); }
    }
  }

  /** Channel `i` is commanded on in every state of the run. */
  ghost predicate LitThroughout(e: Engine, ops: seq<Op>, i: nat)
    requires e.Valid() && i < N
    decreases |ops|
  {
    e.ch[i].on && (ops != [] ==> LitThroughout(Apply(e, ops[0]), ops[1..], i))
  }
}
