/**
  The twelve-channel output engine (firmware/components/core/mc_output.c).

  `Engine` is the state as a value and the functions below are what each
  operation does to it; `OutputEngine` (OutputEngine.dfy) is the object that
  updates its fields in place and is proved against them. `Level` says what the
  hardware should be told for a channel; the pins themselves belong to the object,
  because no operation reads them.
 */
module Output {

  const N: nat := 12

  datatype Behaviour = Toggle | Momentary | Blink | Flasher
  datatype Side = NoSide | Left | Right
  datatype Source = Local | Remote
  datatype Result = Ok | BadChannel | StarterRemoteBlocked | StarterEngineRunning | StarterInterlock | Immobilized
  datatype Pin = Low | High | Dimmed(pct: nat)

  /** What the rider configured for one channel, its live state left out. */
  datatype Role = Role(
    behaviour: Behaviour,
    dutyPct: nat,
    essential: bool,
    isIgnition: bool,
    isStarter: bool,
    isBrake: bool,
    indicator: Side,
    hazardMember: bool,
    onWithIgnition: bool,
    alternate: int)

  datatype Config = Config(
    roles: seq<Role>,
    interlockInput: int,
    autoCancelMs: nat,
    flashPeriodMs: nat,
    pulseCount: nat,
    pulseOnMs: nat,
    pulseOffMs: nat)

  /** One channel's live state. A `deadline` of 0 means none is pending, and
      `saved` is this channel's bit of the mask remembered when the hazards start. */
  datatype Channel = Channel(on: bool, deadline: nat, burst: nat, saved: bool)

  datatype Engine = Engine(
    cfg: Config,
    canDim: bool,
    engineRunning: bool,
    interlock: bool,
    immobilized: bool,
    lvCutoff: bool,
    lastTick: nat,
    hazards: bool,
    ch: seq<Channel>)
  {
    ghost predicate Valid() {
      |cfg.roles| == N && |ch| == N
    }
  }

  /** The remembered pre-hazard states are the same. */
  ghost predicate SameSaved(e: Engine, e': Engine)
    requires e.Valid() && e'.Valid()
  {
    forall i :: 0 <= i < N ==> e'.ch[i].saved == e.ch[i].saved
  }

  // ---------- queries ----------

  predicate IsEssential(r: Role) {
    r.essential || r.isIgnition || r.isBrake
  }

  /** First channel at or after `k` with the given role, or -1. */
  function FindIgnition(roles: seq<Role>, k: nat := 0): (r: int)
    requires k <= |roles|
    ensures r == -1 || k <= r < |roles|
    ensures r >= 0 ==> roles[r].isIgnition
    ensures forall i :: k <= i < |roles| && (r == -1 || i < r) ==> !roles[i].isIgnition
    decreases |roles| - k
  {
    if k == |roles| then -1
    else if roles[k].isIgnition then k
    else FindIgnition(roles, k + 1)
  }

  function FindIndicator(roles: seq<Role>, side: Side, k: nat := 0): (r: int)
    requires k <= |roles|
    ensures r == -1 || k <= r < |roles|
    ensures r >= 0 ==> side != NoSide && roles[r].indicator == side
    ensures side != NoSide ==> forall i :: k <= i < |roles| && (r == -1 || i < r) ==> roles[i].indicator != side
    decreases |roles| - k
  {
    if side == NoSide || k == |roles| then -1
    else if roles[k].indicator == side then k
    else FindIndicator(roles, side, k + 1)
  }

  function AnyHazardMember(roles: seq<Role>): (b: bool)
    ensures b <==> exists i :: 0 <= i < |roles| && roles[i].hazardMember
  {
    exists i :: 0 <= i < |roles| && roles[i].hazardMember
  }

  /** A lamp that is lit for `half`, dark for `half`, and so on from time 0. */
  predicate BlinkLit(half: nat, now: nat) {
    half == 0 || now < half || !BlinkLit(half, now - half)
  }

  /** `count` pulses of `onMs` lit and `offMs` dark, then solid. */
  predicate BurstLit(count: nat, onMs: nat, offMs: nat, elapsed: nat)
    decreases count
  {
    count == 0 || elapsed < onMs || (elapsed >= onMs + offMs && BurstLit(count - 1, onMs, offMs, elapsed - (onMs + offMs)))
  }

  /** Milliseconds from `since` to `now` on a 32-bit clock. */
  function Elapsed(now: nat, since: nat): nat {
    (now - since) % 0x1_0000_0000
  }

  /** Is a channel driven on at `now`, the low-voltage cutoff aside? */
  predicate DrivenOn(cfg: Config, hazards: bool, r: Role, on: bool, burst: nat, now: nat) {
    && on
    && (if (hazards && r.hazardMember) || r.behaviour.Blink? then BlinkLit(cfg.flashPeriodMs / 2, now)
        else r.behaviour.Flasher? ==> BurstLit(cfg.pulseCount, cfg.pulseOnMs, cfg.pulseOffMs, Elapsed(now, burst)))
  }

  /** What decides a channel's level besides its own role and state. */
  datatype Rig = Rig(cfg: Config, canDim: bool, lvCutoff: bool, hazards: bool)

  predicate ActuallyOn(g: Rig, r: Role, on: bool, burst: nat, now: nat) {
    !(g.lvCutoff && !IsEssential(r)) && DrivenOn(g.cfg, g.hazards, r, on, burst, now)
  }

  /** What the hardware should be told for a channel: the pure driven-state function. */
  function Level(g: Rig, r: Role, on: bool, burst: nat, now: nat): (p: Pin)
    ensures !on ==> p == Low
  {
    if !ActuallyOn(g, r, on, burst, now) then Low
    else if r.dutyPct < 100 && (r.behaviour.Toggle? || r.behaviour.Momentary?) && g.canDim then Dimmed(r.dutyPct)
    else High
  }

  // ---------- one channel, no policy ----------

  /** Raw switch of one channel: stamps a flasher's burst on its off-to-on edge. */
  function RawChannel(r: Role, c: Channel, on: bool, now: nat): Channel {
    c.(on := on, burst := if !c.on && on && r.behaviour.Flasher? then now else c.burst)
  }

  // ---------- group operations, channel by channel ----------

  function EndHazardsChannel(autoCancelMs: nat, r: Role, c: Channel, skip: bool, now: nat): Channel {
    if !r.hazardMember || skip then c
    else
      var c1 := if c.on != c.saved then RawChannel(r, c, c.saved, now) else c;
      c1.(deadline := if c.saved && r.indicator != NoSide && autoCancelMs > 0 then now + autoCancelMs else 0)
  }

  function EndHazards(e: Engine, except: int, now: nat): (e': Engine)
    requires e.Valid()
    ensures e'.Valid() && e' == e.(hazards := false, ch := e'.ch)
    ensures forall i :: 0 <= i < N && e'.ch[i].on ==> e.ch[i].on || (e.hazards && e.cfg.roles[i].hazardMember && e.ch[i].saved)
    ensures SameSaved(e, e')
  {
    if !e.hazards then e
    else
      var e1 := e.(hazards := false);
      e1.(ch := seq(N, i requires 0 <= i < N => EndHazardsChannel(e.cfg.autoCancelMs, e.cfg.roles[i], e.ch[i], i == except, now)))
  }

  function StartHazardsChannel(r: Role, c: Channel, now: nat): Channel {
    if !r.hazardMember then c.(saved := false)
    else RawChannel(r, c, true, now).(saved := c.on, deadline := 0)
  }

  /** The hazard control: a second press while they run ends them, otherwise
      the group's state is remembered and every member is switched on. */
  function HazardPress(e: Engine, now: nat): (e': Engine)
    requires e.Valid()
    ensures e'.Valid() && e' == e.(hazards := e'.hazards, ch := e'.ch)
  {
    if !AnyHazardMember(e.cfg.roles) then e
    else if e.hazards then EndHazards(e, -1, now)
    else e.(hazards := true,
            ch := seq(N, i requires 0 <= i < N => StartHazardsChannel(e.cfg.roles[i], e.ch[i], now)))
  }

  function IgnitionOnChannel(r: Role, c: Channel, now: nat): Channel {
    if !r.onWithIgnition || r.isIgnition || c.on then c
    else RawChannel(r, c, true, now).(deadline := 0)
  }

  function IgnitionOn(e: Engine, now: nat): (e': Engine)
    requires e.Valid()
    ensures e'.Valid() && e' == e.(ch := e'.ch)
    ensures SameSaved(e, e')
  {
    e.(ch := seq(N, i requires 0 <= i < N => IgnitionOnChannel(e.cfg.roles[i], e.ch[i], now)))
  }

  function IgnitionOffChannel(r: Role, c: Channel, now: nat): Channel {
    if r.isIgnition then c
    else (if c.on then RawChannel(r, c, false, now) else c).(deadline := 0)
  }

  function IgnitionOff(e: Engine, now: nat): (e': Engine)
    requires e.Valid()
    ensures e'.Valid() && e' == e.(hazards := false, ch := e'.ch)
    ensures SameSaved(e, e')
  {
    var e1 := e.(hazards := false);
    e1.(ch := seq(N, i requires 0 <= i < N => IgnitionOffChannel(e.cfg.roles[i], e.ch[i], now)))
  }

  // ---------- commands ----------

  function StarterCheck(src: Source, engineRunning: bool, interlockInput: int, interlock: bool): Result {
    if src.Remote? then StarterRemoteBlocked
    else if engineRunning then StarterEngineRunning
    else if interlockInput >= 0 && !interlock then StarterInterlock
    else Ok
  }

  function Opposite(s: Side): Side {
    if s.Left? then Right else Left
  }

  /** Why a command is refused, or Ok. */
  function Refusal(e: Engine, c: nat, on: bool, src: Source): Result
    requires e.Valid()
  {
    if c >= N then BadChannel
    else if on && e.immobilized then Immobilized
    else if on && e.cfg.roles[c].isStarter then StarterCheck(src, e.engineRunning, e.cfg.interlockInput, e.interlock)
    else Ok
  }

  /** A deliberate command to a hazard member ends the hazards; the commanded
      channel itself is left for the caller to set. */
  function LeaveHazards(e: Engine, c: nat): (e': Engine)
    requires e.Valid() && c < N
    ensures e'.Valid() && e' == e.(hazards := e'.hazards, ch := e'.ch)
    ensures forall i :: 0 <= i < N && e'.ch[i].on ==> e.ch[i].on || RestoredByHazards(e, i)
    ensures SameSaved(e, e')
  {
    if e.cfg.roles[c].hazardMember then EndHazards(e, c, e.lastTick) else e
  }

  ghost predicate RestoredByHazards(e: Engine, i: int)
    requires e.Valid() && 0 <= i < N
  {
    e.hazards && e.cfg.roles[i].hazardMember && e.ch[i].saved
  }

  /** The channel turn exclusion puts out when `c` is lit, or -1: the first one
      of the other side. */
  function OppositeOf(roles: seq<Role>, c: nat): (o: int)
    requires c < |roles|
    ensures o == -1 || (0 <= o < |roles| && o != c)
  {
    if roles[c].indicator == NoSide then -1
    else
      var o := FindIndicator(roles, Opposite(roles[c].indicator));
      if o == c then -1 else o
  }

  function DropOpposite(e: Engine, c: nat, on: bool): (e': Engine)
    requires e.Valid() && c < N
    ensures e'.Valid() && e' == e.(ch := e'.ch)
    ensures forall i :: 0 <= i < N && e'.ch[i].on ==> e.ch[i].on
    ensures SameSaved(e, e')
  {
    var o := OppositeOf(e.cfg.roles, c);
    if on && o >= 0 && e.ch[o].on
    then e.(ch := e.ch[o := RawChannel(e.cfg.roles[o], e.ch[o], false, e.lastTick).(deadline := 0)])
    else e
  }

  predicate IsPartner(roles: seq<Role>, c: int, p: int) {
    0 <= c < |roles| && 0 <= p < N && p != c && roles[c].alternate == p
  }

  /** Pair exclusion: lighting one member puts the other out. */
  function DropPartner(e: Engine, c: nat, on: bool): (e': Engine)
    requires e.Valid() && c < N
    ensures e'.Valid() && e' == e.(ch := e'.ch)
    ensures forall i :: 0 <= i < N && e'.ch[i].on ==> e.ch[i].on
    ensures SameSaved(e, e')
  {
    var p := e.cfg.roles[c].alternate;
    if on && IsPartner(e.cfg.roles, c, p) && e.ch[p].on
    then e.(ch := e.ch[p := RawChannel(e.cfg.roles[p], e.ch[p], false, e.lastTick)])
    else e
  }

  /** The commanded channel and its auto-cancel timer. */
  function SettledChannel(autoCancelMs: nat, r: Role, c: Channel, on: bool, now: nat): Channel {
    var c1 := RawChannel(r, c, on, now);
    if r.indicator == NoSide then c1
    else c1.(deadline := if on && autoCancelMs > 0 then now + autoCancelMs else 0)
  }

  function Settle(e: Engine, c: nat, on: bool): (e': Engine)
    requires e.Valid() && c < N
    ensures e'.Valid() && e' == e.(ch := e'.ch)
    ensures SameSaved(e, e')
  {
    e.(ch := e.ch[c := SettledChannel(e.cfg.autoCancelMs, e.cfg.roles[c], e.ch[c], on, e.lastTick)])
  }

  /** The ignition edge, once the ignition channel itself has settled. */
  function IgnitionEdge(e: Engine, on: bool): (e': Engine)
    requires e.Valid()
    ensures e'.Valid() && e' == e.(hazards := e'.hazards, ch := e'.ch)
    ensures forall i :: 0 <= i < N && e'.ch[i].on ==> e.ch[i].on || (on && e.cfg.roles[i].onWithIgnition)
    ensures SameSaved(e, e')
  {
    if on then IgnitionOn(e, e.lastTick) else IgnitionOff(e, e.lastTick)
  }

  /** Everything before the commanded channel is set. */
  function Prepare(e: Engine, c: nat, on: bool): (e': Engine)
    requires e.Valid() && c < N
    ensures e'.Valid() && e' == e.(hazards := e'.hazards, ch := e'.ch)
    ensures forall i :: 0 <= i < N && e'.ch[i].on ==> e.ch[i].on || RestoredByHazards(e, i)
    ensures SameSaved(e, e')
  {
    DropPartner(DropOpposite(LeaveHazards(e, c), c, on), c, on)
  }

  /** An accepted command, in the order the engine applies it. */
  function Command(e: Engine, c: nat, on: bool): (e': Engine)
    requires e.Valid() && c < N
    ensures e'.Valid() && e' == e.(hazards := e'.hazards, ch := e'.ch)
    ensures forall i :: 0 <= i < N && e'.ch[i].on ==>
              || (if i == c then on else e.ch[i].on || RestoredByHazards(e, i))
              || (on && e.cfg.roles[c].isIgnition && e.cfg.roles[i].onWithIgnition)
    ensures SameSaved(e, e')
  {
    var e1 := Prepare(e, c, on);
    var e2 := Settle(e1, c, on);
    if e.cfg.roles[c].isIgnition && e1.ch[c].on != on then IgnitionEdge(e2, on) else e2
  }

  function Set(e: Engine, c: nat, on: bool, src: Source): (e': Engine)
    requires e.Valid()
    ensures e'.Valid() && e' == e.(hazards := e'.hazards, ch := e'.ch)
  {
    if Refusal(e, c, on, src).Ok? then Command(e, c, on) else e
  }

  /** Which channel an alternate press lights, if the pair exists. */
  function AlternateTarget(e: Engine, c: nat): (t: int)
    requires e.Valid()
    ensures t == -1 || 0 <= t < N
  {
    if c >= N then -1
    else
      var p := e.cfg.roles[c].alternate;
      if !IsPartner(e.cfg.roles, c, p) then -1
      else if e.ch[c].on then p else c
  }

  function AlternateRefusal(e: Engine, c: nat, src: Source): Result
    requires e.Valid()
  {
    var t := AlternateTarget(e, c);
    if t < 0 then BadChannel else Refusal(e, t, true, src)
  }

  function AlternatePress(e: Engine, c: nat, src: Source): (e': Engine)
    requires e.Valid()
    ensures e'.Valid() && e' == e.(hazards := e'.hazards, ch := e'.ch)
  {
    var t := AlternateTarget(e, c);
    if t < 0 then e else Set(e, t, true, src)
  }

  function TickChannel(r: Role, c: Channel, now: nat): Channel {
    if c.deadline != 0 && now >= c.deadline then RawChannel(r, c.(deadline := 0), false, now) else c
  }

  function Tick(e: Engine, now: nat): (e': Engine)
    requires e.Valid()
    ensures e'.Valid() && e' == e.(lastTick := now, ch := e'.ch)
  {
    var e1 := e.(lastTick := now);
    e1.(ch := seq(N, i requires 0 <= i < N => TickChannel(e.cfg.roles[i], e.ch[i], now)))
  }

  /** Starter protection on the engine's off-to-running edge. */
  function SetEngineRunning(e: Engine, running: bool): (e': Engine)
    requires e.Valid()
    ensures e'.Valid() && e' == e.(engineRunning := running, ch := e'.ch)
  {
    var e1 := e.(engineRunning := running);
    if !running || e.engineRunning then e1
    else e1.(ch := seq(N, i requires 0 <= i < N =>
                         if e.cfg.roles[i].isStarter && e.ch[i].on
                         then RawChannel(e.cfg.roles[i], e.ch[i], false, e.lastTick) else e.ch[i]))
  }


  /** A committed config import: new roles, live commanded state kept, pins untouched. */
  function ImportConfig(e: Engine, cfg: Config): (e': Engine)
    requires e.Valid() && |cfg.roles| == N
    ensures e'.Valid() && e' == e.(cfg := cfg)
  {
    e.(cfg := cfg)
  }

  /** Boot: the persisted commanded states over zeroed flags and timers. */
  function Boot(cfg: Config, canDim: bool, image: seq<bool>): (e: Engine)
    requires |cfg.roles| == N && |image| == N
    ensures e.Valid()
  {
    Engine(cfg, canDim, false, false, false, false, 0, false,
           seq(N, i requires 0 <= i < N => Channel(image[i], 0, 0, false)))
  }

  // ---------- configuration checks ----------

  ghost predicate AtMostOneIgnition(cfg: Config) {
    forall i, j :: 0 <= i < |cfg.roles| && 0 <= j < |cfg.roles| && cfg.roles[i].isIgnition && cfg.roles[j].isIgnition ==> i == j
  }

  ghost predicate Reciprocal(cfg: Config, a: int, b: int) {
    IsPartner(cfg.roles, a, b) && IsPartner(cfg.roles, b, a)
  }
}
