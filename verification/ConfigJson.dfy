/**
  The configuration as a JSON tree (firmware/components/core/mc_config_json.c): printing,
  the tolerant parse, and the fallbacks for documents of earlier schema versions.
 */
module ConfigJson {
  import O = Output
  import I = Input
  import D = Diag

  const VERSION: nat := 9
  const CHANNELS: nat := 12
  const BUTTONS: nat := 8
  const MAX_COMBOS: nat := 8
  const MAX_COMBO_LEN: nat := 10
  const MAX_ACTIONS: nat := 4
  const NAME_CHARS: nat := 23
  const U8: nat := 0x100
  const U16: nat := 0x1_0000
  const U32: nat := 0x1_0000_0000

  datatype Key =
    | SchemaVersion | DeviceName | Outputs | Inputs | Diagnostics
    | Channels | Name | BehaviourKey | PwmDuty | CommandedOn | Essential | IsIgnition | IsStarter | IsBrake
    | IndicatorKey | HazardMember | OnWithIgnition | AlternateChannel | Function | Mode | Momentary
    | Interlock | BrakeSwitch | AutoCancel | FlashPeriod | PulseCount | PulseOn | PulseOff
    | TimingKey | Debounce | LongPress | DoubleGap | Combos | TypeKey | Buttons | Window | Actions | ActionId
    | ShortActions | LongActions | DoubleActions | Names
    | OpenLoad | Overcurrent | CutoffMv | CutoffHysteresis | RunMv | RunHysteresis | RunByVoltage
    | Other(name: string)

  /** A document. An object is the map its lookups see: the first field of each name. */
  datatype Json =
    | Null
    | Bool(b: bool)
    | Num(x: real)
    | Str(s: string)
    | Arr(items: seq<Json>)
    | Obj(fields: map<Key, Json>)

  datatype Lookup = Missing | Found(v: Json)

  function Get(o: map<Key, Json>, k: Key): Lookup {
    if k in o then Found(o[k]) else Missing
  }

  function Fields(j: Json): map<Key, Json> {
    if j.Obj? then j.fields else map[]
  }

  predicate IsTrue(l: Lookup) {
    l == Found(Bool(true))
  }

  /** The struct the firmware works with. */
  datatype Channel = Channel(title: string, on: bool, role: O.Role)
  datatype Settings = Settings(
    interlock: int, brakeSwitch: int, autoCancelMs: nat, flashPeriodMs: nat,
    pulseCount: nat, pulseOnMs: nat, pulseOffMs: nat)
  datatype Bindings = Bindings(short: seq<seq<nat>>, long: seq<seq<nat>>, double: seq<seq<nat>>, labels: seq<string>)

  datatype Config = Config(
    version: nat,
    deviceName: string,
    channels: seq<Channel>,
    settings: Settings,
    timing: I.Timing,
    combos: seq<I.Def>,
    bindings: Bindings,
    diag: D.DiagConfig)

  // ---------- defaults ----------

  const DEFAULT_CHANNEL: Channel :=
    Channel("", false, O.Role(O.Toggle, 100, false, false, false, false, O.NoSide, false, false, -1))
  const DEFAULT_SETTINGS: Settings := Settings(-1, -1, 30000, 700, 3, 150, 50)
  const DEFAULT_TIMING: I.Timing := I.Timing(20, 600, 350)
  const DEFAULT_THRESHOLD: D.Threshold := D.Threshold(50, 15000)

  function DefaultBindings(): Bindings {
    Bindings(seq(BUTTONS, _ => []), seq(BUTTONS, _ => []), seq(BUTTONS, _ => []), seq(BUTTONS, _ => ""))
  }

  function DefaultDiag(): D.DiagConfig {
    D.DiagConfig(seq(CHANNELS, _ => DEFAULT_THRESHOLD), 11800, 300, 13800, 300, false)
  }

  function DefaultConfig(): Config {
    Config(VERSION, "", seq(CHANNELS, _ => DEFAULT_CHANNEL), DEFAULT_SETTINGS, DEFAULT_TIMING, [], DefaultBindings(), DefaultDiag())
  }

  // ---------- names of enumerators ----------

  function BehaviourName(b: O.Behaviour): string {
    match b
    case Toggle => "toggle"
    case Momentary => "momentary"
    case Blink => "blink"
    case Flasher => "flasher"
  }

  function BehaviourOf(s: string): O.Behaviour {
    if s == "momentary" then O.Momentary
    else if s == "blink" then O.Blink
    else if s == "flasher" then O.Flasher
    else O.Toggle
  }

  function SideName(side: O.Side): string {
    match side
    case Left => "left"
    case Right => "right"
    case NoSide => "none"
  }

  function SideOf(s: string): O.Side {
    if s == "left" then O.Left else if s == "right" then O.Right else O.NoSide
  }

  function KindName(k: I.Kind): string {
    if k.Chord? then "chord" else "sequence"
  }

  function KindOf(s: string): I.Kind {
    if s == "chord" then I.Chord else I.Sequence
  }

  // ---------- numbers ----------

  function Trunc(x: real): int {
    if x >= 0.0 then x.Floor else -((-x).Floor)
  }

  /** C's conversions to an integer type; out-of-range values, which C leaves undefined,
      stick at the nearest end. */
  function Clamp(v: int, low: int, high: int): (r: int)
    requires low <= high
    ensures low <= r <= high && (low <= v <= high ==> r == v)
  {
    if v < low then low else if v > high then high else v
  }

  function ToU32(x: real): (r: nat)
    requires x >= 0.0
    ensures r < U32
  {
    Clamp(x.Floor, 0, U32 - 1)
  }

  function ToAction(x: real): (r: nat)
    requires x >= 0.0
    ensures r < U16
  {
    Clamp(x.Floor, 0, U16 - 1)
  }

  function ToInt(x: real): int {
    Clamp(Trunc(x), -0x8000_0000, 0x7FFF_FFFF)
  }

  function GetUint(o: map<Key, Json>, k: Key, fallback: nat): (r: nat)
    requires fallback < U32
    ensures r < U32
  {
    match Get(o, k)
    case Found(Num(x)) => if x >= 0.0 then ToU32(x) else fallback
    case _ => fallback
  }

  /** strncpy into a fixed field: longer names are cut, not refused. */
  function Cut(s: string): (r: string)
    ensures |r| <= NAME_CHARS && r <= s
  {
    if |s| <= NAME_CHARS then s else s[..NAME_CHARS]
  }

  function GetName(l: Lookup, fallback: string): string {
    match l
    case Found(Str(s)) => Cut(s)
    case _ => fallback
  }

  function Whole(v: int): Json {
    Num(v as real)
  }

  // ---------- action lists ----------

  function PrintList(vs: seq<nat>): Json {
    Arr(seq(|vs|, i requires 0 <= i < |vs| => Whole(vs[i])))
  }

  /** The struct has room for four ids. */
  function PrintActions(vs: seq<nat>): Json {
    PrintList(if |vs| <= MAX_ACTIONS then vs else vs[..MAX_ACTIONS])
  }

  /** The first `room` positive numbers of an array. */
  function UsedActions(items: seq<Json>, room: nat): (r: seq<nat>)
    ensures |r| <= room
  {
    if items == [] || room == 0 then []
    else
      match items[0]
      case Num(x) => if x > 0.0 then [ToAction(x)] + UsedActions(items[1..], room - 1) else UsedActions(items[1..], room)
      case _ => UsedActions(items[1..], room)
  }

  /** An array of ids, or a bare number as a one-entry list (schema version 3). */
  function ParseActions(l: Lookup): (r: seq<nat>)
    ensures |r| <= MAX_ACTIONS
  {
    match l
    case Found(Num(x)) => if x > 0.0 then [ToAction(x)] else []
    case Found(Arr(items)) => UsedActions(items, MAX_ACTIONS)
    case _ => []
  }

  lemma UsedActionsEnd(items: seq<Json>, room: nat)
    requires items == [] || room == 0
    ensures UsedActions(items, room) == []
  {
  }

  lemma UsedActionsAt(items: seq<Json>, i: nat, room: nat)
    requires i < |items| && room > 0
    ensures UsedActions(items[i..], room) ==
            if items[i].Num? && items[i].x > 0.0 then [ToAction(items[i].x)] + UsedActions(items[i + 1..], room - 1)
            else UsedActions(items[i + 1..], room)
  {
    assert items[i..][1..] == items[i + 1..];
  }

  /** parse_action_list's loop. */
  method CollectActions(items: seq<Json>) returns (r: seq<nat>)
    ensures r == UsedActions(items, MAX_ACTIONS)
  {
    hide UsedActions, ToAction;
    r := [];
    var i := 0;
    while i < |items| && |r| < MAX_ACTIONS
      invariant i <= |items| && |r| <= MAX_ACTIONS
      invariant UsedActions(items, MAX_ACTIONS) == r + UsedActions(items[i..], MAX_ACTIONS - |r|)
    {
      UsedActionsAt(items, i, MAX_ACTIONS - |r|);
      if items[i].Num? && items[i].x > 0.0 {
        r := r + [ToAction(items[i].x)];
      }
      i := i + 1;
    }
    UsedActionsEnd(items[i..], MAX_ACTIONS - |r|);
  }

  // ---------- output channels ----------

  function PrintChannel(c: Channel): Json {
    var r := c.role;
    Obj(map[
      Name := Str(c.title),
      BehaviourKey := Str(BehaviourName(r.behaviour)),
      PwmDuty := Whole(r.dutyPct),
      CommandedOn := Bool(c.on),
      Essential := Bool(r.essential),
      IsIgnition := Bool(r.isIgnition),
      IsStarter := Bool(r.isStarter),
      IsBrake := Bool(r.isBrake),
      IndicatorKey := Str(SideName(r.indicator)),
      HazardMember := Bool(r.hazardMember),
      OnWithIgnition := Bool(r.onWithIgnition),
      AlternateChannel := Whole(r.alternate)])
  }

  function LegacyMode(l: Lookup): O.Behaviour {
    match l
    case Found(Str(s)) => if s == "flash_turn" then O.Blink else if s == "flash_brake" then O.Flasher else O.Toggle
    case _ => O.Toggle
  }

  function ParseBehaviour(o: map<Key, Json>): O.Behaviour {
    match Get(o, BehaviourKey)
    case Found(Str(s)) => BehaviourOf(s)
    case _ => if IsTrue(Get(o, Momentary)) then O.Momentary else LegacyMode(Get(o, Mode))
  }

  predicate HasRoles(o: map<Key, Json>) {
    Essential in o || IsIgnition in o || IsStarter in o || IsBrake in o || IndicatorKey in o || HazardMember in o
  }

  /** The role flags of a channel: essential, ignition, starter, brake, side, hazard member. */
  datatype Flags = Flags(essential: bool, ignition: bool, starter: bool, brake: bool, side: O.Side, hazard: bool)

  const NO_FLAGS: Flags := Flags(false, false, false, false, O.NoSide, false)

  /** What the old fixed function of a channel implied. */
  function LegacyFlags(fn: string): Flags {
    if fn == "ignition" then NO_FLAGS.(ignition := true, essential := true)
    else if fn == "brake" then NO_FLAGS.(brake := true, essential := true)
    else if fn == "headlight_hi" || fn == "headlight_lo" then NO_FLAGS.(essential := true)
    else if fn == "turn_l" then NO_FLAGS.(side := O.Left, hazard := true)
    else if fn == "turn_r" then NO_FLAGS.(side := O.Right, hazard := true)
    else if fn == "starter" then NO_FLAGS.(starter := true)
    else NO_FLAGS
  }

  function ParseSide(l: Lookup): O.Side {
    match l
    case Found(Str(s)) => SideOf(s)
    case _ => O.NoSide
  }

  function ParseFlags(o: map<Key, Json>): Flags {
    if HasRoles(o) then
      Flags(IsTrue(Get(o, Essential)), IsTrue(Get(o, IsIgnition)), IsTrue(Get(o, IsStarter)), IsTrue(Get(o, IsBrake)),
            ParseSide(Get(o, IndicatorKey)), IsTrue(Get(o, HazardMember)))
    else
      match Get(o, Function)
      case Found(Str(fn)) => LegacyFlags(fn)
      case _ => NO_FLAGS
  }

  function ParseBool(l: Lookup, fallback: bool): bool {
    match l
    case Found(Bool(b)) => b
    case _ => fallback
  }

  /** A partner out of range, or the channel itself, is no partner. */
  function ParseAlternate(l: Lookup, i: nat): int {
    match l
    case Found(Num(x)) => var v := ToInt(x); if 0 <= v < CHANNELS && v != i then v else -1
    case _ => -1
  }

  function ParseChannel(o: map<Key, Json>, i: nat): Channel {
    var f := ParseFlags(o);
    Channel(
      GetName(Get(o, Name), ""),
      IsTrue(Get(o, CommandedOn)),
      O.Role(ParseBehaviour(o), GetUint(o, PwmDuty, 100) % U8, f.essential, f.ignition, f.starter, f.brake, f.side, f.hazard,
             ParseBool(Get(o, OnWithIgnition), false), ParseAlternate(Get(o, AlternateChannel), i)))
  }

  datatype Result<T> = Ok(value: T) | BadJson | FutureVersion

  function Min(a: nat, b: nat): nat { if a < b then a else b }

  /** The elements the parser looks at must be objects; the rest of the array is ignored. */
  predicate ObjectsUpTo(items: seq<Json>, limit: nat) {
    forall i :: 0 <= i < Min(|items|, limit) ==> items[i].Obj?
  }

  function ParseChannels(l: Lookup): Result<seq<Channel>> {
    match l
    case Found(Arr(items)) =>
      if !ObjectsUpTo(items, CHANNELS) then BadJson
      else Ok(seq(CHANNELS, i requires 0 <= i < CHANNELS =>
                    if i < |items| then ParseChannel(Fields(items[i]), i) else DEFAULT_CHANNEL))
    case _ => Ok(seq(CHANNELS, _ => DEFAULT_CHANNEL))
  }

  /** parse_outputs' channel loop: an element that is not an object stops it. */
  method ReadChannels(items: seq<Json>) returns (r: Result<seq<Channel>>)
    ensures r == ParseChannels(Found(Arr(items)))
  {
    var channels := seq(CHANNELS, _ => DEFAULT_CHANNEL);
    var i := 0;
    while i < |items| && i < CHANNELS
      invariant i <= Min(|items|, CHANNELS) && |channels| == CHANNELS && ObjectsUpTo(items, i)
      invariant forall k :: 0 <= k < i ==> channels[k] == ParseChannel(items[k].fields, k)
      invariant forall k :: i <= k < CHANNELS ==> channels[k] == DEFAULT_CHANNEL
    {
      if !items[i].Obj? { return BadJson; }
      channels := channels[i := ParseChannel(items[i].fields, i)];
      i := i + 1;
    }
    assert channels == ParseChannels(Found(Arr(items))).value;
    r := Ok(channels);
  }

  /** An input number or -1; anything else keeps the default. */
  function ParseInputNumber(l: Lookup): int {
    match l
    case Found(Num(x)) => var v := ToInt(x); if -1 <= v < BUTTONS then v else -1
    case _ => -1
  }

  function ParseSettings(o: map<Key, Json>): Settings {
    Settings(
      ParseInputNumber(Get(o, Interlock)),
      ParseInputNumber(Get(o, BrakeSwitch)),
      GetUint(o, AutoCancel, 30000),
      GetUint(o, FlashPeriod, 700) % U16,
      GetUint(o, PulseCount, 3) % U8,
      GetUint(o, PulseOn, 150) % U16,
      GetUint(o, PulseOff, 50) % U16)
  }

  function PrintOutputs(channels: seq<Channel>, s: Settings): Json {
    Obj(map[
      Channels := Arr(seq(|channels|, i requires 0 <= i < |channels| => PrintChannel(channels[i]))),
      Interlock := Whole(s.interlock),
      BrakeSwitch := Whole(s.brakeSwitch),
      AutoCancel := Whole(s.autoCancelMs),
      FlashPeriod := Whole(s.flashPeriodMs),
      PulseCount := Whole(s.pulseCount),
      PulseOn := Whole(s.pulseOnMs),
      PulseOff := Whole(s.pulseOffMs)])
  }

  // ---------- inputs ----------

  function PrintCombo(c: I.Def): Json {
    Obj(map[
      TypeKey := Str(KindName(c.kind)),
      Buttons := PrintList(c.buttons),
      Window := Whole(c.windowMs),
      Actions := PrintActions(c.actions)])
  }

  /** The first `room` numbers of an array that name a button. */
  function UsedButtons(items: seq<Json>, room: nat): (r: seq<nat>)
    ensures |r| <= room && forall k :: 0 <= k < |r| ==> r[k] < BUTTONS
  {
    if items == [] || room == 0 then []
    else
      match items[0]
      case Num(x) =>
        if 0.0 <= x < BUTTONS as real then [x.Floor] + UsedButtons(items[1..], room - 1) else UsedButtons(items[1..], room)
      case _ => UsedButtons(items[1..], room)
  }

  lemma UsedButtonsEnd(items: seq<Json>, room: nat)
    requires items == [] || room == 0
    ensures UsedButtons(items, room) == []
  {
  }

  lemma UsedButtonsAt(items: seq<Json>, i: nat, room: nat)
    requires i < |items| && room > 0
    ensures UsedButtons(items[i..], room) ==
            if items[i].Num? && 0.0 <= items[i].x < BUTTONS as real then [items[i].x.Floor] + UsedButtons(items[i + 1..], room - 1)
            else UsedButtons(items[i + 1..], room)
  {
    assert items[i..][1..] == items[i + 1..];
  }

  method CollectButtons(items: seq<Json>) returns (r: seq<nat>)
    ensures r == UsedButtons(items, MAX_COMBO_LEN)
  {
    hide UsedButtons;
    r := [];
    var i := 0;
    while i < |items| && |r| < MAX_COMBO_LEN
      invariant i <= |items| && |r| <= MAX_COMBO_LEN
      invariant UsedButtons(items, MAX_COMBO_LEN) == r + UsedButtons(items[i..], MAX_COMBO_LEN - |r|)
    {
      UsedButtonsAt(items, i, MAX_COMBO_LEN - |r|);
      if items[i].Num? && 0.0 <= items[i].x < BUTTONS as real {
        r := r + [items[i].x.Floor];
      }
      i := i + 1;
    }
    UsedButtonsEnd(items[i..], MAX_COMBO_LEN - |r|);
  }

  function ParseButtons(l: Lookup): seq<nat> {
    match l
    case Found(Arr(items)) => UsedButtons(items, MAX_COMBO_LEN)
    case _ => []
  }

  function ParseKind(l: Lookup): I.Kind {
    match l
    case Found(Str(s)) => KindOf(s)
    case _ => I.Sequence
  }

  /** "action_id" is the version 3 spelling of "actions". */
  function ParseCombo(o: map<Key, Json>): I.Def {
    I.Def(ParseKind(Get(o, TypeKey)), ParseButtons(Get(o, Buttons)), GetUint(o, Window, 0),
          ParseActions(if Actions in o then Get(o, Actions) else Get(o, ActionId)))
  }

  function ParseCombos(l: Lookup): Result<seq<I.Def>> {
    match l
    case Found(Arr(items)) =>
      if !ObjectsUpTo(items, MAX_COMBOS) then BadJson
      else Ok(seq(Min(|items|, MAX_COMBOS), i requires 0 <= i < Min(|items|, MAX_COMBOS) =>
                    ParseCombo(Fields(items[i]))))
    case _ => Ok([])
  }

  method ReadCombos(items: seq<Json>) returns (r: Result<seq<I.Def>>)
    ensures r == ParseCombos(Found(Arr(items)))
  {
    var combos := [];
    var i := 0;
    while i < |items| && |combos| < MAX_COMBOS
      invariant i <= Min(|items|, MAX_COMBOS) && |combos| == i && ObjectsUpTo(items, i)
      invariant forall k :: 0 <= k < i ==> combos[k] == ParseCombo(items[k].fields)
    {
      if !items[i].Obj? { return BadJson; }
      combos := combos + [ParseCombo(items[i].fields)];
      i := i + 1;
    }
    assert combos == ParseCombos(Found(Arr(items))).value;
    r := Ok(combos);
  }

  function ParseActionArray(l: Lookup): (r: seq<seq<nat>>)
    ensures |r| == BUTTONS
  {
    match l
    case Found(Arr(items)) => seq(BUTTONS, i requires 0 <= i < BUTTONS => if i < |items| then ParseActions(Found(items[i])) else [])
    case _ => seq(BUTTONS, _ => [])
  }

  function ParseNames(l: Lookup): (r: seq<string>)
    ensures |r| == BUTTONS
  {
    match l
    case Found(Arr(items)) => seq(BUTTONS, i requires 0 <= i < BUTTONS => if i < |items| then GetName(Found(items[i]), "") else "")
    case _ => seq(BUTTONS, _ => "")
  }

  function ParseTiming(l: Lookup): I.Timing {
    match l
    case Found(Obj(o)) => I.Timing(GetUint(o, Debounce, 20), GetUint(o, LongPress, 600), GetUint(o, DoubleGap, 350))
    case _ => DEFAULT_TIMING
  }

  function ParseBindings(o: map<Key, Json>): Bindings {
    Bindings(ParseActionArray(Get(o, ShortActions)), ParseActionArray(Get(o, LongActions)), ParseActionArray(Get(o, DoubleActions)),
             ParseNames(Get(o, Names)))
  }

  function PrintLists(ls: seq<seq<nat>>): Json {
    Arr(seq(|ls|, i requires 0 <= i < |ls| => PrintActions(ls[i])))
  }

  function PrintNames(names: seq<string>): Json {
    Arr(seq(|names|, i requires 0 <= i < |names| => Str(names[i])))
  }

  function PrintCombos(combos: seq<I.Def>): Json {
    Arr(seq(|combos|, i requires 0 <= i < |combos| => PrintCombo(combos[i])))
  }

  function PrintInputs(timing: I.Timing, combos: seq<I.Def>, b: Bindings): Json {
    Obj(map[
      TimingKey := Obj(map[Debounce := Whole(timing.debounceMs), LongPress := Whole(timing.longMs), DoubleGap := Whole(timing.gapMs)]),
      Combos := PrintCombos(combos),
      ShortActions := PrintLists(b.short),
      LongActions := PrintLists(b.long),
      DoubleActions := PrintLists(b.double),
      Names := PrintNames(b.labels)])
  }

  // ---------- diagnostics ----------

  function PrintThreshold(t: D.Threshold): Json {
    Obj(map[OpenLoad := Whole(t.openLoadMa), Overcurrent := Whole(t.overcurrentMa)])
  }

  function PrintThresholds(ts: seq<D.Threshold>): (items: seq<Json>)
    ensures |items| == |ts| && forall i :: 0 <= i < |ts| ==> items[i] == PrintThreshold(ts[i])
  {
    seq(|ts|, i requires 0 <= i < |ts| => PrintThreshold(ts[i]))
  }

  function PrintDiag(d: D.DiagConfig): Json {
    Obj(map[
      Channels := Arr(PrintThresholds(d.thresholds)),
      CutoffMv := Whole(d.cutoffMv),
      CutoffHysteresis := Whole(d.cutoffHysteresisMv),
      RunMv := Whole(d.runMv),
      RunHysteresis := Whole(d.runHysteresisMv),
      RunByVoltage := Bool(d.detectByVoltage)])
  }

  function ParseThreshold(o: map<Key, Json>): D.Threshold {
    D.Threshold(GetUint(o, OpenLoad, 50) % U16, GetUint(o, Overcurrent, 15000) % U16)
  }

  function ParseThresholds(l: Lookup): Result<seq<D.Threshold>> {
    match l
    case Found(Arr(items)) =>
      if !ObjectsUpTo(items, CHANNELS) then BadJson
      else Ok(seq(CHANNELS, i requires 0 <= i < CHANNELS =>
                    if i < |items| then ParseThreshold(Fields(items[i])) else DEFAULT_THRESHOLD))
    case _ => Ok(seq(CHANNELS, _ => DEFAULT_THRESHOLD))
  }

  function ParseDiag(l: Lookup): Result<D.DiagConfig> {
    match l
    case Found(Obj(o)) =>
      (match ParseThresholds(Get(o, Channels))
       case Ok(ts) =>
         Ok(D.DiagConfig(ts, GetUint(o, CutoffMv, 11800) % U16, GetUint(o, CutoffHysteresis, 300) % U16, GetUint(o, RunMv, 13800) % U16,
                         GetUint(o, RunHysteresis, 300) % U16, ParseBool(Get(o, RunByVoltage), false)))
       case _ => BadJson)
    case _ => Ok(DefaultDiag())
  }

  // ---------- the whole document ----------

  function Print(c: Config): Json {
    Obj(map[
      SchemaVersion := Whole(c.version),
      DeviceName := Str(c.deviceName),
      Outputs := PrintOutputs(c.channels, c.settings),
      Inputs := PrintInputs(c.timing, c.combos, c.bindings),
      Diagnostics := PrintDiag(c.diag)])
  }

  /** The sections, each falling back to its defaults when it is not an object. */
  function ParseOutputs(l: Lookup): Result<(seq<Channel>, Settings)> {
    match l
    case Found(Obj(o)) =>
      (match ParseChannels(Get(o, Channels))
       case Ok(cs) => Ok((cs, ParseSettings(o)))
       case _ => BadJson)
    case _ => Ok((seq(CHANNELS, _ => DEFAULT_CHANNEL), DEFAULT_SETTINGS))
  }

  function ParseInputs(l: Lookup): Result<(I.Timing, seq<I.Def>, Bindings)> {
    match l
    case Found(Obj(o)) =>
      (match ParseCombos(Get(o, Combos))
       case Ok(defs) => Ok((ParseTiming(Get(o, TimingKey)), defs, ParseBindings(o)))
       case _ => BadJson)
    case _ => Ok((DEFAULT_TIMING, [], DefaultBindings()))
  }

  predicate TooNew(o: map<Key, Json>) {
    match Get(o, SchemaVersion)
    case Found(Num(x)) => x > VERSION as real
    case _ => false
  }

  function Parse(doc: Json): Result<Config> {
    if !doc.Obj? then BadJson
    else if TooNew(doc.fields) then FutureVersion
    else
      match (ParseOutputs(Get(doc.fields, Outputs)), ParseInputs(Get(doc.fields, Inputs)), ParseDiag(Get(doc.fields, Diagnostics)))
      case (Ok((channels, settings)), Ok((timing, combos, bindings)), Ok(diag)) =>
        Ok(Config(VERSION, GetName(Get(doc.fields, DeviceName), ""), channels, settings, timing, combos, bindings, diag))
      case _ => BadJson
  }
}
