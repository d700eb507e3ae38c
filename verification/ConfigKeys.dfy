/**
  Which field each key of the configuration document reaches (firmware/components/core/
  mc_config_json.c): writing a value under a key changes that field to that value and no other,
  whatever else the document says. Numbers outside a field's width are the business of ConfigLaws.
 */
module ConfigKeys {
  import opened ConfigJson
  import O = Output
  import I = Input
  import D = Diag

  /** The two objects say the same but under one key, and there the second says `v`. */
  ghost predicate Rewrites(o: map<Key, Json>, o': map<Key, Json>, k: Key, v: Json) {
    Get(o', k) == Found(v) && forall k' :: k' != k ==> Get(o', k') == Get(o, k')
  }

  lemma UpdateRewrites(o: map<Key, Json>, k: Key, v: Json)
    ensures Rewrites(o, o[k := v], k, v)
  {
  }

  // What the other keys still say, section by section.

  lemma OtherFlagKeys(o: map<Key, Json>, o': map<Key, Json>, k: Key, v: Json)
    requires Rewrites(o, o', k, v)
    ensures Get(o', k) == Found(v)
    ensures (k != Essential ==> Get(o', Essential) == Get(o, Essential)) && (k != IsIgnition ==> Get(o', IsIgnition) == Get(o, IsIgnition))
    ensures (k != IsStarter ==> Get(o', IsStarter) == Get(o, IsStarter)) && (k != IsBrake ==> Get(o', IsBrake) == Get(o, IsBrake))
    ensures (k != IndicatorKey ==> Get(o', IndicatorKey) == Get(o, IndicatorKey)) && (k != HazardMember ==> Get(o', HazardMember) == Get(o, HazardMember))
    ensures (k != Function ==> Get(o', Function) == Get(o, Function))
  {
    hide Get;
  }

  lemma OtherPlainKeys(o: map<Key, Json>, o': map<Key, Json>, k: Key, v: Json)
    requires Rewrites(o, o', k, v)
    ensures Get(o', k) == Found(v)
    ensures (k != Name ==> Get(o', Name) == Get(o, Name)) && (k != BehaviourKey ==> Get(o', BehaviourKey) == Get(o, BehaviourKey))
    ensures (k != PwmDuty ==> Get(o', PwmDuty) == Get(o, PwmDuty)) && (k != CommandedOn ==> Get(o', CommandedOn) == Get(o, CommandedOn))
    ensures (k != OnWithIgnition ==> Get(o', OnWithIgnition) == Get(o, OnWithIgnition))
        && (k != AlternateChannel ==> Get(o', AlternateChannel) == Get(o, AlternateChannel))
    ensures (k != Mode ==> Get(o', Mode) == Get(o, Mode)) && (k != Momentary ==> Get(o', Momentary) == Get(o, Momentary))
  {
    hide Get;
  }

  lemma FlagKeysStay(o: map<Key, Json>, o': map<Key, Json>, k: Key, v: Json)
    requires Rewrites(o, o', k, v) && k !in [Essential, IsIgnition, IsStarter, IsBrake, IndicatorKey, HazardMember, Function]
    ensures SameFlagKeys(o, o')
  {
    hide Get, Rewrites;
    OtherFlagKeys(o, o', k, v);
  }

  lemma OtherSettingKeys(o: map<Key, Json>, o': map<Key, Json>, k: Key, v: Json)
    requires Rewrites(o, o', k, v)
    ensures Get(o', k) == Found(v)
    ensures (k != Interlock ==> Get(o', Interlock) == Get(o, Interlock)) && (k != BrakeSwitch ==> Get(o', BrakeSwitch) == Get(o, BrakeSwitch))
    ensures (k != AutoCancel ==> Get(o', AutoCancel) == Get(o, AutoCancel)) && (k != FlashPeriod ==> Get(o', FlashPeriod) == Get(o, FlashPeriod))
    ensures (k != PulseCount ==> Get(o', PulseCount) == Get(o, PulseCount)) && (k != PulseOn ==> Get(o', PulseOn) == Get(o, PulseOn))
    ensures (k != PulseOff ==> Get(o', PulseOff) == Get(o, PulseOff))
  {
    hide Get;
  }

  lemma OtherDiagKeys(o: map<Key, Json>, o': map<Key, Json>, k: Key, v: Json)
    requires Rewrites(o, o', k, v)
    ensures Get(o', k) == Found(v)
    ensures (k != Channels ==> Get(o', Channels) == Get(o, Channels)) && (k != CutoffMv ==> Get(o', CutoffMv) == Get(o, CutoffMv))
    ensures (k != CutoffHysteresis ==> Get(o', CutoffHysteresis) == Get(o, CutoffHysteresis)) && (k != RunMv ==> Get(o', RunMv) == Get(o, RunMv))
    ensures (k != RunHysteresis ==> Get(o', RunHysteresis) == Get(o, RunHysteresis)) && (k != RunByVoltage ==> Get(o', RunByVoltage) == Get(o, RunByVoltage))
  {
    hide Get;
  }

  lemma SameNumber(o: map<Key, Json>, o': map<Key, Json>, k: Key, fallback: nat)
    requires Get(o, k) == Get(o', k) && fallback < U32
    ensures GetUint(o, k, fallback) == GetUint(o', k, fallback)
  {
  }

  lemma WrittenNumber(o: map<Key, Json>, k: Key, n: nat, fallback: nat)
    requires Get(o, k) == Found(Num(n as real)) && n < U32 && fallback < U32
    ensures GetUint(o, k, fallback) == n
  {
    assert (n as real).Floor == n;
  }

  // ---------- an output channel ----------

  lemma SameBehaviour(o: map<Key, Json>, o': map<Key, Json>)
    requires Get(o, BehaviourKey) == Get(o', BehaviourKey) && Get(o, Momentary) == Get(o', Momentary) && Get(o, Mode) == Get(o', Mode)
    ensures ParseBehaviour(o) == ParseBehaviour(o')
  {
  }

  /** What the flags are read from. */
  ghost predicate SameFlagKeys(o: map<Key, Json>, o': map<Key, Json>) {
    && Get(o, Essential) == Get(o', Essential) && Get(o, IsIgnition) == Get(o', IsIgnition) && Get(o, IsStarter) == Get(o', IsStarter)
    && Get(o, IsBrake) == Get(o', IsBrake) && Get(o, IndicatorKey) == Get(o', IndicatorKey) && Get(o, HazardMember) == Get(o', HazardMember)
    && Get(o, Function) == Get(o', Function)
  }

  lemma SameFlags(o: map<Key, Json>, o': map<Key, Json>)
    requires SameFlagKeys(o, o')
    ensures ParseFlags(o) == ParseFlags(o')
  {
    assert HasRoles(o) == HasRoles(o');
  }

  /** The role with the yes-or-no property of this key set. */
  function WithFlag(f: Flags, k: Key, x: bool): Flags {
    match k
    case Essential => f.(essential := x)
    case IsIgnition => f.(ignition := x)
    case IsStarter => f.(starter := x)
    case IsBrake => f.(brake := x)
    case HazardMember => f.(hazard := x)
    case _ => f
  }

  /** A channel that takes these flags over. */
  function WithFlags(c: Channel, f: Flags): Channel {
    c.(role := c.role.(essential := f.essential, isIgnition := f.ignition, isStarter := f.starter, isBrake := f.brake,
                       indicator := f.side, hazardMember := f.hazard))
  }

  lemma ChannelFlags(o: map<Key, Json>, o': map<Key, Json>, k: Key, v: Json, i: nat)
    requires Rewrites(o, o', k, v)
    requires k !in [Name, BehaviourKey, PwmDuty, CommandedOn, OnWithIgnition, AlternateChannel, Mode, Momentary]
    ensures ParseChannel(o', i) == WithFlags(ParseChannel(o, i), ParseFlags(o'))
  {
    hide GetName, GetUint, ParseBehaviour, ParseAlternate, ParseFlags, Rewrites;
    OtherPlainKeys(o, o', k, v);
    SameBehaviour(o, o');
    SameNumber(o, o', PwmDuty, 100);
  }

  /** Five keys of a channel say yes or no to one property each. */
  lemma FlagKey(o: map<Key, Json>, o': map<Key, Json>, i: nat, k: Key, x: bool)
    requires HasRoles(o) && Rewrites(o, o', k, Bool(x)) && k in [Essential, IsIgnition, IsStarter, IsBrake, HazardMember]
    ensures ParseChannel(o', i) == WithFlags(ParseChannel(o, i), WithFlag(ParseFlags(o), k, x))
    ensures WithFlags(ParseChannel(o, i), ParseFlags(o)) == ParseChannel(o, i)
  {
    hide ParseChannel, ParseSide;
    ChannelFlags(o, o', k, Bool(x), i);
    FlagsOf(o, i);
    RolesStay(o, o', k, Bool(x));
    assert ParseFlags(o') == WithFlag(ParseFlags(o), k, x) by { hide WithFlags; FlagReads(o, o', k, x); }
  }

  lemma FlagsOf(o: map<Key, Json>, i: nat)
    ensures WithFlags(ParseChannel(o, i), ParseFlags(o)) == ParseChannel(o, i)
  {
  }

  lemma RolesStay(o: map<Key, Json>, o': map<Key, Json>, k: Key, v: Json)
    requires HasRoles(o) && Rewrites(o, o', k, v)
    ensures HasRoles(o')
  {
    forall k' | k' in o ensures k' in o' { assert Get(o, k').Found?; assert Get(o', k').Found?; }
  }

  lemma FlagReads(o: map<Key, Json>, o': map<Key, Json>, k: Key, x: bool)
    requires HasRoles(o) && HasRoles(o') && Rewrites(o, o', k, Bool(x)) && k in [Essential, IsIgnition, IsStarter, IsBrake, HazardMember]
    ensures ParseFlags(o') == WithFlag(ParseFlags(o), k, x)
  {
    hide HasRoles, ParseSide, Get, Rewrites;
    OtherFlagKeys(o, o', k, Bool(x));
  }

  /** The side a turn signal is on. */
  lemma SideKey(o: map<Key, Json>, o': map<Key, Json>, i: nat, name: string)
    requires HasRoles(o) && Rewrites(o, o', IndicatorKey, Str(name))
    ensures var c := ParseChannel(o, i);
            ParseChannel(o', i) ==
            c.(role := c.role.(indicator := if name == "left" then O.Left else if name == "right" then O.Right else O.NoSide))
  {
    hide ParseChannel, HasRoles, Get;
    ChannelFlags(o, o', IndicatorKey, Str(name), i);
    FlagsOf(o, i);
    RolesStay(o, o', IndicatorKey, Str(name));
    assert ParseFlags(o') == ParseFlags(o).(side := SideOf(name));
  }

  lemma CommandedKey(o: map<Key, Json>, o': map<Key, Json>, i: nat, x: bool)
    requires Rewrites(o, o', CommandedOn, Bool(x))
    ensures ParseChannel(o', i) == ParseChannel(o, i).(on := x)
  {
    hide GetName, GetUint, ParseBehaviour, ParseAlternate, ParseFlags, Get, Rewrites;
    OtherPlainKeys(o, o', CommandedOn, Bool(x));
    FlagKeysStay(o, o', CommandedOn, Bool(x));
    SameBehaviour(o, o');
    SameFlags(o, o');
    SameNumber(o, o', PwmDuty, 100);
  }

  lemma FollowsIgnitionKey(o: map<Key, Json>, o': map<Key, Json>, i: nat, x: bool)
    requires Rewrites(o, o', OnWithIgnition, Bool(x))
    ensures var c := ParseChannel(o, i); ParseChannel(o', i) == c.(role := c.role.(onWithIgnition := x))
  {
    hide GetName, GetUint, ParseBehaviour, ParseAlternate, ParseFlags, Get, Rewrites;
    OtherPlainKeys(o, o', OnWithIgnition, Bool(x));
    FlagKeysStay(o, o', OnWithIgnition, Bool(x));
    SameBehaviour(o, o');
    SameFlags(o, o');
    SameNumber(o, o', PwmDuty, 100);
  }

  lemma DutyKey(o: map<Key, Json>, o': map<Key, Json>, i: nat, n: nat)
    requires n < 0x100 && Rewrites(o, o', PwmDuty, Num(n as real))
    ensures var c := ParseChannel(o, i); ParseChannel(o', i) == c.(role := c.role.(dutyPct := n))
  {
    hide GetName, GetUint, ParseBehaviour, ParseAlternate, ParseFlags, Get, Rewrites;
    OtherPlainKeys(o, o', PwmDuty, Num(n as real));
    FlagKeysStay(o, o', PwmDuty, Num(n as real));
    SameBehaviour(o, o');
    SameFlags(o, o');
    WrittenNumber(o', PwmDuty, n, 100);
  }

  lemma NameKey(o: map<Key, Json>, o': map<Key, Json>, i: nat, title: string)
    requires |title| <= 23 && Rewrites(o, o', Name, Str(title))
    ensures ParseChannel(o', i) == ParseChannel(o, i).(title := title)
  {
    hide GetUint, ParseBehaviour, ParseAlternate, ParseFlags, Get, Rewrites;
    OtherPlainKeys(o, o', Name, Str(title));
    FlagKeysStay(o, o', Name, Str(title));
    SameBehaviour(o, o');
    SameFlags(o, o');
    SameNumber(o, o', PwmDuty, 100);
  }

  /** A partner is another of the twelve channels, or none. */
  lemma PartnerKey(o: map<Key, Json>, o': map<Key, Json>, i: nat, p: nat)
    requires Rewrites(o, o', AlternateChannel, Num(p as real))
    ensures var c := ParseChannel(o, i);
            ParseChannel(o', i) == c.(role := c.role.(alternate := if p < 12 && p != i then p else -1))
  {
    hide GetName, GetUint, ParseBehaviour, ParseFlags, Get, ParseAlternate, Rewrites;
    OtherPlainKeys(o, o', AlternateChannel, Num(p as real));
    FlagKeysStay(o, o', AlternateChannel, Num(p as real));
    SameBehaviour(o, o');
    SameFlags(o, o');
    SameNumber(o, o', PwmDuty, 100);
    PartnerNumber(p, i);
  }

  lemma PartnerNumber(p: nat, i: nat)
    ensures ParseAlternate(Found(Num(p as real)), i) == if p < 12 && p != i then p else -1
  {
    assert (p as real).Floor == p;
  }

  lemma BehaviourKeyReaches(o: map<Key, Json>, o': map<Key, Json>, i: nat, name: string)
    requires Rewrites(o, o', BehaviourKey, Str(name))
    ensures var c := ParseChannel(o, i);
            ParseChannel(o', i) ==
            c.(role := c.role.(behaviour := if name == "momentary" then O.Momentary else if name == "blink" then O.Blink
                                            else if name == "flasher" then O.Flasher else O.Toggle))
  {
    hide GetName, GetUint, ParseAlternate, ParseFlags, Get, Rewrites;
    OtherPlainKeys(o, o', BehaviourKey, Str(name));
    FlagKeysStay(o, o', BehaviourKey, Str(name));
    SameFlags(o, o');
    SameNumber(o, o', PwmDuty, 100);
  }

  /** A document from before there were roles: what the old function names meant. */
  lemma OldFunctions(o: map<Key, Json>, i: nat, fn: string)
    requires !HasRoles(o)
    ensures var r := ParseChannel(o[Function := Str(fn)], i).role;
            && (r.isIgnition <==> fn == "ignition") && (r.isBrake <==> fn == "brake") && (r.isStarter <==> fn == "starter")
            && r.indicator == (if fn == "turn_l" then O.Left else if fn == "turn_r" then O.Right else O.NoSide)
            && (r.hazardMember <==> fn == "turn_l" || fn == "turn_r")
            && (r.essential <==> fn == "ignition" || fn == "brake" || fn == "headlight_hi" || fn == "headlight_lo")
  {
  }

  lemma OldModes(o: map<Key, Json>, i: nat)
    requires BehaviourKey !in o && Momentary !in o
    ensures ParseChannel(o[Mode := Str("flash_turn")], i).role.behaviour == O.Blink
    ensures ParseChannel(o[Mode := Str("flash_brake")], i).role.behaviour == O.Flasher
    ensures ParseChannel(o[Momentary := Bool(true)], i).role.behaviour == O.Momentary
  {
  }

  // ---------- the outputs as a whole ----------

  lemma SameNumbers(o: map<Key, Json>, o': map<Key, Json>, k: Key, n: nat)
    requires Rewrites(o, o', k, Num(n as real)) && n < U32
    ensures GetUint(o', AutoCancel, 30000) == if k == AutoCancel then n else GetUint(o, AutoCancel, 30000)
    ensures GetUint(o', FlashPeriod, 700) == if k == FlashPeriod then n else GetUint(o, FlashPeriod, 700)
    ensures GetUint(o', PulseCount, 3) == if k == PulseCount then n else GetUint(o, PulseCount, 3)
    ensures GetUint(o', PulseOn, 150) == if k == PulseOn then n else GetUint(o, PulseOn, 150)
    ensures GetUint(o', PulseOff, 50) == if k == PulseOff then n else GetUint(o, PulseOff, 50)
    ensures k != Interlock && k != BrakeSwitch ==> Get(o', Interlock) == Get(o, Interlock) && Get(o', BrakeSwitch) == Get(o, BrakeSwitch)
  {
    hide GetUint, Get, Rewrites;
    OtherSettingKeys(o, o', k, Num(n as real));
    SameOrWritten(o, o', k, n, AutoCancel, 30000);
    SameOrWritten(o, o', k, n, FlashPeriod, 700);
    SameOrWritten(o, o', k, n, PulseCount, 3);
    SameOrWritten(o, o', k, n, PulseOn, 150);
    SameOrWritten(o, o', k, n, PulseOff, 50);
  }

  lemma AutoCancelKey(o: map<Key, Json>, o': map<Key, Json>, n: nat)
    requires n < U32 && Rewrites(o, o', AutoCancel, Num(n as real))
    ensures ParseSettings(o') == ParseSettings(o).(autoCancelMs := n)
  {
    hide GetUint, ParseInputNumber, Get, Rewrites;
    SameNumbers(o, o', AutoCancel, n);
  }

  lemma FlashPeriodKey(o: map<Key, Json>, o': map<Key, Json>, n: nat)
    requires n < U16 && Rewrites(o, o', FlashPeriod, Num(n as real))
    ensures ParseSettings(o') == ParseSettings(o).(flashPeriodMs := n)
  {
    hide GetUint, ParseInputNumber, Get, Rewrites;
    SameNumbers(o, o', FlashPeriod, n);
  }

  /** The three of the attention burst. */
  lemma PulseKeys(o: map<Key, Json>, o': map<Key, Json>, k: Key, n: nat)
    requires n < U8 && Rewrites(o, o', k, Num(n as real))
    ensures k == PulseCount ==> ParseSettings(o') == ParseSettings(o).(pulseCount := n)
    ensures k == PulseOn ==> ParseSettings(o') == ParseSettings(o).(pulseOnMs := n)
    ensures k == PulseOff ==> ParseSettings(o') == ParseSettings(o).(pulseOffMs := n)
  {
    hide GetUint, ParseInputNumber, Get, Rewrites;
    SameNumbers(o, o', k, n);
  }

  lemma SameOrWritten(o: map<Key, Json>, o': map<Key, Json>, k: Key, n: nat, k': Key, fallback: nat)
    requires Rewrites(o, o', k, Num(n as real)) && n < U32 && fallback < U32
    ensures GetUint(o', k', fallback) == if k' == k then n else GetUint(o, k', fallback)
  {
    hide GetUint, Get;
    if k' == k { WrittenNumber(o', k, n, fallback); } else { SameNumber(o, o', k', fallback); }
  }

  /** The two keys that name an input. */
  lemma InputNumberKeys(o: map<Key, Json>, o': map<Key, Json>, k: Key, n: nat)
    requires (k == Interlock || k == BrakeSwitch) && Rewrites(o, o', k, Num(n as real))
    ensures ParseSettings(o') ==
            if k == Interlock then ParseSettings(o).(interlock := if n < 8 then n else -1)
            else ParseSettings(o).(brakeSwitch := if n < 8 then n else -1)
  {
    hide GetUint, Get, ParseInputNumber, Rewrites;
    OtherSettingKeys(o, o', k, Num(n as real));
    InputNumber(n);
    SameNumber(o, o', AutoCancel, 30000);
    SameNumber(o, o', FlashPeriod, 700);
    SameNumber(o, o', PulseCount, 3);
    SameNumber(o, o', PulseOn, 150);
    SameNumber(o, o', PulseOff, 50);
  }

  lemma InputNumber(n: nat)
    ensures ParseInputNumber(Found(Num(n as real))) == if n < 8 then n else -1
  {
    assert (n as real).Floor == n;
  }

  // ---------- inputs ----------

  lemma TimingKeys(o: map<Key, Json>, n: nat)
    requires n < 0x1_0000_0000
    ensures var t := ParseTiming(Found(Obj(o)));
            && ParseTiming(Found(Obj(o[Debounce := Num(n as real)]))) == t.(debounceMs := n)
            && ParseTiming(Found(Obj(o[LongPress := Num(n as real)]))) == t.(longMs := n)
            && ParseTiming(Found(Obj(o[DoubleGap := Num(n as real)]))) == t.(gapMs := n)
  {
  }

  /** Each list of bindings has its own key. */
  lemma BindingKeys(o: map<Key, Json>, v: Json)
    ensures var b, lists := ParseBindings(o), ParseActionArray(Found(v));
            && ParseBindings(o[ShortActions := v]) == b.(short := lists)
            && ParseBindings(o[LongActions := v]) == b.(long := lists)
            && ParseBindings(o[DoubleActions := v]) == b.(double := lists)
            && ParseBindings(o[Names := v]) == b.(labels := ParseNames(Found(v)))
  {
    hide ParseActionArray, ParseNames;
  }

  /** The list at place `i` belongs to button `i`. */
  lemma BindingsByButton(items: seq<Json>, i: nat)
    requires i < 8
    ensures ParseActionArray(Found(Arr(items)))[i] == if i < |items| then ParseActions(Found(items[i])) else []
  {
  }

  lemma ComboKeys(o: map<Key, Json>, n: nat, v: Json)
    requires n < 0x1_0000_0000
    ensures var d := ParseCombo(o);
            && ParseCombo(o[TypeKey := Str("chord")]) == d.(kind := I.Chord)
            && ParseCombo(o[TypeKey := Str("sequence")]) == d.(kind := I.Sequence)
            && ParseCombo(o[Window := Num(n as real)]) == d.(windowMs := n)
            && ParseCombo(o[Buttons := v]) == d.(buttons := ParseButtons(Found(v)))
            && ParseCombo(o[Actions := v]) == d.(actions := ParseActions(Found(v)))
  {
    hide ParseButtons, ParseActions;
  }

  // ---------- diagnostics ----------

  lemma SameVoltages(o: map<Key, Json>, o': map<Key, Json>, k: Key, n: nat)
    requires Rewrites(o, o', k, Num(n as real)) && n < U16
    ensures GetUint(o', CutoffMv, 11800) == if k == CutoffMv then n else GetUint(o, CutoffMv, 11800)
    ensures GetUint(o', CutoffHysteresis, 300) == if k == CutoffHysteresis then n else GetUint(o, CutoffHysteresis, 300)
    ensures GetUint(o', RunMv, 13800) == if k == RunMv then n else GetUint(o, RunMv, 13800)
    ensures GetUint(o', RunHysteresis, 300) == if k == RunHysteresis then n else GetUint(o, RunHysteresis, 300)
    ensures k != Channels && k != RunByVoltage ==> Get(o', Channels) == Get(o, Channels) && Get(o', RunByVoltage) == Get(o, RunByVoltage)
  {
    hide GetUint, Get, Rewrites;
    OtherDiagKeys(o, o', k, Num(n as real));
    SameOrWritten(o, o', k, n, CutoffMv, 11800);
    SameOrWritten(o, o', k, n, CutoffHysteresis, 300);
    SameOrWritten(o, o', k, n, RunMv, 13800);
    SameOrWritten(o, o', k, n, RunHysteresis, 300);
  }

  lemma CutoffKey(o: map<Key, Json>, o': map<Key, Json>, n: nat)
    requires n < U16 && Rewrites(o, o', CutoffMv, Num(n as real)) && ParseDiag(Found(Obj(o))).Ok?
    ensures ParseDiag(Found(Obj(o'))) == Ok(ParseDiag(Found(Obj(o))).value.(cutoffMv := n))
  {
    hide GetUint, ParseThresholds, Get, Rewrites;
    SameVoltages(o, o', CutoffMv, n);
  }

  lemma CutoffHysteresisKey(o: map<Key, Json>, o': map<Key, Json>, n: nat)
    requires n < U16 && Rewrites(o, o', CutoffHysteresis, Num(n as real)) && ParseDiag(Found(Obj(o))).Ok?
    ensures ParseDiag(Found(Obj(o'))) == Ok(ParseDiag(Found(Obj(o))).value.(cutoffHysteresisMv := n))
  {
    hide GetUint, ParseThresholds, Get, Rewrites;
    SameVoltages(o, o', CutoffHysteresis, n);
  }

  lemma RunKey(o: map<Key, Json>, o': map<Key, Json>, n: nat)
    requires n < U16 && Rewrites(o, o', RunMv, Num(n as real)) && ParseDiag(Found(Obj(o))).Ok?
    ensures ParseDiag(Found(Obj(o'))) == Ok(ParseDiag(Found(Obj(o))).value.(runMv := n))
  {
    hide GetUint, ParseThresholds, Get, Rewrites;
    SameVoltages(o, o', RunMv, n);
  }

  lemma RunHysteresisKey(o: map<Key, Json>, o': map<Key, Json>, n: nat)
    requires n < U16 && Rewrites(o, o', RunHysteresis, Num(n as real)) && ParseDiag(Found(Obj(o))).Ok?
    ensures ParseDiag(Found(Obj(o'))) == Ok(ParseDiag(Found(Obj(o))).value.(runHysteresisMv := n))
  {
    hide GetUint, ParseThresholds, Get, Rewrites;
    SameVoltages(o, o', RunHysteresis, n);
  }

  lemma RunDetectionKey(o: map<Key, Json>, o': map<Key, Json>, x: bool)
    requires ParseDiag(Found(Obj(o))).Ok? && Rewrites(o, o', RunByVoltage, Bool(x))
    ensures ParseDiag(Found(Obj(o'))) == Ok(ParseDiag(Found(Obj(o))).value.(detectByVoltage := x))
  {
    hide GetUint, ParseThresholds, Get, Rewrites;
    OtherDiagKeys(o, o', RunByVoltage, Bool(x));
    SameNumber(o, o', CutoffMv, 11800);
    SameNumber(o, o', CutoffHysteresis, 300);
    SameNumber(o, o', RunMv, 13800);
    SameNumber(o, o', RunHysteresis, 300);
  }

  lemma ThresholdKeys(o: map<Key, Json>, n: nat)
    requires n < 0x1_0000
    ensures var t := ParseThreshold(o);
            && ParseThreshold(o[OpenLoad := Num(n as real)]) == t.(openLoadMa := n)
            && ParseThreshold(o[Overcurrent := Num(n as real)]) == t.(overcurrentMa := n)
  {
  }

  // ---------- the whole document ----------

  /** Each section is read from its own key, and from nowhere else. */
  lemma SectionKeys(o: map<Key, Json>, v: Json)
    requires Parse(Obj(o)).Ok?
    ensures var c := Parse(Obj(o)).value;
            && Parse(Obj(o[Outputs := v])) == (match ParseOutputs(Found(v)) case Ok((cs, s)) => Ok(c.(channels := cs, settings := s)) case _ => BadJson)
            && Parse(Obj(o[Inputs := v])) ==
               (match ParseInputs(Found(v)) case Ok((t, ds, b)) => Ok(c.(timing := t, combos := ds, bindings := b)) case _ => BadJson)
            && Parse(Obj(o[Diagnostics := v])) == (match ParseDiag(Found(v)) case Ok(d) => Ok(c.(diag := d)) case _ => BadJson)
            && Parse(Obj(o[DeviceName := v])) == Ok(c.(deviceName := GetName(Found(v), "")))
  {
    hide ParseOutputs, ParseInputs, ParseDiag, GetName;
  }

  /** A document of a newer schema is refused whole. */
  lemma NewerSchemaIsRefused(o: map<Key, Json>, version: nat)
    ensures version > 9 ==> Parse(Obj(o[SchemaVersion := Num(version as real)])) == FutureVersion
    ensures version <= 9 ==> Parse(Obj(o[SchemaVersion := Num(version as real)])) != FutureVersion
  {
    hide ParseOutputs, ParseInputs, ParseDiag;
  }

  /** A document that says nothing gives a board that does nothing: plain channels without roles,
      no bindings, and the default times and voltages. */
  lemma EmptyDocument()
    ensures Parse(Obj(map[])).Ok?
    ensures var c := Parse(Obj(map[])).value;
            && |c.channels| == 12 && (forall i :: 0 <= i < 12 ==>
                 c.channels[i] == Channel("", false, O.Role(O.Toggle, 100, false, false, false, false, O.NoSide, false, false, -1)))
            && c.settings == Settings(-1, -1, 30000, 700, 3, 150, 50) && c.timing == I.Timing(20, 600, 350)
            && c.combos == [] && (forall i :: 0 <= i < 8 ==> c.bindings.short[i] == c.bindings.long[i] == c.bindings.double[i] == [])
            && c.diag.cutoffMv == 11800 && c.diag.cutoffHysteresisMv == 300 && c.diag.runMv == 13800 && c.diag.runHysteresisMv == 300
            && !c.diag.detectByVoltage
  {
  }
}
