/** Printing and parsing undo each other, and what the old schema versions meant is kept. */
module ConfigLaws {
  import opened ConfigJson
  import O = Output
  import I = Input
  import D = Diag

  // ---------- configurations the document can carry ----------

  predicate CanonicalName(s: string) { |s| <= NAME_CHARS }

  predicate ReadableActions(l: seq<nat>) {
    |l| <= MAX_ACTIONS && forall k :: 0 <= k < |l| ==> l[k] < U16
  }

  predicate CanonicalChannel(c: Channel, i: nat) {
    && CanonicalName(c.title) && c.role.dutyPct < U8
    && -1 <= c.role.alternate < CHANNELS && c.role.alternate != i
  }

  predicate CanonicalSettings(s: Settings) {
    && -1 <= s.interlock < BUTTONS && -1 <= s.brakeSwitch < BUTTONS && s.autoCancelMs < U32
    && s.flashPeriodMs < U16 && s.pulseCount < U8 && s.pulseOnMs < U16 && s.pulseOffMs < U16
  }

  predicate CanonicalTiming(t: I.Timing) {
    t.debounceMs < U32 && t.longMs < U32 && t.gapMs < U32
  }

  predicate CanonicalDef(c: I.Def) {
    && |c.buttons| <= MAX_COMBO_LEN && (forall k :: 0 <= k < |c.buttons| ==> c.buttons[k] < BUTTONS)
    && c.windowMs < U32 && ReadableActions(c.actions)
  }

  predicate CanonicalLists(ls: seq<seq<nat>>) {
    |ls| == BUTTONS && forall i :: 0 <= i < BUTTONS ==> ReadableActions(ls[i])
  }

  predicate CanonicalBindings(b: Bindings) {
    && CanonicalLists(b.short) && CanonicalLists(b.long) && CanonicalLists(b.double)
    && |b.labels| == BUTTONS && forall i :: 0 <= i < BUTTONS ==> CanonicalName(b.labels[i])
  }

  predicate CanonicalCombos(cs: seq<I.Def>) {
    |cs| <= MAX_COMBOS && forall i :: 0 <= i < |cs| ==> CanonicalDef(cs[i])
  }

  predicate CanonicalChannels(cs: seq<Channel>) {
    |cs| == CHANNELS && forall i :: 0 <= i < CHANNELS ==> CanonicalChannel(cs[i], i)
  }

  predicate CanonicalDiag(d: D.DiagConfig) {
    && |d.thresholds| == CHANNELS && d.cutoffMv < U16 && d.cutoffHysteresisMv < U16 && d.runMv < U16 && d.runHysteresisMv < U16
    && forall i :: 0 <= i < CHANNELS ==> d.thresholds[i].openLoadMa < U16 && d.thresholds[i].overcurrentMa < U16
  }

  /** What the struct's field widths and the parser's own checks guarantee. */
  predicate Readable(c: Config) {
    && c.version == VERSION && CanonicalName(c.deviceName)
    && CanonicalChannels(c.channels) && CanonicalSettings(c.settings)
    && CanonicalTiming(c.timing) && CanonicalCombos(c.combos) && CanonicalBindings(c.bindings)
    && CanonicalDiag(c.diag)
  }

  predicate NoZeroIn(ls: seq<seq<nat>>) {
    forall i :: 0 <= i < |ls| ==> 0 !in ls[i]
  }

  predicate BindsNoZero(b: Bindings) {
    NoZeroIn(b.short) && NoZeroIn(b.long) && NoZeroIn(b.double)
  }

  predicate CombosNoZero(cs: seq<I.Def>) {
    forall i :: 0 <= i < |cs| ==> 0 !in cs[i].actions
  }

  /** No action list holds the "no action" id. */
  predicate NoZeroAction(c: Config) {
    CombosNoZero(c.combos) && BindsNoZero(c.bindings)
  }

  /** The configurations a document carries faithfully. */
  predicate Canonical(c: Config) {
    Readable(c) && NoZeroAction(c)
  }

  /** The lengths of the struct's arrays. */
  predicate Shaped(c: Config) {
    && |c.channels| == CHANNELS && |c.diag.thresholds| == CHANNELS && |c.combos| <= MAX_COMBOS
    && |c.bindings.short| == BUTTONS && |c.bindings.long| == BUTTONS && |c.bindings.double| == BUTTONS && |c.bindings.labels| == BUTTONS
  }

  // ---------- what a parse can give ----------

  lemma ParsedChannel(o: map<Key, Json>, i: nat)
    ensures CanonicalChannel(ParseChannel(o, i), i)
  {
  }

  lemma {:induction false} UsedReadable(items: seq<Json>, room: nat)
    ensures forall k :: 0 <= k < |UsedActions(items, room)| ==> UsedActions(items, room)[k] < U16
    decreases |items|
  {
    if items != [] && room > 0 {
      UsedReadable(items[1..], room - 1);
      UsedReadable(items[1..], room);
    }
  }

  lemma ParsedActions(l: Lookup)
    ensures ReadableActions(ParseActions(l))
  {
    if l.Found? && l.v.Arr? { UsedReadable(l.v.items, MAX_ACTIONS); }
  }

  lemma ParsedOutputs(l: Lookup)
    requires ParseOutputs(l).Ok?
    ensures CanonicalChannels(ParseOutputs(l).value.0) && CanonicalSettings(ParseOutputs(l).value.1)
  {
    hide ParseChannel;
    if l.Found? && l.v.Obj? {
      var c := Get(l.v.fields, Channels);
      forall i | 0 <= i < CHANNELS ensures CanonicalChannel(ParseOutputs(l).value.0[i], i) {
        if c.Found? && c.v.Arr? && i < |c.v.items| { ParsedChannel(Fields(c.v.items[i]), i); }
      }
    }
  }

  lemma ParsedCombo(o: map<Key, Json>)
    ensures CanonicalDef(ParseCombo(o))
  {
    ParsedActions(if Actions in o then Get(o, Actions) else Get(o, ActionId));
  }

  lemma ParsedCombos(l: Lookup)
    requires ParseCombos(l).Ok?
    ensures CanonicalCombos(ParseCombos(l).value)
  {
    hide ParseCombo;
    forall i | 0 <= i < |ParseCombos(l).value| ensures CanonicalDef(ParseCombos(l).value[i]) {
      ParsedCombo(Fields(l.v.items[i]));
    }
  }

  lemma ParsedArray(l: Lookup)
    ensures CanonicalLists(ParseActionArray(l))
  {
    hide ParseActions;
    forall i | 0 <= i < BUTTONS ensures ReadableActions(ParseActionArray(l)[i]) {
      if l.Found? && l.v.Arr? && i < |l.v.items| { ParsedActions(Found(l.v.items[i])); }
    }
  }

  lemma ParsedBindings(o: map<Key, Json>)
    ensures CanonicalBindings(ParseBindings(o))
  {
    ParsedArray(Get(o, ShortActions));
    ParsedArray(Get(o, LongActions));
    ParsedArray(Get(o, DoubleActions));
  }

  lemma ParsedInputs(l: Lookup)
    requires ParseInputs(l).Ok?
    ensures var (t, cs, b) := ParseInputs(l).value; CanonicalTiming(t) && CanonicalCombos(cs) && CanonicalBindings(b)
  {
    hide ParseCombos, ParseBindings;
    if l.Found? && l.v.Obj? {
      ParsedCombos(Get(l.v.fields, Combos));
      ParsedBindings(l.v.fields);
    }
  }

  lemma ParsedDiag(l: Lookup)
    requires ParseDiag(l).Ok?
    ensures CanonicalDiag(ParseDiag(l).value)
  {
  }

  /** Whatever the document, an accepted one gives a readable configuration. */
  lemma ParsedIsReadable(doc: Json)
    requires Parse(doc).Ok?
    ensures Readable(Parse(doc).value)
  {
    hide ParseOutputs, ParseInputs, ParseDiag, CanonicalChannels, CanonicalSettings, CanonicalTiming, CanonicalCombos, CanonicalBindings, CanonicalDiag;
    ParsedOutputs(Get(doc.fields, Outputs));
    ParsedInputs(Get(doc.fields, Inputs));
    ParsedDiag(Get(doc.fields, Diagnostics));
  }

  // ---------- what printing keeps ----------

  /** Reading a printed list takes its non-zero ids. */
  lemma {:induction false} PrintedActions(vs: seq<nat>, room: nat)
    requires |vs| <= room
    ensures 0 !in UsedActions(PrintList(vs).items, room)
    ensures 0 !in vs && (forall k :: 0 <= k < |vs| ==> vs[k] < U16) ==> UsedActions(PrintList(vs).items, room) == vs
    decreases |vs|
  {
    if vs != [] {
      assert PrintList(vs).items[1..] == PrintList(vs[1..]).items;
      PrintedActions(vs[1..], room - 1);
      PrintedActions(vs[1..], room);
      assert vs == [vs[0]] + vs[1..];
    }
  }

  lemma {:induction false} PrintedButtons(vs: seq<nat>, room: nat)
    requires |vs| <= room && forall k :: 0 <= k < |vs| ==> vs[k] < BUTTONS
    ensures UsedButtons(PrintList(vs).items, room) == vs
    decreases |vs|
  {
    if vs != [] {
      assert PrintList(vs).items[1..] == PrintList(vs[1..]).items;
      PrintedButtons(vs[1..], room - 1);
      assert vs == [vs[0]] + vs[1..];
    }
  }

  lemma NamesBack(b: O.Behaviour, side: O.Side, k: I.Kind)
    ensures BehaviourOf(BehaviourName(b)) == b && SideOf(SideName(side)) == side && KindOf(KindName(k)) == k
  {
  }

  lemma PrintedFlags(c: Channel)
    ensures var r := c.role;
            ParseFlags(PrintChannel(c).fields) == Flags(r.essential, r.isIgnition, r.isStarter, r.isBrake, r.indicator, r.hazardMember)
    ensures ParseBehaviour(PrintChannel(c).fields) == c.role.behaviour
  {
    NamesBack(c.role.behaviour, c.role.indicator, I.Chord);
    hide BehaviourOf, SideOf, BehaviourName, SideName;
  }

  lemma PrintedChannel(c: Channel, i: nat)
    requires CanonicalChannel(c, i)
    ensures ParseChannel(PrintChannel(c).fields, i) == c
  {
    hide ParseFlags, ParseBehaviour;
    PrintedFlags(c);
  }

  lemma PrintedOutputs(cs: seq<Channel>, s: Settings)
    requires CanonicalChannels(cs) && CanonicalSettings(s)
    ensures ParseOutputs(Found(PrintOutputs(cs, s))) == Ok((cs, s))
  {
    hide PrintChannel, ParseChannel;
    var items := seq(|cs|, i requires 0 <= i < |cs| => PrintChannel(cs[i]));
    var parsed := ParseChannels(Found(Arr(items)));
    forall i | 0 <= i < CHANNELS ensures ParseChannel(Fields(items[i]), i) == cs[i] { PrintedObject(cs[i], i); }
    PrintedSettings(cs, s);
    assert ObjectsUpTo(items, CHANNELS) by { forall i | 0 <= i < CHANNELS ensures items[i].Obj? { PrintedObject(cs[i], i); } }
    assert parsed.value == cs;
  }

  lemma PrintedObject(c: Channel, i: nat)
    requires CanonicalChannel(c, i)
    ensures PrintChannel(c).Obj? && ParseChannel(Fields(PrintChannel(c)), i) == c
  {
    hide ParseChannel;
    PrintedChannel(c, i);
  }

  lemma PrintedSettings(cs: seq<Channel>, s: Settings)
    requires CanonicalSettings(s)
    ensures ParseSettings(PrintOutputs(cs, s).fields) == s
  {
  }

  // the inputs

  lemma PrintedCombo(c: I.Def)
    ensures PrintCombo(c).Obj? && 0 !in ParseCombo(PrintCombo(c).fields).actions
    ensures CanonicalDef(c) && 0 !in c.actions ==> ParseCombo(PrintCombo(c).fields) == c
  {
    hide KindName, KindOf, UsedActions, UsedButtons, PrintList;
    NamesBack(O.Toggle, O.NoSide, c.kind);
    PrintedActions(if |c.actions| <= MAX_ACTIONS then c.actions else c.actions[..MAX_ACTIONS], MAX_ACTIONS);
    if CanonicalDef(c) { PrintedButtons(c.buttons, MAX_COMBO_LEN); }
    ListIsArray(c.buttons);
    ListIsArray(if |c.actions| <= MAX_ACTIONS then c.actions else c.actions[..MAX_ACTIONS]);
  }

  lemma ListIsArray(vs: seq<nat>)
    ensures PrintList(vs).Arr?
  {
  }

  lemma PrintedCombos(cs: seq<I.Def>)
    requires |cs| <= MAX_COMBOS
    ensures var r := ParseCombos(Found(PrintCombos(cs)));
            r.Ok? && CombosNoZero(r.value) && (CanonicalCombos(cs) && CombosNoZero(cs) ==> r.value == cs)
  {
    hide PrintCombo, ParseCombo;
    var items := PrintCombos(cs).items;
    forall i | 0 <= i < |cs|
      ensures items[i].Obj? && 0 !in ParseCombo(Fields(items[i])).actions
      ensures CanonicalDef(cs[i]) && 0 !in cs[i].actions ==> ParseCombo(Fields(items[i])) == cs[i]
    {
      PrintedCombo(cs[i]);
    }
  }

  lemma PrintedArray(ls: seq<seq<nat>>)
    ensures NoZeroIn(ParseActionArray(Found(PrintLists(ls))))
    ensures CanonicalLists(ls) && NoZeroIn(ls) ==> ParseActionArray(Found(PrintLists(ls))) == ls
  {
    var r := ParseActionArray(Found(PrintLists(ls)));
    hide PrintActions, ParseActions;
    forall i | 0 <= i < |ls|
      ensures 0 !in ParseActions(Found(PrintActions(ls[i])))
      ensures ReadableActions(ls[i]) && 0 !in ls[i] ==> ParseActions(Found(PrintActions(ls[i]))) == ls[i]
    {
      PrintedActionList(ls[i]);
    }
  }

  lemma PrintedActionList(l: seq<nat>)
    ensures 0 !in ParseActions(Found(PrintActions(l)))
    ensures ReadableActions(l) && 0 !in l ==> ParseActions(Found(PrintActions(l))) == l
  {
    PrintedActions(if |l| <= MAX_ACTIONS then l else l[..MAX_ACTIONS], MAX_ACTIONS);
  }

  lemma PrintedNames(names: seq<string>)
    requires |names| == BUTTONS && forall i :: 0 <= i < BUTTONS ==> CanonicalName(names[i])
    ensures ParseNames(Found(PrintNames(names))) == names
  {
  }

  lemma PrintedBindings(t: I.Timing, cs: seq<I.Def>, b: Bindings)
    ensures var r := ParseBindings(PrintInputs(t, cs, b).fields);
            BindsNoZero(r) && (CanonicalBindings(b) && BindsNoZero(b) ==> r == b)
  {
    hide ParseActionArray, PrintLists, PrintNames, ParseNames, CanonicalLists, NoZeroIn, PrintCombos;
    PrintedArray(b.short);
    PrintedArray(b.long);
    PrintedArray(b.double);
    if CanonicalBindings(b) { PrintedNames(b.labels); }
  }

  lemma PrintedTiming(t: I.Timing, cs: seq<I.Def>, b: Bindings)
    requires CanonicalTiming(t)
    ensures ParseTiming(Get(PrintInputs(t, cs, b).fields, TimingKey)) == t
  {
    hide PrintCombos, PrintLists, PrintNames;
  }

  lemma PrintedInputs(t: I.Timing, cs: seq<I.Def>, b: Bindings)
    requires |cs| <= MAX_COMBOS
    ensures var r := ParseInputs(Found(PrintInputs(t, cs, b)));
            && r.Ok? && CombosNoZero(r.value.1) && BindsNoZero(r.value.2)
            && (CanonicalTiming(t) && CanonicalCombos(cs) && CanonicalBindings(b) && CombosNoZero(cs) && BindsNoZero(b) ==>
                  r.value == (t, cs, b))
  {
    hide ParseCombos, PrintCombos, PrintNames, ParseBindings, PrintLists, CanonicalCombos, CombosNoZero, BindsNoZero, CanonicalBindings, ParseTiming;
    PrintedCombos(cs);
    PrintedBindings(t, cs, b);
    if CanonicalTiming(t) { PrintedTiming(t, cs, b); }
  }

  lemma PrintedThresholds(ts: seq<D.Threshold>)
    requires |ts| == CHANNELS && forall i :: 0 <= i < |ts| ==> ts[i].openLoadMa < U16 && ts[i].overcurrentMa < U16
    ensures ParseThresholds(Found(Arr(PrintThresholds(ts)))) == Ok(ts)
  {
    hide PrintThresholds;
    var items := PrintThresholds(ts);
    assert forall i :: 0 <= i < |ts| ==> items[i].Obj?;
    forall i | 0 <= i < |ts| ensures ParseThreshold(Fields(items[i])) == ts[i] { PrintedThreshold(ts[i]); }
    assert ParseThresholds(Found(Arr(items))).value == ts;
  }

  lemma PrintedThreshold(t: D.Threshold)
    requires t.openLoadMa < U16 && t.overcurrentMa < U16
    ensures ParseThreshold(Fields(PrintThreshold(t))) == t
  {
  }

  lemma PrintedDiag(d: D.DiagConfig)
    requires CanonicalDiag(d)
    ensures ParseDiag(Found(PrintDiag(d))) == Ok(d)
  {
    hide ParseThresholds, PrintThresholds;
    PrintedThresholds(d.thresholds);
  }

  // ---------- the laws ----------

  /** Printing and parsing a configuration gives it back exactly when it is canonical. */
  lemma RoundTrip(c: Config)
    requires Shaped(c)
    ensures Parse(Print(c)) == Ok(c) <==> Canonical(c)
  {
    hide PrintOutputs, PrintInputs, PrintDiag, ParseOutputs, ParseInputs, ParseDiag, Readable;
    PrintedInputs(c.timing, c.combos, c.bindings);
    if Canonical(c) {
      ReadableParts(c);
      PrintedOutputs(c.channels, c.settings);
      PrintedDiag(c.diag);
    }
    if Parse(Print(c)) == Ok(c) {
      ParsedIsReadable(Print(c));
    }
  }

  lemma ReadableParts(c: Config)
    requires Readable(c)
    ensures c.version == VERSION && CanonicalName(c.deviceName)
    ensures CanonicalChannels(c.channels) && CanonicalSettings(c.settings)
    ensures CanonicalTiming(c.timing) && CanonicalCombos(c.combos) && CanonicalBindings(c.bindings) && CanonicalDiag(c.diag)
  {
  }

  /** Saving and reloading what any accepted document gave changes nothing, exactly when no
      action list of it holds a zero. */
  lemma Stable(doc: Json)
    requires Parse(doc).Ok?
    ensures var c := Parse(doc).value; Parse(Print(c)) == Ok(c) <==> NoZeroAction(c)
  {
    hide Parse, Print;
    ParsedIsReadable(doc);
    RoundTrip(Parse(doc).value);
  }

  /** The positive numbers an action array is read from. */
  function UsedNumbers(items: seq<Json>, room: nat): (r: seq<real>)
    ensures forall k :: 0 <= k < |r| ==> r[k] > 0.0
  {
    if items == [] || room == 0 then []
    else if items[0].Num? && items[0].x > 0.0 then [items[0].x] + UsedNumbers(items[1..], room - 1)
    else UsedNumbers(items[1..], room)
  }

  predicate HasFraction(xs: seq<real>) {
    exists k :: 0 <= k < |xs| && xs[k] < 1.0
  }

  lemma FractionInCons(x: real, rest: seq<real>)
    ensures HasFraction([x] + rest) <==> x < 1.0 || HasFraction(rest)
  {
    if x < 1.0 { assert ([x] + rest)[0] < 1.0; }
    if k :| 0 <= k < |rest| && rest[k] < 1.0 { assert ([x] + rest)[k + 1] < 1.0; }
  }

  /** A list holds a zero exactly when a number between 0 and 1 is among those read: it is
      positive, so it counts as a binding, and then truncates to "no action". */
  lemma {:induction false} ZeroFromFraction(items: seq<Json>, room: nat)
    ensures 0 in UsedActions(items, room) <==> HasFraction(UsedNumbers(items, room))
    decreases |items|
  {
    if items != [] && room > 0 {
      ZeroFromFraction(items[1..], room - 1);
      ZeroFromFraction(items[1..], room);
      if items[0].Num? && items[0].x > 0.0 {
        FractionInCons(items[0].x, UsedNumbers(items[1..], room - 1));
        assert UsedActions(items, room) == [ToAction(items[0].x)] + UsedActions(items[1..], room - 1);
        assert ToAction(items[0].x) == 0 <==> items[0].x < 1.0;
      } else {
        assert UsedNumbers(items, room) == UsedNumbers(items[1..], room);
        assert UsedActions(items, room) == UsedActions(items[1..], room);
      }
    }
  }

  // where a document's action lists are read from

  predicate ReadsFraction(l: Lookup) {
    match l
    case Found(Num(x)) => 0.0 < x < 1.0
    case Found(Arr(items)) => HasFraction(UsedNumbers(items, MAX_ACTIONS))
    case _ => false
  }

  function ActionsOf(combo: map<Key, Json>): Lookup {
    if Actions in combo then Get(combo, Actions) else Get(combo, ActionId)
  }

  predicate FractionInCombos(l: Lookup) {
    match l
    case Found(Arr(items)) => exists i :: 0 <= i < Min(|items|, MAX_COMBOS) && ReadsFraction(ActionsOf(Fields(items[i])))
    case _ => false
  }

  predicate FractionInArray(l: Lookup) {
    match l
    case Found(Arr(items)) => exists i :: 0 <= i < Min(|items|, BUTTONS) && ReadsFraction(Found(items[i]))
    case _ => false
  }

  /** Some action list the parser reads takes a number between 0 and 1. */
  predicate FractionalAction(doc: Json) {
    && doc.Obj?
    && match Get(doc.fields, Inputs)
       case Found(Obj(o)) =>
         || FractionInCombos(Get(o, Combos)) || FractionInArray(Get(o, ShortActions))
         || FractionInArray(Get(o, LongActions)) || FractionInArray(Get(o, DoubleActions))
       case _ => false
  }

  lemma ZeroIsFraction(l: Lookup)
    ensures 0 in ParseActions(l) <==> ReadsFraction(l)
  {
    if l.Found? && l.v.Arr? { ZeroFromFraction(l.v.items, MAX_ACTIONS); }
  }

  lemma ArrayZero(l: Lookup)
    ensures NoZeroIn(ParseActionArray(l)) <==> !FractionInArray(l)
  {
    hide ParseActions, ReadsFraction;
    if l.Found? && l.v.Arr? {
      var items, ls := l.v.items, ParseActionArray(l);
      forall i | 0 <= i < BUTTONS && i < |items| ensures 0 in ls[i] <==> ReadsFraction(Found(items[i])) { ZeroIsFraction(Found(items[i])); }
    }
  }

  lemma CombosZero(l: Lookup)
    requires ParseCombos(l).Ok?
    ensures CombosNoZero(ParseCombos(l).value) <==> !FractionInCombos(l)
  {
    hide ParseActions, ReadsFraction;
    if l.Found? && l.v.Arr? {
      var items, cs := l.v.items, ParseCombos(l).value;
      forall i | 0 <= i < |cs| ensures 0 in cs[i].actions <==> ReadsFraction(ActionsOf(Fields(items[i]))) {
        ZeroIsFraction(ActionsOf(Fields(items[i])));
      }
    }
  }

  lemma ZeroExactly(doc: Json)
    requires Parse(doc).Ok?
    ensures NoZeroAction(Parse(doc).value) <==> !FractionalAction(doc)
  {
    hide ParseOutputs, ParseDiag, ParseCombos, ParseActionArray, FractionInCombos, FractionInArray, CombosNoZero, NoZeroIn, ParseNames, ParseTiming;
    var l := Get(doc.fields, Inputs);
    if l.Found? && l.v.Obj? {
      var o := l.v.fields;
      CombosZero(Get(o, Combos));
      ArrayZero(Get(o, ShortActions));
      ArrayZero(Get(o, LongActions));
      ArrayZero(Get(o, DoubleActions));
    } else {
      DefaultsHaveNoZero();
    }
  }

  lemma DefaultsHaveNoZero()
    ensures BindsNoZero(DefaultBindings()) && CombosNoZero([])
  {
  }

  /** An accepted document survives a save and a reload exactly when no action list it holds
      takes a number between 0 and 1. */
  lemma SurvivesSaveExactly(doc: Json)
    requires Parse(doc).Ok?
    ensures Parse(Print(Parse(doc).value)) == Parse(doc) <==> !FractionalAction(doc)
  {
    hide Parse, Print, NoZeroAction, FractionalAction;
    Stable(doc);
    ZeroExactly(doc);
  }

  /** The first button's short press bound to action 0.5. */
  function HalfAction(): Json {
    Obj(map[Inputs := Obj(map[ShortActions := Arr([Arr([Num(0.5)])])])])
  }

  lemma FractionBreaksStability()
    ensures Parse(HalfAction()).Ok? && FractionalAction(HalfAction())
    ensures Parse(HalfAction()).value.bindings.short[0] == [0]
    ensures Parse(Print(Parse(HalfAction()).value)) != Parse(HalfAction())
  {
    var ids := Arr([Num(0.5)]);
    assert [Num(0.5)][1..] == [];
    assert UsedNumbers([Num(0.5)], MAX_ACTIONS) == [0.5] + UsedNumbers([], MAX_ACTIONS - 1) == [0.5];
    assert UsedNumbers([Num(0.5)], MAX_ACTIONS)[0] < 1.0;
    assert ReadsFraction(Found(ids));
    assert Arr([ids]).items[0] == ids;
    assert FractionInArray(Found(Arr([ids])));
    assert ParseActions(Found(ids)) == [0] by { assert UsedActions([Num(0.5)], MAX_ACTIONS) == [0] + UsedActions([], MAX_ACTIONS - 1); }
    SurvivesSaveExactly(HalfAction());
  }

  /** Reprinting touches nothing but the zeros in the bindings. */
  lemma Reprinted(c: Config)
    requires Readable(c)
    ensures var again := Parse(Print(c));
            again.Ok? && NoZeroAction(again.value) && again.value == c.(combos := again.value.combos, bindings := again.value.bindings)
  {
    hide PrintOutputs, PrintInputs, PrintDiag, ParseOutputs, ParseInputs, ParseDiag, Readable, CombosNoZero, BindsNoZero;
    ReadableParts(c);
    PrintedOutputs(c.channels, c.settings);
    PrintedInputs(c.timing, c.combos, c.bindings);
    TimingKept(c.timing, c.combos, c.bindings);
    PrintedDiag(c.diag);
  }

  lemma TimingKept(t: I.Timing, cs: seq<I.Def>, b: Bindings)
    requires CanonicalTiming(t) && |cs| <= MAX_COMBOS
    ensures ParseInputs(Found(PrintInputs(t, cs, b))).Ok? && ParseInputs(Found(PrintInputs(t, cs, b))).value.0 == t
  {
    hide PrintCombos, ParseCombos, PrintLists, PrintNames, ParseTiming, ParseBindings;
    PrintedCombos(cs);
    PrintedTiming(t, cs, b);
  }

  /** One save later every configuration is a fixed point, and only bindings were touched. */
  lemma SettlesAfterOneSave(doc: Json)
    requires Parse(doc).Ok?
    ensures var c, again := Parse(doc).value, Parse(Print(Parse(doc).value));
            again.Ok? && Parse(Print(again.value)) == again && again.value == c.(combos := again.value.combos, bindings := again.value.bindings)
  {
    hide Parse, Print, Readable, NoZeroAction;
    var c := Parse(doc).value;
    ParsedIsReadable(doc);
    Reprinted(c);
    Stable(Print(c));
  }

  // ---------- earlier schema versions ----------

  /** A version 3 number means a one-entry list. */
  lemma NumberIsOneEntryList(x: real)
    ensures ParseActions(Found(Num(x))) == ParseActions(Found(Arr([Num(x)])))
  {
    assert [Num(x)][1..] == [];
    assert UsedActions([Num(x)][1..], MAX_ACTIONS - 1) == [] == UsedActions([Num(x)][1..], MAX_ACTIONS);
  }

  /** A channel written by any version reads the same after the current version rewrites it. */
  lemma LegacyChannelIsStable(o: map<Key, Json>, i: nat)
    ensures ParseChannel(PrintChannel(ParseChannel(o, i)).fields, i) == ParseChannel(o, i)
  {
    hide ParseChannel, PrintChannel;
    ParsedChannel(o, i);
    PrintedChannel(ParseChannel(o, i), i);
  }

  /** What an old function name keeps after the import: the headlights, the ignition and the
      brake light are still never shed. */
  lemma LegacyFunctionsStayEssential(o: map<Key, Json>, i: nat, fn: string)
    requires !HasRoles(o) && Get(o, Function) == Found(Str(fn))
    ensures O.IsEssential(ParseChannel(o, i).role) <==> fn in ["ignition", "brake", "headlight_hi", "headlight_lo"]
  {
  }
}
