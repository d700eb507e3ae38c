/**
  Layered unlock: from every LOCKED state the system can reach there is a way in that
  needs no phone, and it turns the key.
 */
module LockEntry {
  import opened Output
  import opened Lock
  import L = Lock
  import LB = LockBudget
  import LS = LockSafety

  /** The stored hash is that of some code a rider could enter. */
  ghost predicate CodeKnown(H: Hash, cfg: LockConfig) {
    exists code :: CodeOk(code) && |code| == cfg.codeLen && TestCode(H, cfg, code)
  }

  /** An enabled immobilizer has a fallback and something to immobilize. */
  ghost predicate Fallback(H: Hash, p: Pair)
    requires p.out.Valid()
  {
    && (p.lock.cfg.enabled ==> Faults(p.lock.cfg, p.out.cfg) == {})
    && (p.lock.cfg.codeSet ==> CodeKnown(H, p.lock.cfg))
  }

  lemma StoredCodeKnown(H: Hash, l: Lock, buttons: seq<nat>, salt: seq<nat>, randomOk: bool)
    requires CodeOk(buttons) && randomOk
    ensures CodeKnown(H, SetCode(H, l, buttons, salt, randomOk).cfg)
  {
    assert TestCode(H, SetCode(H, l, buttons, salt, randomOk).cfg, buttons);
  }

  // ---------- the stored code, and only that ----------

  /** What is hashed for a code: the salt, its length, its buttons. */
  function Message(salt: seq<nat>, code: seq<nat>): seq<nat> {
    salt + [|code|] + code
  }

  ghost predicate Collide(H: Hash, a: seq<nat>, b: seq<nat>) {
    a != b && H(a) == H(b)
  }

  /** These buttons stand in for the stored ones: the same, or as many and a hash collision. */
  ghost predicate PassesFor(H: Hash, salt: seq<nat>, stored: seq<nat>, buttons: seq<nat>) {
    buttons == stored || (|buttons| == |stored| && Collide(H, Message(salt, stored), Message(salt, buttons)))
  }

  /** The operation leaves whatever code is stored alone. */
  predicate KeepsCode(op: LS.Op) {
    match op
    case StoreCode(buttons, _, randomOk) => !CodeOk(buttons) || !randomOk
    case EraseCode => false
    case TransferOwnership => false
    case _ => true
  }

  predicate SameCode(a: LockConfig, b: LockConfig) {
    a.codeSet == b.codeSet && a.codeLen == b.codeLen && a.salt == b.salt && a.hash == b.hash
  }

  lemma CodeKeptOnce(H: Hash, p: Pair, op: LS.Op)
    requires p.out.Valid() && KeepsCode(op)
    ensures SameCode(p.lock.cfg, LS.Step(H, p, op).lock.cfg)
  {
    match op
    case StoreCode(_, _, _) =>
    case Configure(s) =>
      hide Faults, Release;
      assert SameCode(p.lock.cfg, Candidate(p.lock.cfg, s));
      if !s.enabled && p.lock.cfg.enabled { ReleaseConfig(p.(lock := p.lock.(cfg := Candidate(p.lock.cfg, s), dirty := true))); }
    case _ => ConfigUntouched(H, p, op);
  }

  lemma ReleaseConfig(p: Pair)
    requires p.out.Valid()
    ensures Release(p, Disabled).lock.cfg == p.lock.cfg
  {
  }

  lemma {:induction false} CodeKept(H: Hash, p: Pair, ops: seq<LS.Op>)
    requires p.out.Valid() && forall i :: 0 <= i < |ops| ==> KeepsCode(ops[i])
    ensures SameCode(p.lock.cfg, LS.Run(H, p, ops).lock.cfg)
    decreases |ops|
  {
    if ops != [] {
      hide LS.Step;
      CodeKeptOnce(H, p, ops[0]);
      CodeKept(H, LS.Step(H, p, ops[0]), ops[1..]);
    }
  }

  lemma MessageTells(salt: seq<nat>, a: seq<nat>, b: seq<nat>)
    ensures Message(salt, a) == Message(salt, b) <==> a == b
  {
    assert a == Message(salt, a)[|salt| + 1..] && b == Message(salt, b)[|salt| + 1..];
  }

  lemma TestOfStored(H: Hash, cfg: LockConfig, stored: seq<nat>, salt: seq<nat>, buttons: seq<nat>)
    requires CodeOk(stored) && cfg.codeSet && cfg.codeLen == |stored| && cfg.salt == salt && cfg.hash == H(Message(salt, stored))
    ensures TestCode(H, cfg, buttons) <==> PassesFor(H, salt, stored, buttons)
  {
    MessageTells(salt, stored, buttons);
  }

  /** Once a code has been stored, and until another is stored, erased or transferred away, a
      test accepts exactly that code, up to a collision of the hash. */
  lemma OnlyTheStoredCode(H: Hash, p: Pair, stored: seq<nat>, salt: seq<nat>, ops: seq<LS.Op>, buttons: seq<nat>)
    requires p.out.Valid() && CodeOk(stored) && forall i :: 0 <= i < |ops| ==> KeepsCode(ops[i])
    ensures var p' := LS.Run(H, LS.Step(H, p, LS.StoreCode(stored, salt, true)), ops);
            TestCode(H, p'.lock.cfg, buttons) <==> PassesFor(H, salt, stored, buttons)
  {
    hide LS.Run, PassesFor;
    var p1 := LS.Step(H, p, LS.StoreCode(stored, salt, true));
    CodeKept(H, p1, ops);
    TestOfStored(H, LS.Run(H, p1, ops).lock.cfg, stored, salt, buttons);
  }

  /** So a press opens a locked bike by the code exactly when it completes the stored one. */
  lemma OnlyTheStoredCodeOpens(H: Hash, p: Pair, stored: seq<nat>, salt: seq<nat>, ops: seq<LS.Op>, now: nat, button: nat)
    requires p.out.Valid() && CodeOk(stored) && forall i :: 0 <= i < |ops| ==> KeepsCode(ops[i])
    ensures var l := LS.Run(H, LS.Step(H, p, LS.StoreCode(stored, salt, true)), ops).lock;
            CodeOutcome(H, l, now, button) == Match <==>
              l.state.Locked? && !l.backoffActive && button < INPUTS && PassesFor(H, salt, stored, Entered(l, now, button).entry)
  {
    hide PassesFor, LS.Run;
    var p1 := LS.Step(H, p, LS.StoreCode(stored, salt, true));
    var l := LS.Run(H, p1, ops).lock;
    CodeKept(H, p1, ops);
    OnlyTheStoredCode(H, p, stored, salt, ops, Entered(l, now, button).entry);
  }

  /** Only storing, erasing, configuring and transferring change the configuration. */
  lemma ConfigUntouched(H: Hash, p: Pair, op: LS.Op)
    requires p.out.Valid() && (op.OnOutput? || op.LockTick? || op.AskLock? || op.AskUnlock? || op.Press?)
    ensures LS.Step(H, p, op).lock.cfg == p.lock.cfg
  {
    match op
    case OnOutput(_) =>
    case LockTick(now, level) => TickConfig(p, now, level);
    case AskLock =>
    case AskUnlock =>
    case Press(now, button) => PressConfig(H, p, now, button);
  }

  lemma TickConfig(p: Pair, now: nat, level: bool)
    requires p.out.Valid()
    ensures L.Tick(p, now, level).lock.cfg == p.lock.cfg
  {
    hide Advance, EnterLocked, EnterUnlocked, SwitchEdge;
    var p0 := p.(lock := Timers(p.lock, now));
    assert Release(p0, Disabled).lock.cfg == p.lock.cfg;
    AdvanceConfig(SwitchEdge(p0, level), now, level);
  }

  lemma PressConfig(H: Hash, p: Pair, now: nat, button: nat)
    requires p.out.Valid()
    ensures CodePress(H, p, now, button).lock.cfg == p.lock.cfg
  {
    hide EnterUnlocked, TestCode;
  }

  lemma AdvanceConfig(p: Pair, now: nat, level: bool)
    requires p.out.Valid()
    ensures Advance(p, now, level).lock.cfg == p.lock.cfg
  {
  }

  lemma SameCodeKnown(H: Hash, a: LockConfig, b: LockConfig)
    requires CodeKnown(H, a) && b.codeSet && b.codeLen == a.codeLen && b.salt == a.salt && b.hash == a.hash
    ensures CodeKnown(H, b)
  {
    var code :| CodeOk(code) && |code| == a.codeLen && TestCode(H, a, code);
    assert TestCode(H, b, code);
  }

  lemma FallbackKept(H: Hash, p: Pair, op: LS.Op)
    requires p.out.Valid() && Fallback(H, p)
    ensures Fallback(H, LS.Step(H, p, op))
  {
    match op
    case StoreCode(buttons, salt, randomOk) =>
      if CodeOk(buttons) && randomOk { StoredCodeKnown(H, p.lock, buttons, salt, randomOk); }
    case EraseCode =>
    case Configure(settings) =>
      if p.lock.cfg.codeSet { SameCodeKnown(H, p.lock.cfg, Candidate(p.lock.cfg, settings)); }
    case TransferOwnership =>
    case _ => ConfigUntouched(H, p, op);
  }

  lemma {:induction false} FallbackOverRuns(H: Hash, p: Pair, ops: seq<LS.Op>)
    requires p.out.Valid() && Fallback(H, p)
    ensures Fallback(H, LS.Run(H, p, ops))
    decreases |ops|
  {
    if ops != [] {
      FallbackKept(H, p, ops[0]);
      FallbackOverRuns(H, LS.Step(H, p, ops[0]), ops[1..]);
    }
  }

  // ---------- turning the key ----------

  /** The ignition and every channel that comes on with it are lit. */
  ghost predicate KeyOn(e: Engine)
    requires e.Valid()
  {
    && Live(e)
    && forall i :: 0 <= i < N && e.cfg.roles[i].onWithIgnition && !e.cfg.roles[i].isIgnition ==> e.ch[i].on
  }

  /** An ignition channel that neither the starter guards nor the hazards can hold back. */
  ghost predicate PlainIgnition(cfg: Config) {
    && |cfg.roles| == N
    && var i := FindIgnition(cfg.roles);
       i >= 0 && !cfg.roles[i].isStarter && !cfg.roles[i].hazardMember
  }

  lemma CommandTurnsKey(e: Engine, c: nat)
    requires e.Valid() && PlainIgnition(e.cfg) && c == FindIgnition(e.cfg.roles) && !e.ch[c].on
    ensures KeyOn(Command(e, c, true))
  {
    var p := Prepare(e, c, true);
    var s := Settle(p, c, true);
    assert !p.ch[c].on && s.ch[c].on;
    assert Command(e, c, true) == IgnitionEdge(s, true);
  }

  lemma UnlockTurnsKey(p: Pair)
    requires p.out.Valid() && LS.Coupled(p) && p.lock.state.Locked? && PlainIgnition(p.out.cfg)
    ensures KeyOn(EnterUnlocked(p).out)
  {
    CommandTurnsKey(p.out.(immobilized := false), FindIgnition(p.out.cfg.roles));
  }

  // ---------- the way in ----------

  /** The run unlocks and turns the key. */
  ghost predicate Opens(H: Hash, p: Pair, ops: seq<LS.Op>)
    requires p.out.Valid()
  {
    var p' := LS.Run(H, p, ops);
    p'.lock.state.Unlocked? && (PlainIgnition(p.out.cfg) ==> KeyOn(p'.out))
  }

  /** Time enough for any backoff and any half-entered code to have run out. */
  ghost predicate Late(l: Lock, t: nat) {
    l.backoffUntil <= t && l.entryStart + l.cfg.windowMs <= t
  }

  /** How long `n` pauses of `gap` take. */
  function Span(n: nat, gap: nat): nat {
    if n == 0 then 0 else gap + Span(n - 1, gap)
  }

  lemma {:induction false} SpanIs(n: nat, gap: nat)
    ensures Span(n, gap) == n * gap
  {
    if n > 0 { SpanIs(n - 1, gap); }
  }

  lemma {:induction false} SpanGrows(m: nat, n: nat, gap: nat)
    requires m <= n
    ensures Span(m, gap) <= Span(n, gap)
    decreases n
  {
    if m < n { SpanGrows(m, n - 1, gap); }
  }

  /** A code entered from `t` on, one press every `gap` milliseconds. */
  function Presses(t: nat, code: seq<nat>, gap: nat): seq<LS.Op>
    decreases |code|
  {
    if code == [] then [] else [LS.Press(t, code[0])] + Presses(t + gap, code[1..], gap)
  }

  /** The right digits so far, and at this pace the rest comes before the window closes. */
  ghost predicate OnTheWay(H: Hash, p: Pair, t: nat, code: seq<nat>, k: nat, gap: nat) {
    && p.out.Valid() && LS.Coupled(p) && p.lock.state.Locked? && !p.lock.backoffActive
    && CodeOk(code) && |code| == p.lock.cfg.codeLen && TestCode(H, p.lock.cfg, code)
    && k < |code| && p.lock.entry == code[..k]
    && t + Span(|code| - 1 - k, gap) < (if k > 0 then p.lock.entryStart else t) + p.lock.cfg.windowMs
  }

  lemma DigitEntered(H: Hash, p: Pair, t: nat, code: seq<nat>, k: nat, gap: nat)
    requires OnTheWay(H, p, t, code, k, gap)
    ensures Entered(p.lock, t, code[k]).entry == code[..k + 1]
    ensures k + 1 < |code| ==>
              && CodePress(H, p, t, code[k]).out == p.out
              && OnTheWay(H, CodePress(H, p, t, code[k]), t + gap, code, k + 1, gap)
  {
    hide EnterUnlocked;
    assert code[..k] + [code[k]] == code[..k + 1];
    assert k + 1 < |code| ==> Span(|code| - 1 - k, gap) == gap + Span(|code| - 2 - k, gap);
    assert k + 1 < |code| ==> CodePress(H, p, t, code[k]) == p.(lock := Entered(p.lock, t, code[k]));
  }

  lemma LastDigitOpens(H: Hash, p: Pair, t: nat, code: seq<nat>, gap: nat)
    requires CodeOk(code) && OnTheWay(H, p, t, code, |code| - 1, gap)
    ensures var p' := CodePress(H, p, t, code[|code| - 1]);
            p'.lock.state.Unlocked? && (PlainIgnition(p.out.cfg) ==> KeyOn(p'.out))
  {
    hide EnterUnlocked, KeyOn, PlainIgnition;
    var k := |code| - 1;
    DigitEntered(H, p, t, code, k, gap);
    var l1 := Entered(p.lock, t, code[k]);
    assert code[..k + 1] == code;
    var q := p.(lock := l1.(entry := [], lastAttempt := t, wrong := 0, backoffUntil := 0, backoffActive := false));
    assert CodePress(H, p, t, code[k]) == EnterUnlocked(q);
    if PlainIgnition(p.out.cfg) { UnlockTurnsKey(q); }
  }

  /** Entering the rest of the right code unlocks, if that ends within the entry window. */
  lemma {:induction false} EnteringUnlocks(H: Hash, p: Pair, t: nat, code: seq<nat>, k: nat, gap: nat)
    requires OnTheWay(H, p, t, code, k, gap)
    ensures Opens(H, p, Presses(t, code[k..], gap))
    decreases |code| - k
  {
    hide CodePress, KeyOn, PlainIgnition, LS.Coupled, TestCode;
    var ops := Presses(t, code[k..], gap);
    assert code[k..][1..] == code[k + 1..];
    assert ops[1..] == Presses(t + gap, code[k + 1..], gap);
    if k + 1 == |code| {
      LastDigitOpens(H, p, t, code, gap);
      assert LS.Run(H, LS.Step(H, p, ops[0]), ops[1..]) == LS.Step(H, p, ops[0]);
    } else {
      DigitEntered(H, p, t, code, k, gap);
      EnteringUnlocks(H, CodePress(H, p, t, code[k]), t + gap, code, k + 1, gap);
    }
  }

  /** A quiet tick in LOCKED: the backoff ends and the half-entered code is dropped. */
  lemma LateTick(p: Pair, t: nat)
    requires p.out.Valid() && p.lock.state.Locked? && p.lock.cfg.enabled && Late(p.lock, t)
    ensures var p' := L.Tick(p, t, false);
            && p'.out == p.out && p'.lock.state.Locked? && p'.lock.cfg == p.lock.cfg && p'.lock.lockedFlag == p.lock.lockedFlag
            && !p'.lock.backoffActive && p'.lock.entry == []
  {
    hide Timers, EnterLocked, EnterUnlocked, Release;
    var p0 := p.(lock := Timers(p.lock, t));
    LateTimers(p.lock, t);
    assert SwitchEdge(p0, false).out == p.out;
  }

  lemma LateTimers(l: Lock, t: nat)
    requires Late(l, t)
    ensures var l' := Timers(l, t);
            !l'.backoffActive && l'.entry == [] && l' == l.(backoffActive := false, entry := [], wrong := l'.wrong)
  {
  }

  lemma CouplingSeesState(p: Pair, q: Pair)
    requires p.out.Valid() && LS.Coupled(p) && q.out == p.out
    requires q.lock.state == p.lock.state && q.lock.lockedFlag == p.lock.lockedFlag && q.lock.cfg == p.lock.cfg
    ensures LS.Coupled(q) && q.lock.cfg.enabled == !q.lock.state.Disabled?
  {
  }

  lemma SwitchUnlocks(H: Hash, p: Pair, t: nat)
    requires p.out.Valid() && LS.Coupled(p) && p.lock.state.Locked? && p.lock.cfg.switchMethod
    ensures var p' := LS.Step(H, p, LS.LockTick(t, true));
            p'.lock.state.Unlocked? && (PlainIgnition(p.out.cfg) ==> KeyOn(p'.out))
  {
    hide Timers, LS.Coupled, KeyOn, PlainIgnition, EnterUnlocked, EnterLocked;
    var p0 := p.(lock := Timers(p.lock, t));
    LS.TimersKeep(p.lock, t);
    var p1 := SwitchEdge(p0, true);
    CouplingSeesState(p, p1);
    assert Advance(p1, t, true) == EnterUnlocked(p1);
    if PlainIgnition(p.out.cfg) { UnlockTurnsKey(p1); }
  }

  /** What a rider at the bike can do: move the ignition switch and press buttons, the presses
      no closer together than `gap`, the first of them not before `next`. */
  ghost predicate AtTheBike(ops: seq<LS.Op>, next: nat, gap: nat)
    decreases |ops|
  {
    ops != [] ==>
      && (ops[0].LockTick? || (ops[0].Press? && next <= ops[0].now))
      && AtTheBike(ops[1..], if ops[0].Press? then ops[0].now + gap else next, gap)
  }

  /** A way in exists for a rider who needs `gap` from press to press. */
  ghost predicate WayIn(H: Hash, p: Pair, clock: nat, gap: nat)
    requires p.out.Valid()
  {
    exists ops :: AtTheBike(ops, clock, gap) && LB.Timed(ops, clock) && Opens(H, p, ops)
  }

  lemma WayInBySwitch(H: Hash, p: Pair, clock: nat, gap: nat)
    requires p.out.Valid() && LS.Coupled(p) && p.lock.state.Locked? && p.lock.cfg.switchMethod
    ensures WayIn(H, p, clock, gap)
  {
    SwitchUnlocks(H, p, clock);
    var ops := [LS.LockTick(clock, true)];
    assert ops[1..] == [];
    assert LS.Run(H, p, ops) == LS.Run(H, LS.Step(H, p, ops[0]), ops[1..]);
    assert AtTheBike(ops, clock, gap) && LB.Timed(ops, clock) && Opens(H, p, ops);
  }

  lemma {:induction false} PressesPaced(clock: nat, t: nat, code: seq<nat>, gap: nat)
    requires clock <= t
    ensures LB.Timed(Presses(t, code, gap), clock) && AtTheBike(Presses(t, code, gap), clock, gap)
    ensures AtTheBike(Presses(t, code, gap), t, gap)
    decreases |code|
  {
    if code != [] {
      assert Presses(t, code, gap)[1..] == Presses(t + gap, code[1..], gap);
      PressesPaced(t, t + gap, code[1..], gap);
    }
  }

  /** The rider lets any backoff and half-entered code run out, and enters the code. */
  function WaitAndEnter(t: nat, code: seq<nat>, gap: nat): (ops: seq<LS.Op>)
    ensures ops != [] && ops[1..] == Presses(t, code, gap)
  {
    [LS.LockTick(t, false)] + Presses(t, code, gap)
  }

  lemma WaitAndEnterOpens(H: Hash, p: Pair, t: nat, code: seq<nat>, gap: nat)
    requires p.out.Valid() && LS.Coupled(p) && p.lock.state.Locked? && p.lock.cfg.enabled && Late(p.lock, t)
    requires CodeOk(code) && |code| == p.lock.cfg.codeLen && TestCode(H, p.lock.cfg, code)
    requires Span(|code| - 1, gap) < p.lock.cfg.windowMs
    ensures Opens(H, p, WaitAndEnter(t, code, gap))
  {
    hide L.Tick, LS.Run, TestCode;
    LateTick(p, t);
    var p1 := L.Tick(p, t, false);
    assert LS.Coupled(p1);
    assert code[..0] == [] && code[0..] == code;
    EnteringUnlocks(H, p1, t, code, 0, gap);
    RunFirst(H, p, WaitAndEnter(t, code, gap));
  }

  lemma RunFirst(H: Hash, p: Pair, ops: seq<LS.Op>)
    requires p.out.Valid() && ops != []
    ensures LS.Run(H, p, ops) == LS.Run(H, LS.Step(H, p, ops[0]), ops[1..])
  {
  }

  lemma WayInByCode(H: Hash, p: Pair, clock: nat, gap: nat)
    requires p.out.Valid() && LS.Coupled(p) && p.lock.state.Locked? && p.lock.cfg.enabled
    requires p.lock.cfg.codeSet && CodeKnown(H, p.lock.cfg) && Span(p.lock.cfg.codeLen - 1, gap) < p.lock.cfg.windowMs
    ensures WayIn(H, p, clock, gap)
  {
    hide Opens, TestCode;
    var t := clock + p.lock.backoffUntil + p.lock.entryStart + p.lock.cfg.windowMs;
    var code :| CodeOk(code) && |code| == p.lock.cfg.codeLen && TestCode(H, p.lock.cfg, code);
    WaitAndEnterOpens(H, p, t, code, gap);
    PressesPaced(t, t, code, gap);
    PressesPaced(clock, t, code, gap);
    var ops := WaitAndEnter(t, code, gap);
    assert AtTheBike(ops, clock, gap) && LB.Timed(ops, clock) && Opens(H, p, ops);
  }

  // Too slow for the window: the code never completes.

  /** The digits held are so old that the rider's pace cannot complete the code in time:
      none, expired ones, or ones that already took a pause each. */
  ghost predicate TooSlow(p: Pair, clock: nat, next: nat, gap: nat) {
    var l := p.lock;
    && p.out.Valid() && l.state.Locked? && l.cfg.enabled && !l.cfg.switchMethod
    && l.cfg.codeLen >= 2 && l.cfg.windowMs <= Span(l.cfg.codeLen - 1, gap)
    && (l.entry == [] || l.entryStart + l.cfg.windowMs <= clock || l.entryStart + Span(|l.entry|, gap) <= next)
  }

  lemma TooSlowTick(p: Pair, clock: nat, next: nat, gap: nat, now: nat, level: bool)
    requires TooSlow(p, clock, next, gap) && clock <= now
    ensures TooSlow(L.Tick(p, now, level), now, next, gap)
  {
    hide Span, EnterLocked, EnterUnlocked, Release;
    var p1 := SwitchEdge(p.(lock := Timers(p.lock, now)), level);
    assert Advance(p1, now, level) == p1;
  }

  lemma TooSlowPress(H: Hash, p: Pair, clock: nat, next: nat, gap: nat, now: nat, button: nat)
    requires TooSlow(p, clock, next, gap) && clock <= now && next <= now
    ensures TooSlow(CodePress(H, p, now, button), now, now + gap, gap)
  {
    hide EnterUnlocked, TestCode;
    var l, l1 := p.lock, Entered(p.lock, now, button);
    if l.entry == [] || now - l.entryStart >= l.cfg.windowMs {
      assert l1.entry == [button] && Span(1, gap) == gap + Span(0, gap);
    } else {
      if |l.entry| >= l.cfg.codeLen - 1 { SpanGrows(l.cfg.codeLen - 1, |l.entry|, gap); }
      assert |l.entry| < l.cfg.codeLen - 1;
    }
  }

  lemma {:induction false} TooSlowLocksOut(H: Hash, p: Pair, ops: seq<LS.Op>, clock: nat, next: nat, gap: nat)
    requires TooSlow(p, clock, next, gap) && AtTheBike(ops, next, gap) && LB.Timed(ops, clock)
    ensures LS.Run(H, p, ops).lock.state.Locked?
    decreases |ops|
  {
    if ops != [] {
      hide TooSlow, L.Tick, CodePress;
      match ops[0] {
        case LockTick(now, level) =>
          TooSlowTick(p, clock, next, gap, now, level);
          TooSlowLocksOut(H, LS.Step(H, p, ops[0]), ops[1..], now, next, gap);
        case Press(now, button) =>
          TooSlowPress(H, p, clock, next, gap, now, button);
          TooSlowLocksOut(H, LS.Step(H, p, ops[0]), ops[1..], now, now + gap, gap);
      }
    }
  }

  /** No half-entered code is still open. */
  ghost predicate NothingEntered(l: Lock, clock: nat) {
    l.entry == [] || l.entryStart + l.cfg.windowMs <= clock
  }

  lemma CodeStored(H: Hash, p: Pair)
    requires p.out.Valid() && Fallback(H, p) && p.lock.cfg.enabled && !p.lock.cfg.switchMethod
    ensures p.lock.cfg.codeSet && CodeKnown(H, p.lock.cfg) && p.lock.cfg.codeLen >= CODE_MIN
  {
    assert RequiresFallback !in Faults(p.lock.cfg, p.out.cfg);
  }

  /** The ignition switch is a method, or the whole code fits the entry window at this pace. */
  predicate PaceFits(cfg: LockConfig, gap: nat) {
    cfg.switchMethod || (cfg.codeLen - 1) * gap < cfg.windowMs
  }

  lemma FastEnough(H: Hash, p: Pair, clock: nat, gap: nat)
    requires p.out.Valid() && LS.Coupled(p) && Fallback(H, p) && p.lock.state.Locked?
    requires PaceFits(p.lock.cfg, gap)
    ensures WayIn(H, p, clock, gap)
  {
    hide WayIn;
    if p.lock.cfg.switchMethod {
      WayInBySwitch(H, p, clock, gap);
    } else {
      CodeStored(H, p);
      SpanIs(p.lock.cfg.codeLen - 1, gap);
      WayInByCode(H, p, clock, gap);
    }
  }

  /** A rider who needs `gap` from press to press has a way in without the phone exactly when the
      ignition switch is a method or the whole code fits the entry window at that pace. The
      configuration check asks for neither. */
  lemma WayInExactly(H: Hash, p: Pair, clock: nat, gap: nat)
    requires p.out.Valid() && LS.Coupled(p) && Fallback(H, p) && p.lock.state.Locked?
    requires NothingEntered(p.lock, clock)
    ensures WayIn(H, p, clock, gap) <==> PaceFits(p.lock.cfg, gap)
  {
    hide WayIn;
    if PaceFits(p.lock.cfg, gap) {
      FastEnough(H, p, clock, gap);
    } else {
      CodeStored(H, p);
      SpanIs(p.lock.cfg.codeLen - 1, gap);
      NoWayIn(H, p, clock, gap);
    }
  }

  lemma NoWayIn(H: Hash, p: Pair, clock: nat, gap: nat)
    requires p.out.Valid() && TooSlow(p, clock, clock, gap)
    ensures !WayIn(H, p, clock, gap)
  {
    hide TooSlow, LS.Run;
    if WayIn(H, p, clock, gap) {
      var ops :| AtTheBike(ops, clock, gap) && LB.Timed(ops, clock) && Opens(H, p, ops);
      TooSlowLocksOut(H, p, ops, clock, clock, gap);
    }
  }

  lemma FallbackAtBoot(H: Hash, on: LS.PowerOn)
    requires on.Valid()
    requires (on.cfg.enabled ==> Faults(on.cfg, on.outputs) == {}) && (on.cfg.codeSet ==> CodeKnown(H, on.cfg))
    ensures Fallback(H, on.Pair())
  {
    hide Faults, CodeKnown, ForceOff;
  }

  /** From power-on with a validated lock configuration, through any run, a LOCKED board opens
      from the bike for every rider whose pace fits the entry window. */
  lemma NeverLockedOut(H: Hash, on: LS.PowerOn, ops: seq<LS.Op>, clock: nat, gap: nat)
    requires on.Valid() && LS.AllLegal(ops)
    requires (on.cfg.enabled ==> Faults(on.cfg, on.outputs) == {}) && (on.cfg.codeSet ==> CodeKnown(H, on.cfg))
    requires LS.Run(H, on.Pair(), ops).lock.state.Locked?
    ensures var p := LS.Run(H, on.Pair(), ops);
            PaceFits(p.lock.cfg, gap) ==> WayIn(H, p, clock, gap)
  {
    var p := LS.Run(H, on.Pair(), ops);
    hide WayIn, LS.Run, LS.Coupled, Fallback, Faults, CodeKnown, Init, Boot, PaceFits;
    LS.CoupledAlways(H, on, ops);
    FallbackAtBoot(H, on);
    FallbackOverRuns(H, on.Pair(), ops);
    if PaceFits(p.lock.cfg, gap) { FastEnough(H, p, clock, gap); }
  }

  lemma RunOfThree(H: Hash, p: Pair, a: LS.Op, b: LS.Op, c: LS.Op)
    requires p.out.Valid()
    ensures LS.Run(H, p, [a, b, c]) == LS.Step(H, LS.Step(H, LS.Step(H, p, a), b), c)
  {
    hide LS.Step;
    assert [a, b, c][1..] == [b, c] && [b, c][1..] == [c] && [c][1..] == [];
    RunFirst(H, p, [a, b, c]);
    RunFirst(H, LS.Step(H, p, a), [b, c]);
    RunFirst(H, LS.Step(H, LS.Step(H, p, a), b), [c]);
  }

  lemma BootsDark(on: LS.PowerOn, i: nat)
    requires on.Valid() && i < N && !on.image[i]
    ensures !on.Pair().out.ch[i].on && !on.Pair().out.engineRunning && on.Pair().out.cfg == on.outputs
    ensures LS.Coupled(on.Pair())
  {
    var e := on.Engine().(immobilized := true);
    LS.ForceOffSweeps(e, false, 0);
    LS.CoupledAtBoot(on.cfg, on.flag, on.outputs, on.canDim, on.image);
  }

  lemma StoringKeeps(H: Hash, p: Pair, code: seq<nat>, salt: seq<nat>)
    requires p.out.Valid() && CodeOk(code)
    ensures var l := SetCode(H, p.lock, code, salt, true);
            && l.state == p.lock.state && l.cfg.enabled == p.lock.cfg.enabled
            && l.cfg.codeSet && l.cfg.codeLen == |code| && l.entry == []
  {
  }

  lemma ConfiguringArms(p: Pair, s: Settings)
    requires p.out.Valid() && p.lock.cfg.codeSet && s.enabled && !s.switchMethod && FindIgnition(p.out.cfg.roles) >= 0
    ensures var p' := ApplySettings(p, s);
            && p'.out == p.out && p'.lock.entry == p.lock.entry
            && p'.lock.cfg == Candidate(p.lock.cfg, s)
            && p'.lock.state == if p.lock.cfg.enabled then p.lock.state else Unlocked
  {
    assert Faults(Candidate(p.lock.cfg, s), p.out.cfg) == {};
  }

  lemma LocksStanding(p: Pair)
    requires p.out.Valid() && p.lock.cfg.enabled && !p.out.engineRunning && !Live(p.out)
    ensures var p' := RequestLock(p);
            p'.lock.state.Locked? && p'.lock.cfg == p.lock.cfg && p'.lock.entry == p.lock.entry
  {
    hide ForceOff;
  }

  /** A zero entry window is accepted: a code is stored, the settings are applied, the bike locks
      standing, and then nobody gets in without the phone, however fast the fingers. */
  lemma ZeroWindowLocksOut(H: Hash, on: LS.PowerOn, code: seq<nat>, salt: seq<nat>, s: Settings, clock: nat, gap: nat)
    requires on.Valid() && CodeOk(code) && s.enabled && !s.switchMethod && s.windowMs == 0
    requires FindIgnition(on.outputs.roles) >= 0 && !on.image[FindIgnition(on.outputs.roles)]
    ensures var p := LS.Run(H, on.Pair(), [LS.StoreCode(code, salt, true), LS.Configure(s), LS.AskLock]);
            p.lock.state.Locked? && !WayIn(H, p, clock, gap)
  {
    var p0 := on.Pair();
    BootsDark(on, FindIgnition(on.outputs.roles));
    var p1 := LS.Step(H, p0, LS.StoreCode(code, salt, true));
    var p2 := LS.Step(H, p1, LS.Configure(s));
    var p3 := LS.Step(H, p2, LS.AskLock);
    StoringKeeps(H, p0, code, salt);
    ConfiguringArms(p1, s);
    LocksStanding(p2);
    RunOfThree(H, p0, LS.StoreCode(code, salt, true), LS.Configure(s), LS.AskLock);
    NoWayIn(H, p3, clock, gap);
  }
}
