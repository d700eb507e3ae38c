/**
  How fast cheat-codes can be guessed: the 15/30/60 s backoffs and the five-minute
  forgiveness together bound the number of wrong codes in any stretch of time.
 */
module LockBudget {
  import opened Output
  import opened Lock
  import L = Lock
  import LS = LockSafety

  /** No code is stored or erased, and the lock is LOCKED before and after every step. */
  ghost predicate StaysLocked(H: Hash, p: Pair, ops: seq<LS.Op>)
    requires p.out.Valid()
    decreases |ops|
  {
    && p.lock.state.Locked?
    && (ops != [] ==>
          !ops[0].StoreCode? && !ops[0].EraseCode? && StaysLocked(H, LS.Step(H, p, ops[0]), ops[1..]))
  }

  function ClockAfter(op: LS.Op, clock: nat): nat {
    match op
    case LockTick(now, _) => now
    case Press(now, _) => now
    case _ => clock
  }

  ghost predicate Timed(ops: seq<LS.Op>, clock: nat)
    decreases |ops|
  {
    ops != [] ==> clock <= ClockAfter(ops[0], clock) && Timed(ops[1..], ClockAfter(ops[0], clock))
  }

  predicate IsWrong(H: Hash, p: Pair, op: LS.Op) {
    op.Press? && CodeOutcome(H, p.lock, op.now, op.button) == Mismatch
  }

  /** When the run evaluated a wrong code. */
  function WrongTimes(H: Hash, p: Pair, ops: seq<LS.Op>): seq<nat>
    requires p.out.Valid()
    decreases |ops|
  {
    if ops == [] then []
    else (if IsWrong(H, p, ops[0]) then [ops[0].now] else []) + WrongTimes(H, LS.Step(H, p, ops[0]), ops[1..])
  }

  /** The guesses a counter value has saved up, in units of 1/345000 guess. */
  function Saved(wrong: nat): int {
    if wrong <= 6 then 345000 * wrong
    else if wrong == 7 then 2295000
    else 2400000 - 135000 * (wrong - 8)
  }

  /** After `n >= 1` wrong codes, the first at `first` and the latest at `last`. */
  ghost predicate Budget(l: Lock, clock: nat, n: nat, first: nat, last: nat) {
    && first <= last <= clock && l.lastAttempt == last && l.wrong < COUNTER_WRAP
    && (|| (&& 345000 * n <= 8 * (last - first) + Saved(l.wrong)
            && (if l.backoffActive then l.backoffUntil == last + BackoffMs(l.wrong) else clock >= last + BackoffMs(l.wrong)))
        || (&& 345000 * n <= 8 * (last - first) + 2400000
            && l.wrong == 0 && !l.backoffActive && clock >= last + QUIET_RESET_MS))
  }

  lemma BudgetTimers(l: Lock, clock: nat, now: nat, n: nat, first: nat, last: nat)
    requires Budget(l, clock, n, first, last) && clock <= now
    ensures Budget(Timers(l, now), now, n, first, last)
  {
  }

  lemma BudgetWrong(l: Lock, clock: nat, now: nat, n: nat, first: nat, last: nat)
    requires Budget(l, clock, n, first, last) && clock <= now && !l.backoffActive
    ensures Budget(Wronged(l.(lastAttempt := now), now), now, n + 1, first, now)
  {
  }

  lemma LockedAdvance(p: Pair, now: nat, level: bool)
    requires p.out.Valid() && p.lock.state.Locked? && Advance(p, now, level).lock.state.Locked?
    ensures Advance(p, now, level) == p
  {
  }

  lemma TickSplits(p: Pair, now: nat, level: bool)
    requires p.out.Valid() && p.lock.state.Locked? && L.Tick(p, now, level).lock.state.Locked?
    ensures L.Tick(p, now, level).lock == Timers(p.lock, now).(prevSwitch := level)
  {
    var p0 := p.(lock := Timers(p.lock, now));
    if p0.lock.cfg.enabled { LockedAdvance(SwitchEdge(p0, level), now, level); }
  }

  lemma PressSplits(H: Hash, p: Pair, now: nat, button: nat)
    requires p.out.Valid() && p.lock.state.Locked? && CodePress(H, p, now, button).lock.state.Locked?
    ensures var l' := CodePress(H, p, now, button).lock;
            if CodeOutcome(H, p.lock, now, button) == Mismatch
            then !p.lock.backoffActive && SameGuessing(l', Wronged(p.lock.(lastAttempt := now), now))
            else SameGuessing(l', p.lock)
  {
    hide EnterUnlocked, TestCode, BackoffMs;
  }

  lemma UnlockSplits(p: Pair)
    requires p.out.Valid() && p.lock.state.Locked?
    ensures SameGuessing(RequestUnlock(p).lock, p.lock) || RequestUnlock(p).lock.state.Unlocked?
  {
    hide EnterUnlocked;
  }

  lemma OtherSplits(H: Hash, p: Pair, op: LS.Op)
    requires p.out.Valid() && p.lock.state.Locked? && LS.Step(H, p, op).lock.state.Locked?
    requires !op.StoreCode? && !op.EraseCode? && !op.LockTick? && !op.Press?
    ensures SameGuessing(LS.Step(H, p, op).lock, p.lock)
  {
    hide EnterLocked, EnterUnlocked, Release, Faults;
    match op
    case AskUnlock => UnlockSplits(p);
    case Configure(s) => ConfigureSplits(p, s);
    case TransferOwnership => TransferSplits(p);
    case _ =>
  }

  lemma ConfigureSplits(p: Pair, s: Settings)
    requires p.out.Valid() && p.lock.state.Locked? && ApplySettings(p, s).lock.state.Locked?
    ensures SameGuessing(ApplySettings(p, s).lock, p.lock)
  {
    hide Faults;
  }

  lemma TransferSplits(p: Pair)
    requires p.out.Valid()
    ensures Transfer(p).lock.state.Disabled?
  {
  }

  /** Only a wrong code and the timers touch the counter of a lock that stays LOCKED. */
  lemma StepSplits(H: Hash, p: Pair, op: LS.Op)
    requires p.out.Valid() && p.lock.state.Locked? && LS.Step(H, p, op).lock.state.Locked?
    requires !op.StoreCode? && !op.EraseCode?
    ensures var l, l' := p.lock, LS.Step(H, p, op).lock;
            if IsWrong(H, p, op) then !l.backoffActive && SameGuessing(l', Wronged(l.(lastAttempt := op.now), op.now))
            else if op.LockTick? then SameGuessing(l', Timers(l, op.now))
            else SameGuessing(l', l)
  {
    match op
    case LockTick(now, level) => TickSplits(p, now, level);
    case Press(now, button) => PressSplits(H, p, now, button);
    case _ => OtherSplits(H, p, op);
  }

  /** The two agree on everything the guessing bound depends on. */
  ghost predicate SameGuessing(l: Lock, m: Lock) {
    && l.wrong == m.wrong && l.backoffActive == m.backoffActive && l.lastAttempt == m.lastAttempt
    && l.backoffUntil == m.backoffUntil
  }

  lemma {:induction false} BudgetOverRuns(H: Hash, p: Pair, ops: seq<LS.Op>, clock: nat, n: nat, first: nat, last: nat)
    requires p.out.Valid() && StaysLocked(H, p, ops) && Timed(ops, clock) && Budget(p.lock, clock, n, first, last)
    ensures var w := WrongTimes(H, p, ops);
            345000 * (n + |w|) <= 8 * ((if w == [] then last else w[|w| - 1]) - first) + 2400000
    decreases |ops|
  {
    hide LS.Step;
    if ops != [] {
      var p', now := LS.Step(H, p, ops[0]), ClockAfter(ops[0], clock);
      StepSplits(H, p, ops[0]);
      if IsWrong(H, p, ops[0]) {
        BudgetWrong(p.lock, clock, now, n, first, last);
        BudgetOverRuns(H, p', ops[1..], now, n + 1, first, now);
        assert WrongTimes(H, p, ops) == [now] + WrongTimes(H, p', ops[1..]);
      } else {
        BudgetTimers(p.lock, clock, now, n, first, last);
        BudgetOverRuns(H, p', ops[1..], now, n, first, last);
        assert WrongTimes(H, p, ops) == WrongTimes(H, p', ops[1..]);
      }
    }
  }

  function Span(w: seq<nat>): int
    requires w != []
  {
    w[|w| - 1] as int - w[0] as int
  }

  /** N wrong codes whose first and last are T ms apart satisfy 345000 N <= 8 T + 2400000,
      in every run that stays LOCKED from a zero counter; the 16-bit counter may wrap. */
  lemma {:induction false} BackoffBudget(H: Hash, p: Pair, ops: seq<LS.Op>, clock: nat)
    requires p.out.Valid() && StaysLocked(H, p, ops) && Timed(ops, clock) && p.lock.wrong == 0
    ensures var w := WrongTimes(H, p, ops);
            w != [] ==> 345000 * |w| <= 8 * Span(w) + 2400000
    decreases |ops|
  {
    hide LS.Step;
    if ops != [] {
      var p', now := LS.Step(H, p, ops[0]), ClockAfter(ops[0], clock);
      StepSplits(H, p, ops[0]);
      if IsWrong(H, p, ops[0]) {
        BudgetOverRuns(H, p', ops[1..], now, 1, now, now);
        assert WrongTimes(H, p, ops) == [now] + WrongTimes(H, p', ops[1..]);
      } else {
        BackoffBudget(H, p', ops[1..], now);
        assert WrongTimes(H, p, ops) == WrongTimes(H, p', ops[1..]);
      }
    }
  }

  // ---------- the bound is tight ----------

  function Zeros(n: nat): seq<nat> {
    seq(n, _ => 0)
  }

  /** A tick and then a whole code of button 0, all at `t`. */
  function Guess(t: nat, len: nat): seq<LS.Op> {
    [LS.LockTick(t, false)] + Presses(t, len)
  }

  function Presses(t: nat, n: nat): seq<LS.Op> {
    seq(n, _ => LS.Press(t, 0))
  }

  ghost predicate Guessable(H: Hash, p: Pair) {
    && p.out.Valid() && p.lock.state.Locked? && p.lock.cfg.enabled && p.lock.cfg.codeSet && 1 <= p.lock.cfg.codeLen <= CODE_MAX
    && p.lock.cfg.windowMs > 0
    && !TestCode(H, p.lock.cfg, Zeros(p.lock.cfg.codeLen))
  }

  /** One more press of a code that ends wrong. */
  lemma OnePress(H: Hash, p: Pair, t: nat, n: nat)
    requires Guessable(H, p) && !p.lock.backoffActive && 1 <= n <= p.lock.cfg.codeLen
    requires p.lock.entry == Zeros(p.lock.cfg.codeLen - n) && (p.lock.entry != [] ==> p.lock.entryStart == t)
    ensures var p1 := LS.Step(H, p, LS.Press(t, 0));
            && (IsWrong(H, p, LS.Press(t, 0)) <==> n == 1)
            && p1 == if n == 1 then p.(lock := Wronged(p.lock.(entry := [], entryStart := t, lastAttempt := t), t))
                     else p.(lock := p.lock.(entry := Zeros(p.lock.cfg.codeLen - n + 1), entryStart := t))
  {
    assert Zeros(p.lock.cfg.codeLen - n) + [0] == Zeros(p.lock.cfg.codeLen - n + 1);
  }

  lemma {:induction false} PressesWrong(H: Hash, p: Pair, t: nat, n: nat)
    requires Guessable(H, p) && !p.lock.backoffActive && 1 <= n <= p.lock.cfg.codeLen
    requires p.lock.entry == Zeros(p.lock.cfg.codeLen - n) && (p.lock.entry != [] ==> p.lock.entryStart == t)
    ensures var p' := LS.Run(H, p, Presses(t, n));
            && p' == p.(lock := Wronged(p.lock.(entry := [], entryStart := t, lastAttempt := t), t))
            && WrongTimes(H, p, Presses(t, n)) == [t] && StaysLocked(H, p, Presses(t, n))
    decreases n
  {
    hide LS.Step;
    var ops := Presses(t, n);
    assert ops[1..] == Presses(t, n - 1);
    OnePress(H, p, t, n);
    var p1 := LS.Step(H, p, ops[0]);
    if n == 1 {
      assert Presses(t, 0) == [];
      assert LS.Run(H, p1, []) == p1;
    } else {
      PressesWrong(H, p1, t, n - 1);
    }
  }

  lemma GuessTick(p: Pair, t: nat)
    requires p.out.Valid() && p.lock.state.Locked? && p.lock.cfg.enabled && p.lock.entry == []
    requires p.lock.backoffActive ==> p.lock.backoffUntil <= t
    requires p.lock.wrong > 0 ==> t < p.lock.lastAttempt + QUIET_RESET_MS
    ensures L.Tick(p, t, false) == p.(lock := p.lock.(backoffActive := false, prevSwitch := false))
  {
    var p1 := p.(lock := Timers(p.lock, t));
    assert Timers(p.lock, t) == p.lock.(backoffActive := false);
    assert SwitchEdge(p1, false) == p1.(lock := p1.lock.(prevSwitch := false));
  }

  lemma GuessWrong(H: Hash, p: Pair, t: nat)
    requires Guessable(H, p) && p.lock.entry == []
    requires p.lock.backoffActive ==> p.lock.backoffUntil <= t
    requires p.lock.wrong > 0 ==> t < p.lock.lastAttempt + QUIET_RESET_MS
    ensures var ops := Guess(t, p.lock.cfg.codeLen);
            && LS.Run(H, p, ops) == p.(lock := Guessed(p.lock, t))
            && WrongTimes(H, p, ops) == [t] && StaysLocked(H, p, ops)
  {
    var len := p.lock.cfg.codeLen;
    var ops := Guess(t, len);
    assert ops[1..] == Presses(t, len);
    GuessTick(p, t);
    var p1 := p.(lock := p.lock.(backoffActive := false, prevSwitch := false));
    assert LS.Step(H, p, ops[0]) == p1;
    assert Zeros(0) == [];
    PressesWrong(H, p1, t, len);
  }

  /** The lock after a whole wrong code at `t`. */
  function Guessed(l: Lock, t: nat): Lock {
    Wronged(l.(backoffActive := false, prevSwitch := false, entry := [], entryStart := t, lastAttempt := t), t)
  }

  function GuessAll(times: seq<nat>, len: nat): seq<LS.Op> {
    if times == [] then [] else Guess(times[0], len) + GuessAll(times[1..], len)
  }

  /** The times respect every backoff the earlier ones earn, with no forgiveness. */
  ghost predicate Schedule(times: seq<nat>, wrong: nat, earliest: nat) {
    times != [] ==>
      && wrong < 100 && earliest <= times[0] && (wrong > 0 ==> times[0] < earliest + 200000)
      && Schedule(times[1..], wrong + 1, times[0] + BackoffMs(wrong + 1))
  }

  lemma {:induction false} RunsAppend(H: Hash, p: Pair, a: seq<LS.Op>, b: seq<LS.Op>)
    requires p.out.Valid() && StaysLocked(H, p, a) && StaysLocked(H, LS.Run(H, p, a), b)
    ensures StaysLocked(H, p, a + b) && WrongTimes(H, p, a + b) == WrongTimes(H, p, a) + WrongTimes(H, LS.Run(H, p, a), b)
    decreases |a|
  {
    hide LS.Step, IsWrong;
    if a == [] {
      assert a + b == b;
    } else {
      assert (a + b)[1..] == a[1..] + b;
      RunsAppend(H, LS.Step(H, p, a[0]), a[1..], b);
    }
  }

  lemma {:induction false} ScheduleRuns(H: Hash, p: Pair, times: seq<nat>, earliest: nat)
    requires Guessable(H, p) && p.lock.entry == [] && Schedule(times, p.lock.wrong, earliest)
    requires earliest == p.lock.lastAttempt + BackoffMs(p.lock.wrong)
    requires p.lock.backoffActive ==> p.lock.backoffUntil == earliest
    ensures StaysLocked(H, p, GuessAll(times, p.lock.cfg.codeLen))
    ensures WrongTimes(H, p, GuessAll(times, p.lock.cfg.codeLen)) == times
    decreases |times|
  {
    hide LS.Step, LS.Run, IsWrong, Guess;
    if times != [] {
      var t := times[0];
      GuessWrong(H, p, t);
      var p1 := p.(lock := Guessed(p.lock, t));
      assert p1.lock.wrong == p.lock.wrong + 1;
      ScheduleRuns(H, p1, times[1..], t + BackoffMs(p1.lock.wrong));
      RunsAppend(H, p, Guess(t, p.lock.cfg.codeLen), GuessAll(times[1..], p.lock.cfg.codeLen));
      assert times == [t] + times[1..];
    }
  }

  lemma {:induction false} PressesTimed(t: nat, n: nat, rest: seq<LS.Op>)
    requires Timed(rest, t)
    ensures Timed(Presses(t, n) + rest, t)
    decreases n
  {
    if n == 0 {
      assert Presses(t, 0) + rest == rest;
    } else {
      assert (Presses(t, n) + rest)[1..] == Presses(t, n - 1) + rest;
      PressesTimed(t, n - 1, rest);
    }
  }

  lemma GuessTimed(t: nat, len: nat, rest: seq<LS.Op>, clock: nat)
    requires Timed(rest, t) && clock <= t
    ensures Timed(Guess(t, len) + rest, clock)
  {
    hide Presses;
    PressesTimed(t, len, rest);
    assert (Guess(t, len) + rest)[1..] == Presses(t, len) + rest;
  }

  /** A schedule's guesses come in time order. */
  lemma {:induction false} ScheduleTimed(times: seq<nat>, len: nat, wrong: nat, earliest: nat, clock: nat)
    requires Schedule(times, wrong, earliest) && clock <= earliest
    ensures Timed(GuessAll(times, len), clock)
    decreases |times|
  {
    hide Guess, BackoffMs;
    if times != [] {
      var t, rest := times[0], GuessAll(times[1..], len);
      ScheduleTimed(times[1..], len, wrong + 1, t + BackoffMs(wrong + 1), t);
      GuessTimed(t, len, rest, clock);
    }
  }

  /** Eight wrong codes fit in 45 s, in a run in time order: the bound is met with equality. */
  lemma BudgetIsTight(H: Hash, p: Pair)
    requires Guessable(H, p) && p.lock.entry == [] && p.lock.wrong == 0 && p.lock.lastAttempt == 0 && !p.lock.backoffActive
    ensures exists ops :: var w := WrongTimes(H, p, ops);
              StaysLocked(H, p, ops) && Timed(ops, 0) && |w| == 8 && 345000 * |w| == 8 * Span(w) + 2400000
  {
    var times: seq<nat> := [0, 0, 0, 0, 0, 0, 15000, 45000];
    assert times[7..] == [45000] && times[8..] == [];
    assert Schedule(times[8..], 8, 105000);
    assert Schedule(times[7..], 7, 45000) by { assert times[7..][1..] == times[8..]; }
    assert Schedule(times[6..], 6, 15000) by { assert times[6..][1..] == times[7..]; }
    assert Schedule(times[5..], 5, 0) by { assert times[5..][1..] == times[6..]; }
    assert Schedule(times[4..], 4, 0) by { assert times[4..][1..] == times[5..]; }
    assert Schedule(times[3..], 3, 0) by { assert times[3..][1..] == times[4..]; }
    assert Schedule(times[2..], 2, 0) by { assert times[2..][1..] == times[3..]; }
    assert Schedule(times[1..], 1, 0) by { assert times[1..][1..] == times[2..]; }
    ScheduleRuns(H, p, times, 0);
    ScheduleTimed(times, p.lock.cfg.codeLen, 0, 0, 0);
    assert Span(times) == 45000;
  }
}
