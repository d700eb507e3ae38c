/**
  The input engine as an object (mc_input_engine_t): button and combo records updated in
  place and a ring queue, proved against the functions of module Input.
 */
module InputObject {
  import opened Input

  class InputEngine {
    var timing: Timing
    var defs: seq<Def>
    const buttons: array<Button>
    const combos: array<Progress>
    const ring: array<Event>
    var head: nat
    var count: nat

    ghost predicate Valid()
      reads this, buttons, combos
    {
      && buttons.Length == BUTTONS && combos.Length == COMBOS && ring.Length == QUEUE
      && head < QUEUE && count <= QUEUE && Snapshot().Valid(defs)
    }

    ghost function Snapshot(): State
      reads this, buttons, combos
    {
      State(buttons[..], combos[..])
    }

    /** `n` slots of a ring from `at` on, around its end. */
    static ghost function Slots(slots: seq<Event>, at: nat, n: nat): (q: seq<Event>)
      requires |slots| == QUEUE && n <= QUEUE
      ensures |q| == n
    {
      seq(n, i requires 0 <= i < n => slots[(at + i) % QUEUE])
    }

    static lemma OldestFirst(slots: seq<Event>, at: nat, n: nat)
      requires |slots| == QUEUE && at < QUEUE && 0 < n <= QUEUE
      ensures Slots(slots, at, n) == [slots[at]] + Slots(slots, (at + 1) % QUEUE, n - 1)
    {
      var all, later := Slots(slots, at, n), Slots(slots, (at + 1) % QUEUE, n - 1);
      forall i | 0 <= i < n - 1 ensures later[i] == all[i + 1] { SlotTurns(at, i); }
    }

    static lemma SlotTurns(at: nat, i: nat)
      requires at < QUEUE
      ensures ((at + 1) % QUEUE + i) % QUEUE == (at + (i + 1)) % QUEUE
    {
    }

    static lemma NewestLast(slots: seq<Event>, at: nat, n: nat, event: Event)
      requires |slots| == QUEUE && at < QUEUE && n < QUEUE
      ensures Slots(slots[(at + n) % QUEUE := event], at, n + 1) == Slots(slots, at, n) + [event]
    {
    }

    /** The events waiting in the ring, oldest first. */
    ghost function Queued(): (q: seq<Event>)
      requires ring.Length == QUEUE && count <= QUEUE
      reads this, ring
    {
      Slots(ring[..], head, count)
    }

    constructor (timing: Timing, defs: seq<Def>)
      requires |defs| <= COMBOS
      ensures Valid() && fresh(buttons) && fresh(combos) && fresh(ring)
      ensures Snapshot() == FRESH && Queued() == [] && this.timing == timing && this.defs == defs
    {
      this.timing, this.defs, head, count := timing, defs, 0, 0;
      buttons := new Button[BUTTONS](_ => FRESH_BUTTON);
      combos := new Progress[COMBOS](_ => Progress(0, 0, false));
      ring := new Event[QUEUE](_ => Combo(0, []));
    }

    /** New definitions: matcher progress and chord marks are dropped, held buttons are not. */
    method SetConfig(timing: Timing, defs: seq<Def>)
      requires Valid() && |defs| <= COMBOS
      modifies this`timing, this`defs, buttons, combos
      ensures Valid() && this.timing == timing && this.defs == defs
      ensures combos[..] == FRESH.combos && forall i :: 0 <= i < BUTTONS ==> buttons[i] == old(buttons[i]).(consumed := false)
    {
      this.timing, this.defs := timing, defs;
      for k := 0 to COMBOS
        invariant this.timing == timing && this.defs == defs
        invariant forall i :: 0 <= i < k ==> combos[i] == Progress(0, 0, false)
        invariant forall i :: 0 <= i < BUTTONS ==> buttons[i] == old(buttons[i])
      {
        combos[k] := Progress(0, 0, false);
      }
      for b := 0 to BUTTONS
        invariant this.timing == timing && this.defs == defs
        invariant forall i :: 0 <= i < COMBOS ==> combos[i] == Progress(0, 0, false)
        invariant forall i :: 0 <= i < b ==> buttons[i] == old(buttons[i]).(consumed := false)
        invariant forall i :: b <= i < BUTTONS ==> buttons[i] == old(buttons[i])
      {
        buttons[b] := buttons[b].(consumed := false);
      }
    }

    method DoEnqueue(event: Event)
      requires Valid()
      modifies this`count, ring
      ensures Valid() && Queued() == Enqueue(old(Queued()), [event])
    {
      hide Slots;
      if count >= QUEUE { return; }
      NewestLast(ring[..], head, count, event);
      ring[(head + count) % QUEUE] := event;
      count := count + 1;
    }

    method PopEvent() returns (ok: bool, event: Event)
      requires Valid()
      modifies this`head, this`count
      ensures Valid() && ok == (old(Queued()) != [])
      ensures ok ==> old(Queued()) == [event] + Queued()
      ensures !ok ==> Queued() == []
    {
      hide Slots;
      if count == 0 { return false, Combo(0, []); }
      OldestFirst(ring[..], head, count);
      ok, event := true, ring[head];
      head := (head + 1) % QUEUE;
      count := count - 1;
    }

    // ---------- the matchers ----------

    /** What a matcher step does to the ring: each emission is enqueued in turn. */
    method MatchStep(k: nat, button: nat, now: nat)
      requires Valid() && k < |defs|
      modifies this`count, combos, ring
      ensures var r := MatchOne(defs, old(Snapshot()), k, button, now);
              Valid() && Snapshot() == r.0 && Queued() == Enqueue(old(Queued()), r.1)
    {
      if defs[k].kind.Sequence? && defs[k].buttons != [] {
        ghost var before := Snapshot();
        var fired := Fires(defs[k], combos[k], button, now);
        MatchInPlace(k, button, now);
        assert Snapshot() == MatchOne(defs, before, k, button, now).0;
        if fired { DoEnqueue(Combo(k, defs[k].actions)); }
      }
    }

    method HandleSequencePress(button: nat, now: nat)
      requires Valid()
      modifies this`count, combos, ring
      ensures var r := MatchFrom(defs, old(Snapshot()), 0, button, now);
              Valid() && Snapshot() == r.0 && Queued() == Enqueue(old(Queued()), r.1)
    {
      ghost var rest := MatchFrom(defs, Snapshot(), 0, button, now);
      ghost var target, queue := rest.0, Enqueue(Queued(), rest.1);
      for k := 0 to |defs|
        invariant Valid() && rest == MatchFrom(defs, Snapshot(), k, button, now)
        invariant rest.0 == target && Enqueue(Queued(), rest.1) == queue
      {
        ghost var first := MatchOne(defs, Snapshot(), k, button, now).1;
        ghost var queued := Queued();
        MatchStep(k, button, now);
        rest := MatchFrom(defs, Snapshot(), k + 1, button, now);
        EnqueueAppend(queued, first, rest.1);
      }
    }

    static lemma {:induction false} EnqueueAppend(queued: seq<Event>, a: seq<Event>, b: seq<Event>)
      ensures Enqueue(queued, a + b) == Enqueue(Enqueue(queued, a), b)
      decreases |a|
    {
      if a == [] {
        assert a + b == b;
      } else {
        assert (a + b)[1..] == a[1..] + b;
        EnqueueAppend(if |queued| < QUEUE then queued + [a[0]] else queued, a[1..], b);
      }
    }

    /** One sequence's record, step by step as the firmware updates it. */
    method MatchInPlace(k: nat, button: nat, now: nat)
      requires Valid() && k < |defs| && defs[k].buttons != []
      modifies combos
      ensures Valid() && combos[k] == Match(defs[k], old(combos[k]), button, now)
      ensures forall i :: 0 <= i < COMBOS && i != k ==> combos[i] == old(combos[i])
    {
      var def, st := defs[k], combos[k];
      if st.count > 0 && now - st.start >= def.windowMs { st := st.(count := 0); }
      if def.buttons[st.count] == button {
        if st.count == 0 { st := st.(start := now); }
        st := if st.count + 1 >= |def.buttons| then st.(count := 0) else st.(count := st.count + 1);
      } else {
        st := st.(count := if def.buttons[0] == button then 1 else 0);
        if st.count == 1 { st := st.(start := now); }
      }
      combos[k] := st;
    }

    /** Is the whole chord held, and was it pressed within its window? */
    method ChordHeld(members: seq<nat>, windowMs: nat) returns (down: bool, together: bool)
      requires Valid() && members != []
      ensures down == AllDown(buttons[..], members)
      ensures down ==> together == Together(buttons[..], members, windowMs)
    {
      var min, max := 0, 0;
      for k := 0 to |members|
        invariant forall i :: 0 <= i < k ==> members[i] < BUTTONS && buttons[members[i]].stable
        invariant forall i :: 0 <= i < k ==> min <= buttons[members[i]].pressStart <= max
        invariant k > 0 ==> exists i :: 0 <= i < k && buttons[members[i]].pressStart == min
        invariant k > 0 ==> exists i :: 0 <= i < k && buttons[members[i]].pressStart == max
      {
        var b := members[k];
        if b >= BUTTONS || !buttons[b].stable { return false, false; }
        var start := buttons[b].pressStart;
        if k == 0 {
          min, max := start, start;
        } else {
          if start < min { min := start; }
          if start > max { max := start; }
        }
      }
      return true, max - min <= windowMs;
    }

    method MarkConsumed(members: seq<nat>)
      requires Valid()
      modifies buttons
      ensures Valid() && buttons[..] == Consume(old(buttons[..]), members)
    {
      for k := 0 to |members|
        invariant Valid()
        invariant forall i :: 0 <= i < BUTTONS ==>
                    buttons[i] == if i in members[..k] then old(buttons[i]).(consumed := true) else old(buttons[i])
      {
        if members[k] < BUTTONS { buttons[members[k]] := buttons[members[k]].(consumed := true); }
      }
      assert members[..|members|] == members;
    }

    method ChordStep(k: nat)
      requires Valid() && k < |defs|
      modifies this`count, buttons, combos, ring
      ensures var r := ChordOne(defs, old(Snapshot()), k);
              Valid() && Snapshot() == r.0 && Queued() == Enqueue(old(Queued()), r.1)
    {
      if defs[k].kind.Chord? && defs[k].buttons != [] {
        var down, together := ChordHeld(defs[k].buttons, defs[k].windowMs);
        ghost var before := Snapshot();
        if !down {
          combos[k] := combos[k].(fired := false);
          assert Snapshot() == ChordOne(defs, before, k).0;
        } else if !combos[k].fired && together {
          MarkConsumed(defs[k].buttons);
          DoEnqueue(Combo(k, defs[k].actions));
          combos[k] := combos[k].(fired := true);
          assert Snapshot() == ChordOne(defs, before, k).0;
        }
      }
    }

    method HandleChordState()
      requires Valid()
      modifies this`count, buttons, combos, ring
      ensures var r := ChordsFrom(defs, old(Snapshot()), 0);
              Valid() && Snapshot() == r.0 && Queued() == Enqueue(old(Queued()), r.1)
    {
      ghost var rest := ChordsFrom(defs, Snapshot(), 0);
      ghost var target, queue := rest.0, Enqueue(Queued(), rest.1);
      for k := 0 to |defs|
        invariant Valid() && rest == ChordsFrom(defs, Snapshot(), k)
        invariant rest.0 == target && Enqueue(Queued(), rest.1) == queue
      {
        ghost var first := ChordOne(defs, Snapshot(), k).1;
        ghost var queued := Queued();
        ChordStep(k);
        rest := ChordsFrom(defs, Snapshot(), k + 1);
        EnqueueAppend(queued, first, rest.1);
      }
    }

    // ---------- a poll ----------

    /** Debounce and gestures of one button, step by step as the firmware does them. */
    method PollButtonInPlace(b: nat, now: nat, raw: bool) returns (gestures: seq<Gesture>)
      requires Valid() && b < BUTTONS
      modifies buttons
      ensures Valid()
      ensures (buttons[b], gestures) == PollButton(timing, old(buttons[b]), now, raw)
      ensures forall i :: 0 <= i < BUTTONS && i != b ==> buttons[i] == old(buttons[i])
    {
      var st := buttons[b];
      var first, second, third := [], [], [];
      if raw != st.raw {
        st := st.(raw := raw, rawChange := now);
      } else if st.raw != st.stable && now - st.rawChange >= timing.debounceMs {
        st := st.(stable := st.raw);
        if st.stable {
          st := st.(pressStart := now, longFired := false, consumed := false);
        } else if !st.longFired {
          if st.pending && !(now - st.lastRelease >= timing.gapMs + 1) {
            first := [Double];
            st := st.(pending := false);
          } else {
            st := st.(pending := true, lastRelease := now);
          }
        }
      }
      assert (st, first) == Debounce(timing, buttons[b], now, raw);
      if st.stable && !st.longFired && now - st.pressStart >= timing.longMs {
        st := st.(longFired := true, pending := false);
        second := [Long];
      }
      if st.pending && now - st.lastRelease >= timing.gapMs {
        st := st.(pending := false);
        third := [Short];
      }
      buttons[b] := st;
      gestures := first + second + third;
    }

    method PollOne(b: nat, now: nat, raw: bool)
      requires Valid() && b < BUTTONS
      modifies this`count, buttons, combos, ring
      ensures var r := PollAt(timing, defs, old(Snapshot()), b, now, raw);
              Valid() && Snapshot() == r.0 && Queued() == Enqueue(old(Queued()), r.1)
    {
      ghost var before, queued := Snapshot(), Queued();
      var gestures := PollButtonInPlace(b, now, raw);
      assert Snapshot() == before.(buttons := before.buttons[b := buttons[b]]);
      if gestures != [] {
        var suppressed := buttons[b].consumed;
        ghost var event := Pressed(b, gestures[0], suppressed);
        assert PressEvents(b, gestures, suppressed) == [event];
        DoEnqueue(Pressed(b, gestures[0], suppressed));
        assert Short in gestures <==> gestures[0] == Short;
        if gestures[0] == Short {
          ghost var fired := MatchFrom(defs, Snapshot(), 0, b, now).1;
          EnqueueAppend(queued, [event], fired);
          HandleSequencePress(b, now);
        } else {
          assert [event] + [] == [event];
        }
      } else {
        assert PressEvents(b, gestures, buttons[b].consumed) + [] == [];
      }
    }

    /** One turn of the button loop: what the rest of the poll will do stays the same. */
    method PollNext(b: nat, now: nat, raws: seq<bool>)
      requires Valid() && |raws| == BUTTONS && b < BUTTONS
      modifies this`count, buttons, combos, ring
      ensures Valid()
      ensures var was, is_ := PollFrom(timing, defs, old(Snapshot()), b, now, raws), PollFrom(timing, defs, Snapshot(), b + 1, now, raws);
              is_.0 == was.0 && Enqueue(Queued(), is_.1) == Enqueue(old(Queued()), was.1)
    {
      ghost var first := PollAt(timing, defs, Snapshot(), b, now, raws[b]);
      EnqueueAppend(Queued(), first.1, PollFrom(timing, defs, first.0, b + 1, now, raws).1);
      PollOne(b, now, raws[b]);
    }

    method PollButtons(now: nat, raws: seq<bool>)
      requires Valid() && |raws| == BUTTONS
      modifies this`count, buttons, combos, ring
      ensures var r := PollFrom(timing, defs, old(Snapshot()), 0, now, raws);
              Valid() && Snapshot() == r.0 && Queued() == Enqueue(old(Queued()), r.1)
    {
      hide PollFrom, Enqueue, Slots;
      ghost var whole := PollFrom(timing, defs, Snapshot(), 0, now, raws);
      ghost var target, queue := whole.0, Enqueue(Queued(), whole.1);
      for b := 0 to BUTTONS
        invariant Valid()
        invariant var rest := PollFrom(timing, defs, Snapshot(), b, now, raws);
                  rest.0 == target && Enqueue(Queued(), rest.1) == queue
      {
        PollNext(b, now, raws);
      }
      PollEnds(timing, defs, Snapshot(), now, raws, Queued());
    }

    static lemma PollEnds(t: Timing, defs: seq<Def>, s: State, now: nat, raws: seq<bool>, queue: seq<Event>)
      requires s.Valid(defs) && |raws| == BUTTONS
      ensures PollFrom(t, defs, s, BUTTONS, now, raws) == (s, []) && Enqueue(queue, []) == queue
    {
    }

    method DoPoll(now: nat, raws: seq<bool>)
      requires Valid() && |raws| == BUTTONS
      modifies this`count, buttons, combos, ring
      ensures var r := Poll(timing, defs, old(Snapshot()), now, raws);
              Valid() && Snapshot() == r.0 && Queued() == Enqueue(old(Queued()), r.1)
    {
      hide PollFrom, ChordsFrom, Slots;
      ghost var presses := PollFrom(timing, defs, Snapshot(), 0, now, raws);
      EnqueueAppend(Queued(), presses.1, ChordsFrom(defs, presses.0, 0).1);
      PollButtons(now, raws);
      HandleChordState();
    }
  }
}
