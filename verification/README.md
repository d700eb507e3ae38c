# MOTO-CTRL: verified model of the switch-box firmware core

MOTO-CTRL replaces the wiring and the key of a motorcycle: twelve switched outputs, eight
handlebar buttons, an immobilizer with a cheat-code, diagnostics, firmware updates over an
authenticated link, and a phone app at the other end of it. This project models the portable
core of the firmware and the protocol loops of the app, and proves what they promise.

## How it is organised

State that the firmware updates in place is a class, and each of its methods is proved
against a function on values. The safety theorems are about those functions, over every
interleaving of every operation, and carry back to the objects.

| files | what they hold |
|---|---|
| `Output`, `OutputEngine`, `OutputSafety`, `OutputLaws`, `OutputConfig`, `Ledc`, `Pins` | the output engine as a value and as an object, what every run of it keeps, what a channel does by its roles, the configuration check, the pins below it |
| `Lock`, `LockEngine`, `LockSafety`, `LockLaws`, `LockBudget`, `LockEntry` | the immobilizer, its coupling with the outputs, what it promises the rider, the guessing budget, the way in without a phone |
| `Diag`, `DiagLaws` | round-robin sampling, and the two hysteresis decisions over whole runs |
| `Input`, `InputEngine`, `InputFairness`, `InputGestures`, `InputPresses`, `InputChords` | debounce and gestures, chords and sequences, the event ring |
| `AppTask`, `AppObject`, `AppLaws` | one pass of the main loop over all four objects, from power-on, and what each button does |
| `Hashing`, `Sha1` | streaming SHA-512 over an abstract compression function, and SHA-1 in full |
| `Ota`, `Release` | firmware updates from the signing tool through the app to flash |
| `EventLog`, `ConfigTransfer` | the event ring and its reply loop, chunked configuration transfer |
| `ConfigJson`, `ConfigLaws`, `ConfigKeys` | the configuration document as a tree, and what each key of it reaches |
| `Base64`, `WebSocket`, `Bytes`, `FormatLaws`, `Time` | codecs, their standards, and the 32-bit clock |

The end of the chain is `AppObject.BootAndRun`: objects brought up from persisted data and
driven through any number of main-loop passes satisfy the coupling of lock and outputs,
starter safety, turn and pair exclusion and signal expiry.

`dafny verify dfyconfig.toml` checks everything.

## What the proofs found

Where a property does not hold of the code, the code is modelled as it is and the exact
condition is proved.

- Rebooting in the middle of hazards brings both turn signals up lit, because the commanded
  states are persisted and the hazard flag is not (`LockSafety.RebootMidHazards`).
- A power cut opens a LOCKED bike if its ignition channel is a hazard member that running
  hazards hold lit: it then boots as if the key had been left on. With any other ignition
  channel it comes up LOCKED again (`LockLaws.PowerCutKeepsLock`).
- A chord is meant to silence every later press event of the hold it fired in. One escapes: let
  go and pressed again within the double-press gap and then held, a button is told as short for
  the chord's hold, unsuppressed, because the second press-down clears the mark
  (`InputChords.ChordPressEscapes`; `InputChords.SuppressedExactly` says exactly when).
- The entry window runs from the first press, and the configuration check does not look at
  it. Without the switch method a rider gets in exactly if the code takes less than the window
  at the rider's pace (`LockEntry.WayInExactly`); with a window of zero, which is accepted,
  nobody does (`LockEntry.ZeroWindowLocksOut`).
- A sequence whose first button recurs before its last position can miss a pattern during
  which it has not fired, because a mismatch or a timeout does not look back: [A, A, B] can be
  missed (`InputGestures.QuietOccurrencesFireExactly`). If the first button recurs only at the
  end, as in [A, A] or [A, B, A], only an occurrence overlapping one that fired is missed
  (`InputGestures.CompleteExactly`).
- A client that asks for the event log never gets an answer if one write in the window
  failed, because the announced total counts failed writes (`EventLog.GetEventLog`).
- An action id strictly between 0 and 1 is stored as 0, printed as 0 and dropped on the next
  read, so exactly the documents with one do not survive a save (`ConfigLaws.SurvivesSaveExactly`).
- A backoff that ends past the wrap of the millisecond counter is over at once. One that ends
  just before the wrap and is first looked at after it stays for another 49.7 days, and every
  code press is refused until then (`Time.BackoffAgrees`, `Time.BackoffStuckAtWrap`).
- An auto-cancel deadline that falls on a multiple of the wrap is taken for none
  (`Time.DeadlineAgrees`).
- The wrap of the 16-bit wrong-code counter does not help a guesser: the budget holds with it.
- `mc_ota.h` says that a committed transfer can fail into the error state. In the code every
  operation on it but abort and reboot answers BAD_STATE and changes nothing.

## Hypotheses the theorems state

Role hypotheses are named predicates: `OutputSafety.StarterOnlyCommanded` (no starter is a
hazard member or follows the ignition), `OutputSafety.OneEachSide` (one indicator a side, both
or neither in the hazard group, neither following the ignition), `OutputSafety.CommandedPair`
(a reciprocal pair that only commands can light) and `OutputSafety.Cancels` (auto-cancel set,
no indicator following the ignition). `mc_output_config_validate` does not enforce the first,
second and fourth. A configuration import is not part of runs, because it can change roles
under a lit channel; `OutputObject.OutputEngine.DoImport` says what it keeps. Runs use unbounded time;
`Time` says when the 32-bit tests agree with it.

## Model

| member | source | states |
|---|---|---|
| OutputObject.OutputEngine.constructor | firmware/components/core/mc_output.c:34-41 | booting takes the persisted commanded states over zeroed flags and timers |
| OutputObject.OutputEngine.BlinkPhase | firmware/components/core/mc_output.c:52-63 | the blink phase by division and remainder is the alternation of lit and dark half periods; a zero half period is always lit |
| OutputObject.BlinkLitIsPhase | firmware/components/core/mc_output.c:52-63 | lit exactly in the even half periods since time zero |
| OutputObject.OutputEngine.BurstPhase | firmware/components/core/mc_output.c:94-109 | the attention burst: lit in the on part of each of the counted pulses, then solid, and solid at once with no pulses configured |
| OutputObject.BurstLitIsPhase | firmware/components/core/mc_output.c:101-108 | the pulse-by-pulse burst is the total-length test and the remainder test of the code |
| OutputObject.OutputEngine.ComputeDrivenOn | firmware/components/core/mc_output.c:65-113 | whether a channel is driven: hazards override its own behaviour, a burst counts from its own start |
| OutputObject.OutputEngine.ActualState | firmware/components/core/mc_output.c:384-393 | what a channel is actually doing, low-voltage suppression included; nothing for a channel that does not exist |
| OutputObject.OutputEngine.ApplyHal | firmware/components/core/mc_output.c:119-136 | one pin becomes the pure level of its channel and no other pin changes |
| OutputObject.OutputEngine.RestoreFromConfig | firmware/components/core/mc_output.c:138-143 | after the restore every pin agrees with the pure level function |
| OutputObject.OutputEngine.SetRaw | firmware/components/core/mc_output.c:164-173 | one channel is set and driven, with a burst start on the off-to-on edge; nothing else changes |
| OutputObject.OutputEngine.DoEndHazards | firmware/components/core/mc_output.c:186-211 | every member but the excepted one gets back its remembered state, a restored indicator is re-armed, and what is lit is driven |
| OutputObject.OutputEngine.DoIgnitionOn | firmware/components/core/mc_output.c:221-233 | the companions of the key light, without a timer, and pins of channels already lit are untouched |
| OutputObject.OutputEngine.DoIgnitionOff | firmware/components/core/mc_output.c:251-264 | everything but the ignition channel goes out and the hazards end |
| OutputObject.OutputEngine.DoDropOpposite | firmware/components/core/mc_output.c:310-320 | lighting a turn signal puts the first channel of the other side out and forgets its timer |
| OutputObject.OutputEngine.DoDropPartner | firmware/components/core/mc_output.c:322-332 | lighting one member of a pair puts its partner out |
| OutputObject.OutputEngine.DoSettle | firmware/components/core/mc_output.c:334-340 | the commanded channel takes its state and its timer |
| OutputObject.OutputEngine.DoCommand | firmware/components/core/mc_output.c:298-353 | an accepted command: hazards ended, opposite and partner out, the channel set, the ignition edge last |
| OutputObject.OutputEngine.DoSet | firmware/components/core/mc_output.c:266-354 | the reply and the whole new state of a set command, and that newly lit channels are driven |
| OutputObject.OutputEngine.DoAlternatePress | firmware/components/core/mc_output.c:356-374 | an alternate press lights the other member of a mutual pair or is refused |
| OutputObject.OutputEngine.DoHazardPress | firmware/components/core/mc_output.c:395-436 | hazards start by remembering every member or stop by giving the states back |
| OutputObject.OutputEngine.DoTick | firmware/components/core/mc_output.c:438-453 | due indicators go out, and afterwards every pin equals the pure level function of configuration, hazards, burst, cutoff and time |
| OutputObject.OutputEngine.DoSetEngineRunning | firmware/components/core/mc_output.c:455-479 | a starter that is on goes off on the edge to engine running |
| OutputObject.OutputEngine.SetInterlock | firmware/components/core/mc_output.c:481-484 | the interlock is remembered and nothing else |
| OutputObject.OutputEngine.SetImmobilized | firmware/components/core/mc_output.c:486-489 | the inhibit is remembered and nothing else |
| OutputObject.OutputEngine.SetCutoff | firmware/components/core/mc_output.c:491-500 | a change of the cutoff re-drives every pin |
| OutputObject.OutputEngine.DoImport | firmware/components/core/mc_session.c:752-771 | a committed import keeps every commanded state and pin; the object invariant still says that a channel not commanded on has a low pin |
| OutputConfig.Validate | firmware/components/core/mc_output.c:546-603 | each problem is reported exactly when the configuration has it |
| OutputConfig.AcceptedPairsKeepApart | firmware/components/core/mc_output.c:568-587 | a pair that passed the check and that only commands can light never has both members lit, over any run |
| OutputSafety.StarterSafeKept | firmware/components/core/mc_output.c:145-157 | no operation breaks: engine running means no starter commanded on |
| OutputSafety.RunStarterSafe | firmware/components/core/mc_output.c:266-296 | the same over every run |
| OutputSafety.RemoteNeverCranks | firmware/components/core/mc_output.c:145-149 | no remote set or alternate press turns a starter from off to on |
| OutputSafety.SidesExclusiveKept | firmware/components/core/mc_output.c:306-320 | no operation breaks: both sides are lit only during hazards and the remembered states never hold both |
| OutputSafety.RunSidesExclusive | firmware/components/core/mc_output.c:395-436 | the same over every run |
| OutputSafety.NotBothKept | firmware/components/core/mc_output.c:326-332 | no operation lights both members of a reciprocal pair that only commands can light |
| OutputSafety.RunNotBoth | firmware/components/core/mc_output.c:568-587 | the same over every run |
| OutputSafety.AlternateLandsOnOne | firmware/components/core/mc_output.c:356-374 | a successful alternate press leaves exactly one member lit, the other one than before; a refused one changes nothing |
| OutputSafety.SavedFrozen | firmware/components/core/mc_output.c:395-420 | while hazards stay on, the remembered states do not change |
| OutputSafety.HazardsGiveBack | firmware/components/core/mc_output.c:186-211 | pressing hazards again while still active restores every member to its pre-hazard state and re-arms what it relights |
| OutputSafety.CommandRearms | firmware/components/core/mc_output.c:298-340 | a command sets the timer of the channel it lights and of what it brings back from the hazards, and touches no other signal |
| OutputSafety.DeadlineMovesOnlyWhenArmed | firmware/components/core/mc_output.c:334-340 | whatever the operation, the deadline of a signal that is lit afterwards is the old one, or the auto-cancel time after this operation if that armed this very signal |
| OutputSafety.ArmedKept | firmware/components/core/mc_output.c:334-340 | no operation breaks: every indicator lit outside hazards has as its deadline its own last arming plus the auto-cancel time, and the latest tick is before it |
| OutputSafety.RunArmed | firmware/components/core/mc_output.c:438-453 | the same over every timed run, the last armings followed operation by operation |
| OutputSafety.SignalExpires | firmware/components/core/mc_output.c:443-449 | over operations that spare this signal, whatever they do to others, it is lit at the end exactly when no tick reached its deadline |
| OutputSafety.NoSignalOutlivesAutoCancel | firmware/components/core/mc_output.c:429-448 | after any timed run a signal that is lit was last armed less than the auto-cancel time before the latest tick |
| OutputSafety.GoneAfterLastArming | firmware/components/core/mc_output.c:438-453 | after any run, and then any operations that do not arm the signal again, it is out once a tick came at or past its last arming plus the auto-cancel time |
| OutputLaws.CutoffSparesEssential | firmware/components/core/include/mc_output.h:418-428 | a low battery never changes what an essential channel, the ignition or the brake light shows, and darkens every other channel |
| OutputLaws.PlainShines | firmware/components/core/mc_output.c:119-136 | a lit toggle or momentary channel shows its duty, or full on, steadily |
| OutputLaws.BlinksInStep | firmware/components/core/mc_output.c:65-86 | a blinking channel, and every hazard member during hazards whatever its own behaviour, is dark exactly in the odd half periods |
| OutputLaws.FlashesThenShines | firmware/components/core/mc_output.c:87-109 | a flasher is dark exactly in the off parts of its counted pulses since it was lit |
| OutputLaws.TickShows | firmware/components/core/mc_output.c:438-453 | after a tick every pin shows that, the cutoff and the three flags spelled out |
| OutputLaws.CutoffShows | firmware/components/core/mc_output.c:491-500 | and at once after every change of the cutoff |
| OutputLaws.AcceptedExactly | firmware/components/core/mc_output.c:266-296 | switching off is never refused; switching on exactly while immobilized, and a starter exactly from the app, with the engine running or against its interlock |
| OutputLaws.SetReaches | firmware/components/core/mc_output.c:334-340 | an accepted command ends with its channel as commanded, a refused one as it was |
| OutputLaws.CommandSpares | firmware/components/core/mc_output.c:298-353 | short of the key, a command leaves every channel that is not its opposite or partner exactly as it was, timers included |
| OutputLaws.PartnerGoesOut | firmware/components/core/mc_output.c:322-332 | lighting one member of a pair puts the other out |
| OutputLaws.OppositeGoesOut | firmware/components/core/mc_output.c:310-320 | lighting a turn signal puts the first channel of the other side out and stops its timer |
| OutputLaws.BurstStartsWhenLit | firmware/components/core/mc_output.c:164-173 | a flasher starts its burst when it is lit and not when it is commanded again |
| OutputLaws.KeyOffDarkens | firmware/components/core/mc_output.c:235-264 | turning the key off ends the hazards and puts out every other channel, whatever lit it, with its timer |
| OutputLaws.KeyOnLights | firmware/components/core/mc_output.c:213-233 | turning it on lights exactly the channels that follow the key besides what was lit, and disturbs none of those |
| OutputLaws.HazardsLightMembers | firmware/components/core/mc_output.c:395-436 | starting the hazards lights every member and nothing else and remembers exactly what was lit |
| OutputLaws.HazardsEndGivesBack | firmware/components/core/mc_output.c:186-211 | ending them gives every member back what it was and leaves the others alone |
| OutputLaws.TickPutsOutTheDue | firmware/components/core/mc_output.c:443-449 | a tick puts out exactly the channels whose deadline has come |
| OutputLaws.StartedEngineDropsStarters | firmware/components/core/mc_output.c:455-479 | the engine starting puts out the starters and nothing else |
| LockSafety.RebootMidHazards | firmware/components/core/mc_output.c:138-143 | a reboot in the middle of hazards brings both sides up lit; a boot keeps the sides apart exactly when the persisted states do not hold both |
| Ledc.OutputHal.constructor | firmware/main/output_hal_gpio.c:76-88 | nothing attached, everything dark |
| Ledc.OutputHal.Attach | firmware/main/output_hal_gpio.c:92-144 | attaching keeps both slot maps inverse to each other and fails only without a free slot or when the peripheral refuses |
| Ledc.OutputHal.Set | firmware/main/output_hal_gpio.c:152-189 | the load is full on or dark, through whichever of pin and peripheral owns it, and no other load changes |
| Ledc.OutputHal.SetDuty | firmware/main/output_hal_gpio.c:191-213 | the load sees the duty, or full on when no slot is free; a legal duty is never dark |
| Ledc.OutputHal.DrivePin | firmware/components/core/mc_output.c:119-136 | the load is dark exactly when the engine asked for low |
| Pins.TickDown | firmware/components/core/mc_output.c:438-453 | after a tick with an accepted configuration a load is dark exactly when the pure level function says low, down through the LEDC layer, whatever the peripheral refused |
| Ledc.AtMostEightAttached | firmware/main/output_hal_gpio.c:65-74 | never more than eight outputs are attached |
| LockObject.LockUnit.constructor | firmware/components/core/mc_lock.c:177-184 | a fresh lock over its configuration |
| LockObject.LockUnit.ForceOffOnLock | firmware/components/core/mc_lock.c:35-47 | everything that is not a running hazard goes off |
| LockObject.LockUnit.DoEnterLocked | firmware/components/core/mc_lock.c:69-83 | locking sets the flag and the inhibit and darkens the bike |
| LockObject.LockUnit.DoRelease | firmware/components/core/mc_lock.c:116-134 | leaving LOCKED lifts the inhibit and forgets entry, counter and backoff |
| LockObject.LockUnit.DoEnterUnlocked | firmware/components/core/mc_lock.c:85-114 | unlocking turns the ignition channel on |
| LockObject.LockUnit.DoInit | firmware/components/core/mc_lock.c:177-219 | the boot decision: a persisted lock holds unless the ignition was left on |
| LockObject.LockUnit.DoTimers | firmware/components/core/mc_lock.c:221-235 | backoff end, quiet-period forgiveness and entry timeout |
| LockObject.LockUnit.DoTick | firmware/components/core/mc_lock.c:221-312 | one tick: timers, the ignition-switch edge, then the parked and auto-lock automaton |
| LockObject.LockUnit.DoRequestLock | firmware/components/core/mc_lock.c:316-329 | a lock request is honoured only when standing |
| LockObject.LockUnit.DoRequestUnlock | firmware/components/core/mc_lock.c:331-342 | a phone unlock needs the phone method |
| LockEntry.OnlyTheStoredCode | firmware/components/core/mc_lock.c:346-361 | from the storing of a code until it is replaced, erased or transferred away, over any operations, the test accepts exactly that code, up to a collision of the hash |
| LockEntry.OnlyTheStoredCodeOpens | firmware/components/core/mc_lock.c:363-402 | so a press opens by the code exactly when the bike is locked, no backoff runs, and the press completes the stored code |
| LockObject.LockUnit.DoCodePress | firmware/components/core/mc_lock.c:363-415 | a press is buffered, evaluated at full length, and a wrong code counts and may start a backoff |
| LockObject.LockUnit.DoSetCode | firmware/components/core/mc_lock.c:417-449 | a code of 4 to 10 presses is stored as salt and hash |
| LockObject.LockUnit.DoClearCode | firmware/components/core/mc_lock.c:451-464 | a code cannot be cleared while the immobilizer is enabled |
| LockObject.LockUnit.DoApplySettings | firmware/components/core/mc_lock.c:468-498 | a configuration without a fallback or an ignition channel is refused with its reasons |
| LockObject.LockUnit.DoTransfer | firmware/components/core/mc_lock.c:500-506 | an ownership transfer disables and forgets |
| LockSafety.CoupledKept | firmware/components/core/mc_lock.c:69-134 | no operation breaks: LOCKED iff flag iff inhibit, DISABLED iff off, and while LOCKED only hazard members are commanded on |
| LockSafety.CoupledAlways | firmware/components/core/mc_lock.c:177-219 | the same in every state any interleaving reaches from power-on |
| LockSafety.LockedOnlyWhenStanding | firmware/components/core/mc_lock.c:221-329 | LOCKED is entered only with the engine not running and the ignition off |
| LockSafety.BootsLockedOnlyWhenStanding | firmware/components/core/mc_lock.c:177-219 | so is a boot into LOCKED |
| LockSafety.LockingKeepsHazards | firmware/components/core/mc_lock.c:35-47 | however the bike gets locked, by request or by the grace timer, hazards that were running keep running, every member unchanged |
| LockSafety.SystemRunsTheEngine | firmware/components/core/mc_lock.c:35-134 | any run of lock and outputs is, to the outputs, a run of their own operations, so what those keep the whole keeps |
| LockSafety.StarterSafeAlways | firmware/components/core/mc_output.c:455-479 | starter safety in every state reached from power-on |
| LockSafety.SidesExclusiveAlways | firmware/components/core/mc_output.c:306-320 | turn exclusion in every state reached from power-on |
| LockSafety.PairExclusiveAlways | firmware/components/core/mc_output.c:322-332 | pair exclusion in every state reached from power-on |
| LockSafety.DeadlineMovesOnlyWhenArmed | firmware/components/core/mc_lock.c:69-134 | nothing the lock does moves a signal's deadline either, except by lighting it or by turning the key on its own channel |
| LockSafety.ArmedAlways | firmware/components/core/mc_output.c:438-453 | in every state reached from power-on, at whatever tick, a signal that is lit was last armed less than the auto-cancel time before |
| LockBudget.BudgetOverRuns | firmware/components/core/mc_lock.c:57-67 | the potential over the wrong-code counter that carries the budget, the 16-bit counter wrapping included |
| LockBudget.BackoffBudget | firmware/components/core/mc_lock.c:221-234 | in every run that stays LOCKED from a zero counter, N wrong codes spanning T ms satisfy 345000 N <= 8 T + 2400000 |
| LockBudget.BudgetIsTight | firmware/components/core/mc_lock.c:7-11 | a run in time order with eight wrong codes in 45 s reaches that bound with equality |
| LockEntry.FallbackOverRuns | firmware/components/core/mc_lock.c:150-173 | every run keeps a way in that needs no phone: a switch or a known code |
| LockEntry.UnlockTurnsKey | firmware/components/core/mc_lock.c:85-114 | unlocking ends with the ignition and every channel that follows it lit |
| LockEntry.WayInExactly | firmware/components/core/mc_lock.c:302-310 | a rider who needs some time from press to press has a way in at the bike, key on, exactly when the switch method is on or the whole code fits the entry window at that pace |
| LockEntry.TooSlowLocksOut | firmware/components/core/mc_lock.c:383-390 | at a slower pace, and without the switch, no finite run at the bike ever unlocks |
| LockEntry.NeverLockedOut | firmware/components/core/mc_lock.c:468-483 | from any power-on with a valid configuration and any run, a LOCKED state opens for every rider whose pace fits |
| LockEntry.ZeroWindowLocksOut | firmware/components/core/mc_lock.c:468-498 | settings with a zero entry window are accepted from power-on, the bike locks, and then there is no way in at the bike at any pace |
| LockLaws.BootsLockedExactly | firmware/components/core/mc_lock.c:177-219 | a board boots LOCKED exactly when it is enabled, was LOCKED and the key was not left on; with the key left on it boots UNLOCKED with the corrected flag to be saved |
| LockLaws.BootsDarkWhenLocked | firmware/components/core/mc_lock.c:194-208 | a board that boots LOCKED boots dark, any other boot leaves the persisted states alone |
| LockLaws.PowerCutKeepsLock | firmware/components/core/mc_lock.c:190-208 | a LOCKED bike is LOCKED again after a power cut exactly when its ignition channel is not lit, so always if that is no hazard member |
| LockLaws.PowerCutAlwaysKeepsLock | firmware/components/core/mc_lock.c:177-219 | the same in every LOCKED state reached from any power-on through any run |
| LockLaws.PowerCutNeverLocks | firmware/components/core/mc_lock.c:209-219 | and a bike that was not LOCKED comes up open, lit as it was |
| LockLaws.LocksExactlyAfterGrace | firmware/components/core/mc_lock.c:284-300 | a bike left standing is LOCKED exactly once the grace time has passed since the first tick that saw it standing, whatever happens to the other outputs meanwhile |
| LockLaws.RidingUnparks | firmware/components/core/mc_lock.c:292-294 | riding off before that starts the grace time over |
| LockLaws.SwitchTurnsKeyOn | firmware/components/core/mc_lock.c:243-275 | outside LOCKED, moving the ignition switch on turns the key unless that is refused |
| LockLaws.SwitchOffDarkens | firmware/components/core/mc_lock.c:243-275 | moving it off puts the ignition out and darkens the bike, hazards and all |
| LockLaws.RestingSwitchIsSilent | firmware/components/core/mc_lock.c:249-262 | a switch that does not move does nothing |
| LockLaws.LockedSwitchOpens | firmware/components/core/mc_lock.c:302-310 | in LOCKED the switch opens exactly when it is on and a method |
| LockLaws.LockRequestExactly | firmware/components/core/mc_lock.c:316-329 | a lock request locks exactly a standing bike and says so |
| LockLaws.UnlockRequestExactly | firmware/components/core/mc_lock.c:331-342 | a phone opens exactly a bike that has the phone method |
| LockLaws.FaultlessIsSound | firmware/components/core/mc_lock.c:150-173 | the check passes exactly a configuration with a way in, an ignition channel and, if the switch is a method, a real input for it |
| LockLaws.SettingsApplyExactly | firmware/components/core/mc_lock.c:468-498 | sound settings are taken over whole with the stored code kept, others change nothing |
| LockLaws.ErasedCodeOpensNothing | firmware/components/core/mc_lock.c:451-464 | an erased code opens nothing |
| LockLaws.TransferIsAsNew | firmware/components/core/mc_lock.c:500-506 | a board that changed hands is disabled, open and set to the defaults |
| LockLaws.PersistentChangesAreDirty | firmware/components/core/mc_lock.c:69-134 | whatever changes the LOCKED flag or the configuration marks the lock to be saved, and no operation takes the mark off |
| LockLaws.WrongCodeShutsKeypad | firmware/components/core/mc_lock.c:49-67 | a wrong code counts, and shuts the keypad for 0, 15, 30 or 60 s: until then every press is turned away, and the first tick after opens it |
| LockLaws.QuietForgives | firmware/components/core/mc_lock.c:228-231 | five quiet minutes forgive every wrong code, and less forgives none |
| DiagLaws.CutoffIsHysteresis | firmware/components/core/mc_diag.c:166-185 | with the engine off, over any readings, the cutoff is on exactly when it was on or a reading was flat, and none since has recovered by a hysteresis width |
| DiagLaws.EngineIsHysteresis | firmware/components/core/mc_diag.c:136-164 | detected by voltage, the engine counts as running exactly when the battery was charging once, or it ran before, and has not dropped since |
| DiagLaws.KeyOffMeansNotRunning | firmware/components/core/mc_diag.c:144-162 | with the ignition off or without detection it never does |
| DiagLaws.SteadyChannelIsReported | firmware/components/core/mc_diag.c:94-122 | after twelve ticks a lit channel with a steady current shows that current and the report it deserves, and a dark one shows nothing, whatever the others do |
| Diag.Fairness | firmware/components/core/mc_diag.c:94-122 | a channel energised at twelve ticks in a row is sampled in one of them |
| Diag.NoChatter | firmware/components/core/mc_diag.c:166-185 | n cutoff toggles with the engine off cost battery movement of at least (n - 1) times the hysteresis |
| Diag.DiagUnit.Sample | firmware/components/core/mc_diag.c:94-122 | one energised channel is measured and classified, those passed over read zero, the rest keep their values |
| Diag.DiagUnit.UpdateEngine | firmware/components/core/mc_diag.c:136-164 | engine running from the battery and the key, pushed to the outputs |
| Diag.DiagUnit.UpdateCutoff | firmware/components/core/mc_diag.c:166-185 | the cutoff with its hysteresis, never with the engine running |
| Diag.DiagUnit.DoTick | firmware/components/core/mc_diag.c:85-186 | the whole tick, after which engine running excludes the cutoff and an ignition that is off excludes engine running |
| InputObject.InputEngine.constructor | firmware/components/core/mc_input.c:27-31 | a fresh engine with an empty queue |
| InputObject.InputEngine.SetConfig | firmware/components/core/mc_input.c:33-45 | new definitions forget combo progress and chord marks and nothing of the buttons |
| InputObject.InputEngine.DoEnqueue | firmware/components/core/mc_input.c:47-57 | the ring appends, and drops when full |
| InputObject.InputEngine.PopEvent | firmware/components/core/mc_input.c:59-68 | the ring gives its oldest event |
| InputObject.InputEngine.HandleSequencePress | firmware/components/core/mc_input.c:151-183 | every sequence sees the press in definition order |
| InputObject.InputEngine.HandleChordState | firmware/components/core/mc_input.c:185-234 | every chord is checked in definition order |
| InputObject.InputEngine.PollButtonInPlace | firmware/components/core/mc_input.c:244-291 | one button: debounce, long press, pending short |
| InputObject.InputEngine.DoPoll | firmware/components/core/mc_input.c:236-293 | a poll takes the buttons in order, then the chords, and queues what they emit |
| InputFairness.PollIgnoresCombos | firmware/components/core/mc_input.c:236-293 | two engines that differ only in their combos emit the same presses from the same samples |
| InputFairness.OnePollFits | firmware/components/core/mc_input.c:47-57 | a poll emits at most 16 events, so an emptied queue never overflows |
| InputFairness.NothingIsDropped | firmware/components/core/mc_input.c:47-68 | with the queue drained after each poll every event is delivered |
| InputFairness.CombosCannotStarve | firmware/components/core/mc_input.c:130-149 | over any samples the presses delivered do not depend on the combos configured |
| InputGestures.EdgeIsBacked | firmware/components/core/mc_input.c:240-250 | each debounced edge is backed by equal samples spanning at least the debounce time |
| InputGestures.NeverOvertold | firmware/components/core/mc_input.c:250-290 | long presses plus short ones plus twice the doubles plus what is open never exceed the press-downs |
| InputGestures.NothingLostAtFullRate | firmware/components/core/mc_input.c:250-290 | at polls at most 1 ms apart, with a long press longer than the double gap, they are equal |
| InputGestures.FiresOnlyOnPattern | firmware/components/core/mc_input.c:151-183 | a sequence fires only if the last short presses are its pattern, all within the window of the first |
| InputGestures.FiresOnPattern | firmware/components/core/mc_input.c:151-183 | it always fires on such an occurrence when its first button does not recur in it |
| InputGestures.CompleteExactly | firmware/components/core/mc_input.c:165-176 | it fires on every occurrence, overlapping ones included, exactly when its first button does not recur |
| InputGestures.QuietOccurrencesFireExactly | firmware/components/core/mc_input.c:160-181 | it fires on every occurrence during which it did not fire already exactly when its first button does not recur before the last position |
| InputChords.ChordFiresExactly | firmware/components/core/mc_input.c:185-234 | a chord that has not fired in this grip fires at a poll exactly when all its buttons are then down and were pressed within its window of one another |
| InputChords.FiresOncePerGrip | firmware/components/core/mc_input.c:210-233 | over any samples from power-on it fires at most once until one of its buttons is let go |
| InputChords.SuppressedExactly | firmware/components/core/mc_input.c:130-140 | over any samples from power-on, a press event is suppressed exactly when a chord that holds its button fired and the button was not pressed down again since |
| InputChords.ChordPressEscapes | firmware/components/core/mc_input.c:253-259 | the samples on which the short press of a chord's own hold comes unsuppressed |
| InputChords.PollIsInOrder | firmware/components/core/mc_input.c:236-293 | in a poll the presses come button by button and what the chords fire comes last |
| InputChords.QueueKeepsOlder | firmware/components/core/mc_input.c:47-57 | a full queue loses the newest events and never one it holds |
| InputChords.CombosCarryTheirActions | firmware/components/core/mc_input.c:142-149 | every combo event carries the actions of its own definition |
| InputPresses.HoldTellsLongOnce | firmware/components/core/mc_input.c:272-279 | held, a button is told as long once, when the threshold is reached |
| InputPresses.WaitTellsShortOnce | firmware/components/core/mc_input.c:281-289 | let go, a waiting press is told as short once, when the gap has passed |
| InputPresses.OnePressIsToldOnce | firmware/components/core/mc_input.c:236-290 | from rest, with bounce-free samples, one press is told as exactly one long press if it was held past the threshold, else as one short press after the gap |
| InputPresses.TwoQuickPressesAreADouble | firmware/components/core/mc_input.c:260-269 | two presses within the gap are told as one double and nothing else |
| AppLaws.LeftButtonSignalsLeft | firmware/main/main.c:273-281 | an unsuppressed, unmuted press bound to action 1 switches the left signal over, and lighting it puts the right one out |
| AppLaws.RightButtonSignalsRight | firmware/main/main.c:273-281 | bound to action 2, the right signal |
| AppLaws.HazardButton | firmware/main/main.c:283-285 | bound to action 3, the hazards, member by member |
| AppLaws.ChannelButton | firmware/main/main.c:245-256 | bound to 0x100 + c, channel c |
| AppLaws.PairButton | firmware/main/main.c:258-271 | bound to 0x200 + a, the pair of channel a |
| AppLaws.ToggleAction | firmware/main/main.c:245-256 | a momentary channel is left to its level |
| AppLaws.UnknownActions | firmware/main/main.c:286-288 | no other action id does anything |
| AppLaws.PressRunsItsBinding | firmware/main/main.c:302-317 | each gesture runs the list bound to it and to its button, a short press after the cheat-code has heard it |
| AppLaws.SilencedPress | firmware/main/main.c:433-443 | a suppressed or muted press moves no output, and a short one still reaches the cheat-code |
| AppLaws.ComboRunsItsList | firmware/main/main.c:444-455 | a combo runs its own list, capture or not |
| AppLaws.ListRunsInOrder | firmware/main/main.c:292-299 | a list runs left to right, each action on what the ones before it left |
| AppLaws.MomentaryFollowsHold | firmware/main/main.c:189-231 | a momentary channel is on exactly while a button whose long press lists it is held long or a chord that lists it is down, unless muted or refused |
| AppLaws.EveryMomentaryFollows | firmware/main/main.c:189-231 | after the whole sweep every momentary channel that may go on is on exactly while it is held, if no later one is its opposite, its partner, a hazard member or the key |
| AppLaws.BrakeFollowsLever | firmware/main/main.c:349-362 | the brake light is on exactly while the lever is pulled |
| AppLaws.PassMeetsLock | firmware/main/main.c:340-402 | the lock's tick of a pass sees this pass's engine verdict and this pass's ignition switch |
| AppLaws.RunningPassNeverLocks | firmware/main/main.c:340-402 | a pass that sees the engine running does not lock the bike |
| AppLaws.SwitchOpensInOnePass | firmware/main/main.c:378-402 | a pass that sees the ignition switch on opens a LOCKED bike that has it as a method |
| AppObject.Act | firmware/main/main.c:238-290 | one bound action is the listed engine operation, or none for a momentary channel |
| AppObject.ActAll | firmware/main/main.c:294-299 | a binding runs its actions in order, each on the result of the ones before |
| AppObject.MomentaryTick | firmware/main/main.c:189-230 | every momentary channel follows the level of what is bound to it |
| AppObject.FollowBrake | firmware/main/main.c:353-362 | the brake light follows the brake lever |
| AppTask.LevelReached | firmware/main/main.c:357-360 | a channel made to follow a level ends at it, unless switching on is refused |
| AppObject.HandleEvent | firmware/main/main.c:396-455 | one event: the cheat-code first, then the bound actions |
| AppObject.App.Pass | firmware/main/main.c:325-455 | one pass over the live objects performs exactly the listed operations in the listed order |
| AppObject.RunLoop | firmware/main/main.c:319-455 | any number of passes are one legal run in time order whose cheat-code presses are the short presses of the raw samples |
| AppObject.BootLock | firmware/main/main.c:586-608 | outputs restored, then the lock: the live objects are in the power-on state |
| AppObject.BootAndRun | firmware/main/main.c:586-640 | a boot and any number of passes are one legal run fed by the raw samples, and the live objects satisfy every safety theorem of it, signal expiry from the last arming included |
| AppTask.PassIsLegal | firmware/main/main.c:319-455 | a pass never raises or lifts the inhibit itself and carries one time throughout |
| AppTask.PassFeeds | firmware/main/main.c:405-455 | a pass feeds the cheat-code every short press of its poll, whatever a chord or a capture suppresses |
| AppTask.CombosCannotStarveTheLock | firmware/main/main.c:405-455 | two boards with the same samples feed their locks the same presses, whatever is bound |
| Time.ElapsedAgrees | firmware/components/core/include/mc_types.h:104-108 | the elapsed-time test on 32-bit words is right exactly while the gap has not wrapped or the remainder is long enough by itself |
| Time.DeadlineAgrees | firmware/components/core/mc_output.c:443-449 | the deadline test is right within half a wrap except for a deadline stored as zero |
| Time.BackoffAgrees | firmware/components/core/mc_lock.c:224-226 | for times less than a wrap apart the backoff test is right exactly when both lie between the same two wraps |
| Time.BackoffEndsEarlyAtWrap | firmware/components/core/mc_lock.c:224-226 | a backoff that ends past the wrap is over at once |
| Time.BackoffStuckAfterWrap | firmware/components/core/mc_lock.c:224-226 | a backoff that ended before the wrap and is first looked at after it is kept for a whole wrap |
| Time.BackoffStuckAtWrap | firmware/components/core/mc_lock.c:376-378 | a backoff ending 5 ms before the wrap is kept at every tick of the next 49.7 days, and with it every press refused |
| Hashing.ChainAppend | firmware/components/core/mc_crypto.c:92-127 | folding whole blocks and then the rest is folding everything |
| Sha512.Context.constructor | firmware/components/core/mc_crypto.c:85-90 | a context over the empty message |
| Sha512.Context.Update | firmware/components/core/mc_crypto.c:92-127 | the state covers all whole blocks and the block holds the remainder of everything fed in |
| Sha512.Context.TopUp | firmware/components/core/mc_crypto.c:98-112 | a partial block is topped up and hashed once full |
| Sha512.Context.Absorb | firmware/components/core/mc_crypto.c:113-126 | whole blocks are hashed straight from the input |
| Sha512.Context.LayTail | firmware/components/core/mc_crypto.c:129-142 | the pad buffer holds the leftover bytes, 0x80, zeros and the 128-bit length |
| Sha512.TailCompletesPadding | firmware/components/core/mc_crypto.c:133-142 | hashed blocks plus that tail are the message padded as in section 5.1.2 of FIPS 180-4 |
| Sha512.Context.Final | firmware/components/core/mc_crypto.c:129-147 | the digest is the fold over the padded message |
| Sha512.HashChunks | firmware/components/core/mc_crypto.c:85-147 | for every split of a message into updates the digest is that of the whole |
| Sha512.Context.StoreU64 | firmware/components/core/mc_crypto.c:77-83 | eight bytes, most significant first |
| Sha1.ChAsOr | firmware/sim/src/ws_server.c:55 | the choice function with or is the one of section 4.1.1 of FIPS 180-4 with exclusive or |
| Sha1.MajAsOr | firmware/sim/src/ws_server.c:57 | so is the majority function |
| Sha1.RotateByShifts | firmware/sim/src/ws_server.c:40 | two shifts and an or are the rotation |
| Sha1.ExpandBlock | firmware/sim/src/ws_server.c:44-51 | the 80-word buffer is the message schedule |
| Sha1.HashBlock | firmware/sim/src/ws_server.c:42-63 | a block is hashed as in section 6.1.2 of FIPS 180-4 |
| Sha1.Context.Update | firmware/sim/src/ws_server.c:72-82 | the state covers all whole blocks and the buffer the remainder |
| Sha1.Context.Final | firmware/sim/src/ws_server.c:84-100 | the digest is that of the message padded as in section 5.1.1 |
| Ota.Updater.Begin | firmware/components/core/mc_ota.c:15-42 | the refusals in their order; a transfer starts only under a checked signature |
| Ota.Updater.Chunk | firmware/components/core/mc_ota.c:44-65 | what was accepted is on flash and hashed; any violation moves to the error state |
| Ota.Updater.Commit | firmware/components/core/mc_ota.c:67-89 | committed means whole, on flash, hashing to the declared digest, and that digest verified at begin |
| Ota.Updater.Abort | firmware/components/core/mc_ota.c:91-99 | back to idle from any state |
| Ota.Updater.Reboot | firmware/components/core/mc_ota.c:101-113 | the board boots only an image that is whole, genuine and on flash, and only in a safe state |
| Release.Handle | firmware/components/core/mc_session.c:901-998 | the OTA channel: frame shapes, authentication, result codes; a commit frame is the only way into the committed state |
| Release.ParseLayout | app/src/update/updateCheck.ts:155-183 | the app reads back the bundle the tool wrote, exactly when the declared size is the image size |
| Release.LayoutParse | app/src/update/updateCheck.ts:155-183 | an accepted file is the layout of what was read exactly when its reserved bytes are zero |
| Release.SignFirmware | tools/sign-firmware.py:87-114 | the bundle file of an image, or an error for an empty or oversized one |
| Release.SendChunks | app/src/protocol/MotoClient.ts:537-547 | the chunk loop succeeds exactly when the image fits the declared size and the flash takes every chunk |
| Release.UploadFirmware | app/src/protocol/MotoClient.ts:525-549 | an upload succeeds exactly when the bundle deserves it, and then the image is committed on flash |
| Release.ShipRelease | tools/sign-firmware.py:87-114 | what was signed with the matching key ends on the board, in a safe state within the size limit and with working flash, and only then |
| EventLog.Log.Append | firmware/components/core/mc_event_log.c:9-33 | an append advances the number even when its write fails, and a slot only holds genuine records |
| EventLog.Log.CountSince | firmware/components/core/mc_event_log.c:46-53 | the announced total is at least what can be read, and equal exactly when no write in the window failed |
| EventLog.Log.Read | firmware/components/core/mc_event_log.c:55-76 | the oldest of the successfully written records in the retained window above the asked number |
| EventLog.WrittenExactly | firmware/components/core/mc_event_log.c:55-76 | a record is given exactly when its write succeeded |
| EventLog.WrittenGenuine | firmware/components/core/mc_event_log.c:55-76 | each as it was appended, in order |
| EventLog.FramesAreSmall | firmware/components/core/mc_session.c:23-37 | no frame is over the length at which it would be dropped |
| EventLog.SendLog | firmware/components/core/mc_session.c:659-702 | the reply loop ends and its frames concatenate to the full read |
| EventLog.Collector.OnFrame | app/src/protocol/MotoClient.ts:573-602 | a frame adds its records and may complete the request |
| EventLog.GetEventLog | app/src/protocol/MotoClient.ts:558-616 | the client gets everything retained exactly when no write in the window failed, and otherwise waits until it times out |
| ConfigTransfer.Staging.Begin | firmware/components/core/mc_session.c:815-829 | a transfer of 1 to 6144 bytes starts, anything else is refused |
| ConfigTransfer.Staging.Chunk | firmware/components/core/mc_session.c:830-850 | a chunk lands at its offset or ends the transfer |
| ConfigTransfer.Staging.Commit | firmware/components/core/mc_session.c:851-860 | the staged bytes are applied exactly when the highest end seen is the total |
| ConfigTransfer.Staging.Handle | firmware/components/core/mc_session.c:796-864 | the same behind authentication and the opcode |
| ConfigTransfer.ConfigWrite | app/src/protocol/MotoClient.ts:412-442 | the write loop commits exactly the bytes sent and answers with the verdict on them |
| ConfigTransfer.SendRead | firmware/components/core/mc_session.c:722-735 | the read loop sends every 128-byte piece once |
| ConfigTransfer.Reader.OnChunk | app/src/protocol/MotoClient.ts:368-396 | a chunk is stored by offset and may complete the document |
| ConfigTransfer.CompleteExactly | app/src/protocol/MotoClient.ts:387-393 | the byte count reaches the total exactly when every piece has come, and pasting them gives the document |
| ConfigTransfer.Receive | app/src/protocol/MotoClient.ts:340-410 | for any order and any duplication the document comes out exactly when every frame arrived |
| ConfigJson.CollectActions | firmware/components/core/mc_config_json.c:175-181 | the first four positive numbers |
| ConfigJson.CollectButtons | firmware/components/core/mc_config_json.c:446-454 | the first ten numbers that name a button |
| ConfigJson.ReadChannels | firmware/components/core/mc_config_json.c:310-388 | twelve channels over defaults; an element that is not an object is an error |
| ConfigJson.ReadCombos | firmware/components/core/mc_config_json.c:430-465 | at most eight combos; an element that is not an object is an error |
| ConfigLaws.ParsedIsReadable | firmware/components/core/mc_config_json.c:535-587 | whatever the document, what is accepted lies in the ranges of the struct |
| ConfigLaws.RoundTrip | firmware/components/core/mc_config_json.c:186-286 | parsing what was printed gives the configuration back exactly when it is canonical |
| ConfigLaws.Stable | firmware/components/core/mc_config_json.c:535-587 | saving what a document gave and reloading changes nothing exactly when no action list of the result holds a zero |
| ConfigLaws.ZeroFromFraction | firmware/components/core/mc_config_json.c:165-181 | a list holds a zero exactly when one of the numbers read lies between 0 and 1 |
| ConfigLaws.ZeroExactly | firmware/components/core/mc_config_json.c:430-533 | so the configuration an accepted document gives holds a zero exactly when one of its action lists takes such a number |
| ConfigLaws.SurvivesSaveExactly | firmware/components/core/mc_config_json.c:535-587 | an accepted document survives a save and a reload exactly when no action list of its combos and bindings takes a number between 0 and 1 |
| ConfigLaws.FractionBreaksStability | firmware/components/core/mc_config_json.c:175-181 | the document that binds the first button to action 0.5 is accepted and does not survive |
| ConfigLaws.SettlesAfterOneSave | firmware/components/core/mc_config_json.c:535-587 | after one save every configuration is a fixed point, and only bindings were touched |
| ConfigLaws.NumberIsOneEntryList | firmware/components/core/mc_config_json.c:165-171 | a version 3 number means a one-entry list |
| ConfigLaws.LegacyChannelIsStable | firmware/components/core/mc_config_json.c:54-114 | a channel of any version reads the same after the current version rewrites it |
| ConfigLaws.LegacyFunctionsStayEssential | firmware/components/core/mc_config_json.c:81-104 | an old function name stays essential exactly for ignition, brake and the headlights |
| ConfigKeys.FlagKey | firmware/components/core/mc_config_json.c:349-363 | each of the five role keys sets its own flag and no other |
| ConfigKeys.SideKey | firmware/components/core/mc_config_json.c:353-361 | left and right are left and right |
| ConfigKeys.CommandedKey | firmware/components/core/mc_config_json.c:328-329 | the commanded state has its own key |
| ConfigKeys.FollowsIgnitionKey | firmware/components/core/mc_config_json.c:373-376 | so has following the ignition |
| ConfigKeys.DutyKey | firmware/components/core/mc_config_json.c:326 | and the duty |
| ConfigKeys.PartnerKey | firmware/components/core/mc_config_json.c:377-387 | a partner is another of the twelve channels, or none |
| ConfigKeys.BehaviourKeyReaches | firmware/components/core/mc_config_json.c:336-338 | the four behaviour names |
| ConfigKeys.OldFunctions | firmware/components/core/mc_config_json.c:81-104 | what the function names of old documents meant, name by name |
| ConfigKeys.AutoCancelKey | firmware/components/core/mc_config_json.c:405 | the auto-cancel time |
| ConfigKeys.FlashPeriodKey | firmware/components/core/mc_config_json.c:406-407 | the flash period |
| ConfigKeys.PulseKeys | firmware/components/core/mc_config_json.c:408-413 | the three numbers of the attention burst |
| ConfigKeys.InputNumberKeys | firmware/components/core/mc_config_json.c:391-404 | the interlock and the brake lever each name their own input |
| ConfigKeys.TimingKeys | firmware/components/core/mc_config_json.c:423-428 | the three button times |
| ConfigKeys.BindingKeys | firmware/components/core/mc_config_json.c:467-483 | each list of bindings has its own key |
| ConfigKeys.ComboKeys | firmware/components/core/mc_config_json.c:436-463 | the parts of a combo |
| ConfigKeys.CutoffKey | firmware/components/core/mc_config_json.c:519 | the cutoff voltage |
| ConfigKeys.RunKey | firmware/components/core/mc_config_json.c:522 | the charging voltage |
| ConfigKeys.RunDetectionKey | firmware/components/core/mc_config_json.c:528-531 | and whether it is used |
| ConfigKeys.SectionKeys | firmware/components/core/mc_config_json.c:577-583 | each section is read from its own key and from nowhere else |
| ConfigKeys.NewerSchemaIsRefused | firmware/components/core/mc_config_json.c:546-557 | a document of a newer schema is refused, and no other for its version |
| ConfigKeys.EmptyDocument | firmware/components/core/mc_config_json.c:559-563 | a document that says nothing gives the defaults |
| FormatLaws.ByteOrder | app/src/protocol/frames.ts:23-48 | little-endian on the link, big-endian in hashes |
| FormatLaws.KnownEncodings | app/src/protocol/frames.ts:82-95 | vectors of section 10 of RFC 4648 |
| FormatLaws.AlphabetInOrder | app/src/protocol/frames.ts:79-80 | the base64 alphabet in the order of RFC 4648 |
| FormatLaws.MaskingIsExclusiveOr | firmware/sim/src/ws_server.c:290-292 | masking is the exclusive or with the key, bit by bit |
| FormatLaws.PaddingShape | firmware/components/core/mc_crypto.c:129-142 | the padding of FIPS 180-4 by its shape: the message, 0x80, the fewest zeros, the length in bits |
| Bytes.U16leRoundTrip | app/src/protocol/frames.ts:23-29 | a 16-bit integer reads back modulo its width, anywhere in a frame |
| Bytes.U32leRoundTrip | app/src/protocol/frames.ts:31-48 | so does a 32-bit one |
| Base64.EncodeBytes | app/src/protocol/frames.ts:82-95 | the encoder loop |
| Base64.DecodeText | app/src/protocol/frames.ts:97-117 | the decoder loop, which drops everything outside the alphabet |
| Base64.RoundTrip | app/src/protocol/frames.ts:82-117 | decoding what was encoded gives the bytes back |
| WebSocket.SendFrame | firmware/sim/src/ws_server.c:163-186 | the server frame of section 5.2 of RFC 6455, with its three length forms |
| WebSocket.Unmask | firmware/sim/src/ws_server.c:290-292 | the unmasking loop in place |
| WebSocket.MaskTwice | firmware/sim/src/ws_server.c:290-292 | masking twice is the identity |
| WebSocket.ClientFrameBack | firmware/sim/src/ws_server.c:266-295 | a masked frame of any length is read back whole, or refused when it is over the limit |
| WebSocket.ServerFrameBack | firmware/sim/src/ws_server.c:163-186 | so is a server frame |
| WebSocket.ServeConnection | firmware/sim/src/ws_server.c:316-336 | the connection loop: pings answered, binary messages handed on, the rest ignored, until a close |
| WebSocket.StreamBack | firmware/sim/src/ws_server.c:316-336 | of frames sent back to back exactly the binary ones before the first close are handed on, whole and in order, and exactly the pings before it are answered |
| WebSocket.PongBack | firmware/sim/src/ws_server.c:325-330 | an answered ping gives its payload back up to 125 bytes, and nothing of a longer one |
| WebSocket.AcceptKey | firmware/sim/src/ws_server.c:244-252 | the handshake answer is the base64 of the SHA-1 of key and GUID |

## Left out

- Float calibration of currents and battery voltage (mc_diag.c:7-36): the calibrated readings are inputs of a tick.
- Ed25519 and the SHA-512 compression function: a predicate and a function parameter; everything around them is proved for any such function.
- The text form of JSON: documents are trees, an object is the map its first-match lookups see, and strings hold no NUL. Number conversions that C leaves undefined (out of the target's range) stick at the nearest end; every theorem about documents holds for in-range numbers as written.
- The loops that print a configuration and the fixed-length loops over the eight buttons are sequence comprehensions; the parsing loops that filter or can fail are methods.
- Storage, GPIO, ADC, BLE, sockets and flash themselves: parameters that say whether a call worked.
- Session authentication, key enrolment, key storage, persistence scheduling, power management, status frames and factory reset: they add no harder property to the ones here.
- Event logging calls and persistence flushes inside a main-loop pass: they touch neither the lock nor the outputs.
- Commands over the link interleaved inside a main-loop pass: `LockSafety` covers every interleaving of operations, `AppObject` the passes by themselves.
- Event log after a clear or a reboot, and sequence numbers at 2^32: a stale record may then pass for a new one.
- Reads of an event log slot that fail: a slot read returns what was last written.
- A missing flash HAL or a board without an updater object: the model has both.
- The interrupt mask of the input HAL: an interrupt between enabling and clearing the mask loses the record, so no invariant is claimed.
- BoardSession and the transports above it: asynchronous callbacks over a library that is not part of this model.
- The app's screens, the update manifest, the simulator's debug channel and the build tooling.
- ConfigTransfer.Staging.Commit: does not claim that every byte was written, because the code tracks only the highest end; the client's loop leaves no hole.
- InputGestures.NothingLostAtFullRate: states exact accounting at polls at most 1 ms apart, because at the firmware's 10 ms polls a press can be lost between a long press and a pending double; at every rate `InputGestures.NeverOvertold` holds.
- WebSocket.SendFrame: frames are values; the write lock and partial socket writes are not modelled.
- LockEntry.WayInExactly: the presses are the short presses the input engine delivers; raw samples that debounce into them are not constructed. Short presses of different buttons may come in one poll, so no pace above zero follows from debouncing.
- InputGestures.QuietOccurrencesFireExactly: for windows of 2 ms and more; in a window of 1 ms all taps come in one poll and nothing can time out inside.
- InputPresses.OnePressIsToldOnce: for a contact whose samples change level once on closing and once on opening; a bouncing contact restarts the debounce, and `InputGestures.EdgeIsBacked` holds for any samples.
- LockBudget.BackoffBudget: assumes no wrap of the millisecond clock, since the backoff compare is not wrap-safe (`Time.BackoffAgrees`).
