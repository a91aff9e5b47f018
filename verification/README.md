# trainGarmun: a verified model of the note trainer's game logic

trainGarmun is a browser ear-training game for a two-row button keyboard
(a garmon). It shows a target note, takes presses from on-screen buttons or
from the computer keyboard, and keeps a count of right and wrong answers
with an accuracy figure. All of it lives in one script, `script.js`.

This project models the decision logic of that script as pure Dafny
functions over immutable data, and proves properties of it:

- `layout.dfy` (module `Layout`): the 22-note layout in two columns, how a
  note id (`c4`, `g5`, ...) is built, the set of rendered key elements, and
  the de-duplication done before the sounds are preloaded. The two columns
  turn out to be the 22 consecutive white keys C4..C7 dealt alternately: the
  left column holds the even steps, the right column the odd steps. This is
  how the 22 ids are shown to be distinct.
- `keymap.dfy` (module `KeyMap`): the table from `KeyboardEvent.code` to
  note id, built with JavaScript object-literal semantics (a repeated key
  would keep its last value). It is proved to be a bijection onto the 22
  ids, column by column.
- `stats.dfy` (module `Stats`): the accuracy percentage, in integers.
- `session.dfy` (module `Session`): the session state (target, the two
  counters, name visibility, timers pending) and each transition.
  `Math.random` becomes an explicit pool position (`PoolIndex`, 0..21). The
  300 ms "next target" timer becomes a count of pending timer events, each
  fired by a separate step.
- `keyboard.dfy` (module `Keyboard`): the `keydown` handler as a function
  from the event to an action.
- `controller.dfy` (module `Controller`): every callback as an event, and a
  session as the fold of its events. The counters are proved to count the
  accepted presses since the last reset.
- `wrappers.dfy` (module `Wrappers`): the `Option` type.

Reset draws a new target after zeroing the counters (script.js:230-235).
No pending "next target" timer is ever cancelled, not on reset and not on
Space.

## Model

| member | source | states |
|---|---|---|
| Layout.ToLower | script.js:76 | capitals A..Z become the letter 32 code points later; other characters are unchanged |
| Layout.Decimal | script.js:76 | an octave prints as a non-empty run of decimal digits with no leading zero that spells the octave back, one digit exactly when it is below 10 |
| Layout.NoteIdShape | script.js:76 | the id of a note with a letter A..G and a one-digit octave is a lowercase letter a..g followed by that octave's digit |
| Layout.NoteIdInjective | script.js:76 | two keyboard notes with the same id are the same note |
| Layout.LayoutIsInterleavedScale | script.js:3-16 | both columns have 11 notes; left-column note i is white key 28+2i (C4, E4, ..., B6) and right-column note i is white key 29+2i (D4, F4, ..., C7) |
| Layout.PoolIdsWellFormed | script.js:127-129 | the pool has 22 ids, each a lowercase letter and a digit, and no two are equal |
| Layout.Dedup | script.js:93 | de-duplication keeps exactly the values of its input, has no repeats and is no longer than the input |
| Layout.DedupOfDistinct | script.js:93 | a list without repeats passes through de-duplication unchanged |
| Layout.AudioTotalIsPoolSize | script.js:92-94 | the de-duplication before the preload removes nothing, so the sound total is 22 |
| KeyMap.ToMap | script.js:19-34 | the object built from the table has exactly the table's codes as keys |
| KeyMap.ToMapKeepsEntry | script.js:19-34 | with no repeated code, looking up any entry's code gives that entry's id |
| KeyMap.Lookup | script.js:211 | a code is bound exactly when it appears in the table |
| KeyMap.CodesDistinct | script.js:19-34 | the 22 codes of the table are pairwise different |
| KeyMap.BindingPlaysColumnKey | script.js:19-34 | entry i of the first block plays right-column note i, entry i of the second block plays left-column note i |
| KeyMap.KeyTableFollowsColumns | script.js:3-34 | looking up the codes of the first block gives the right column's ids in order, the second block the left column's |
| KeyMap.KeyMappingIsBijection | script.js:3-34 | every bound code plays a rendered button, no two codes play the same button, and every button has a code |
| KeyMap.KeyMappingSize | script.js:19-34 | the table has 22 keys |
| Stats.Accuracy | script.js:184-185 | 0 with no answers; otherwise the whole number nearest to 100·correct/total, halves up; always within 0..100 |
| Stats.RoundedPercentUnique | script.js:185 | at most one whole number rounds 100·correct/total |
| Stats.AccuracyCharacterized | script.js:184-185 | with at least one answer, the figure equals r exactly when r is the rounded percentage |
| Stats.AccuracyExamples | script.js:184-185 | 0/0 gives 0, 1/0 gives 100, 3 right and 1 wrong give 75, 1/1 gives 50, 2/1 gives 67, 1/2 gives 33 |
| Session.NewTarget | script.js:126-131 | a new target is always a pool id, and no counter, flag or timer changes |
| Session.EveryIdDrawnOnce | script.js:126-131 | each pool id is drawn by exactly one pick, so a uniform pick gives a uniform target |
| Session.Init | script.js:37-63 | at start-up both counters are 0, names are shown, no timer is pending and the target is a pool id |
| Session.NoteInput | script.js:142-166 | an id with no key element changes nothing; otherwise exactly one counter rises by 1, the target stays, and a timer is scheduled exactly when the id was the target |
| Session.TimerFires | script.js:164 | a firing timer leaves one fewer pending, draws a pool target and leaves the counters and flag alone |
| Session.Reset | script.js:230-235 | reset zeroes both counters, draws a pool target and keeps name visibility and pending timers |
| Session.ToggleNames | script.js:190-197 | toggling flips name visibility and changes neither counter, the target nor the timers |
| Session.ButtonLabel | script.js:199-203 | the button offers to hide names exactly while they are shown |
| Session.ToggleTwice | script.js:190-203 | toggling twice restores the state and the button label; toggling once changes the label |
| Session.SessionAccuracy | script.js:180-187 | the displayed figure is within 0..100, 0 with no answers, and the rounded percentage otherwise |
| Session.DoubleHitBeforeTimer | script.js:151-165 | two hits on the target before its timer fires both count as correct and schedule two timers |
| Session.MissKeepsTarget | script.js:151-165 | a wrong press raises only the wrong count and schedules no timer, so the target never moves because of it |
| Session.HitThenMiss | script.js:142-187 | from start-up, a hit shows 1 right, 0 wrong at 100%, and a following miss shows 1 and 1 at 50% |
| Keyboard.Dispatch | script.js:207-227 | a press with Ctrl, Alt or Meta does nothing; a bound code plays its note, which has a key element; Space alone draws a target; anything else does nothing |
| Keyboard.SpaceAndKeyH | script.js:19-34 | Space is not bound; KeyH is bound to g5 |
| Keyboard.NamesHotkeyUnreachable | script.js:209-226 | no key event makes the handler flip the names: Ctrl+H is dropped by the modifier guard, and KeyH alone plays g5 |
| Keyboard.DispatchFixed | script.js:223-226 | with the hotkey checked first, Ctrl+H and only Ctrl+H flips the names; every other event is handled as before |
| Controller.Perform | script.js:211-226 | carrying out an action keeps the target in the pool; a note action is the input handler; doing nothing leaves the session unchanged; a name flip flips only the names; only a note action changes the counters or the timers |
| Controller.Step | script.js:207-237 | one callback keeps the target in the pool; a reset zeroes the counters; any other callback adds one to their sum exactly when it is an accepted press |
| Controller.Run | script.js:207-237 | any sequence of callbacks keeps the target in the pool |
| Controller.CountersCountPresses | script.js:142-235 | after any events, right plus wrong is the number of accepted presses since the last reset, plus the earlier count if there was no reset |
| Controller.CountersFromStart | script.js:37-63 | from start-up, right plus wrong is exactly the number of accepted presses since the last reset |
| Controller.ModifiedKeyDoesNothing | script.js:209 | a key press with Ctrl, Alt or Meta held leaves the session exactly as it was |
| Controller.StepFixed | script.js:223-226 | with the hotkey repaired, one callback keeps the target in the pool and Ctrl+H flips the names |
| Controller.StepFixedDiffersOnlyOnCtrlH | script.js:207-227 | the repaired page has the page's own effect on every callback except Ctrl+H, where the page does nothing and the repaired one flips the names |

## Findings

| source | as written | input that shows it | evidently intended | confidence | as-written member | corrected member |
|---|---|---|---|---|---|---|
| script.js:209-226 | the handler returns on any Ctrl, Alt or Meta press before it looks at the hotkeys, and KeyH is also a bound note key, so the `KeyH` with Ctrl branch never runs | a keydown with code `KeyH` and Ctrl held: nothing happens | Ctrl+H toggles the visibility of note names | high; not executed | Keyboard.NamesHotkeyUnreachable | Keyboard.DispatchFixed |

`Controller.Step` and `Controller.Run` model the page as written.
`Controller.StepFixed` is the step with the corrected handler, and
`Controller.StepFixedDiffersOnlyOnCtrlH` shows that the repair changes
nothing except Ctrl+H.

## Left out

- Building the key elements, `innerHTML`, class toggling, the 150 ms highlight and the target text (the note in capitals) are rendering only. A key element is modelled by `Layout.HasKeyElement`: one exists for each layout id.
- Audio objects, `play()`, the `currentTime` reset and the load-progress counter and message are browser media I/O. Their event counts depend on how often `canplaythrough` fires. Only the number of sounds started (`Layout.AudioTotal`) is modelled.
- `Math.random` is replaced by an explicit pick in 0..21 carried by the events that draw a target.
- The real timer delays are not modelled. Only their order is kept: each correct press adds one pending timer event, which a later step fires.
- Layout.ToLower: lower-cases only the ASCII capitals A..Z, where `toLowerCase` also lower-cases other capitals such as É or Σ. Every layout letter is one of A..G, so this never shows.
- Stats.Accuracy: uses exact rational rounding, halves up, in place of floating-point `Math.round((correct / total) * 100)`. The two can differ when the exact value is a half and the floating-point product falls just below it (for instance 29 correct of 200).
- `handleNoteClick` and `handleKeyPress` only forward to the input handler. Both are modelled as `Session.NoteInput`.
- A JavaScript object also answers for inherited property names such as `constructor`. Browsers never send such codes, so `KeyMap.Lookup` sees only the table.
- `window.debugState` and console logging have no effect on the state.
- The empty target before the first draw at start-up is not a state the page rests in, so `Session.Init` draws at once.
- A timer event when none is pending cannot happen on the page. `Controller.Step` leaves the state unchanged for it.
