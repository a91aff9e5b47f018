/** The page as a whole: every callback the page registers becomes an
    event, and a session is the fold of the events so far. */
module Controller {
  import opened Layout
  import opened Session
  import opened Keyboard

  /** One callback invocation.  The events that draw a target carry the
      pick that `Math.random` would have produced. */
  datatype Event =
    | Click(id: string)
    | KeyDown(key: KeyEvent, pick: PoolIndex)
    | TimerFired(pick: PoolIndex)
    | ResetClicked(pick: PoolIndex)
    | ToggleClicked

  /** Carries out what the key handler decided. */
  function Perform(s: Session, a: Action, pick: PoolIndex): (r: Session)
    ensures Valid(s) ==> Valid(r)
    ensures a.PlayNote? ==> r == NoteInput(s, a.id)
    ensures !a.PlayNote? ==> r.correct == s.correct && r.wrong == s.wrong && r.pending == s.pending
    ensures a == Ignore ==> r == s
    ensures a == FlipNames ==> r.showNames != s.showNames && r.target == s.target
    ensures a == DrawTarget ==> Valid(r) && r.showNames == s.showNames
  {
    match a
    case PlayNote(id) => NoteInput(s, id)
    case DrawTarget => NewTarget(s, pick)
    case FlipNames => ToggleNames(s)
    case Ignore => s
  }

  /** Whether the event is a press the input handler accepts, that is one
      that reaches a rendered key element. */
  predicate Accepted(e: Event) {
    match e
    case Click(id) => HasKeyElement(id)
    case KeyDown(k, _) => Dispatch(k).PlayNote?
    case _ => false
  }

  /** The effect of one callback, as the page has it.  A timer event with
      no timer pending cannot occur on the page and leaves the state
      alone. */
  function Step(s: Session, e: Event): (r: Session)
    ensures Valid(s) ==> Valid(r)
    ensures e.ResetClicked? ==> r.correct == 0 && r.wrong == 0
    ensures !e.ResetClicked? ==>
      r.correct + r.wrong == s.correct + s.wrong + (if Accepted(e) then 1 else 0)
  {
    match e
    case Click(id) => NoteInput(s, id)
    case KeyDown(k, pick) =>
      var a := Dispatch(k);
      assert a.PlayNote? ==> HasKeyElement(a.id);
      Perform(s, a, pick)
    case TimerFired(pick) => if s.pending > 0 then TimerFires(s, pick) else s
    case ResetClicked(pick) => Reset(s, pick)
    case ToggleClicked => ToggleNames(s)
  }

  /** The session after a sequence of callbacks, oldest first. */
  function Run(s: Session, events: seq<Event>): (r: Session)
    ensures Valid(s) ==> Valid(r)
    decreases |events|
  {
    if events == [] then s
    else Step(Run(s, events[..|events| - 1]), events[|events| - 1])
  }

  /** Whether a reset happened during the events. */
  predicate ResetIn(events: seq<Event>) {
    exists i :: 0 <= i < |events| && events[i].ResetClicked?
  }

  /** Accepted presses after the last reset (after the start if none). */
  function PressesSinceReset(events: seq<Event>): (n: nat)
    ensures n <= |events|
    decreases |events|
  {
    if events == [] then 0
    else
      var last := events[|events| - 1];
      if last.ResetClicked? then 0
      else PressesSinceReset(events[..|events| - 1]) + (if Accepted(last) then 1 else 0)
  }

  /** The two counters together count exactly the accepted presses since
      the last reset; without a reset, on top of what they held before. */
  lemma {:induction false} CountersCountPresses(s: Session, events: seq<Event>)
    ensures Run(s, events).correct + Run(s, events).wrong ==
      (if ResetIn(events) then 0 else s.correct + s.wrong) + PressesSinceReset(events)
    decreases |events|
  {
    if events != [] {
      var n := |events| - 1;
      var init := events[..n];
      CountersCountPresses(s, init);
      if !events[n].ResetClicked? {
        assert ResetIn(events) <==> ResetIn(init) by {
          if ResetIn(events) {
            var i :| 0 <= i < |events| && events[i].ResetClicked?;
            assert init[i] == events[i];
          }
          if ResetIn(init) {
            var i :| 0 <= i < |init| && init[i].ResetClicked?;
            assert events[i] == init[i];
          }
        }
      } else {
        assert ResetIn(events);
      }
    }
  }

  /** From start-up the counters hold exactly the accepted presses since the
      last reset. */
  lemma {:induction false} CountersFromStart(pick: PoolIndex, events: seq<Event>)
    ensures var r := Run(Init(pick), events);
      Valid(r) && r.correct + r.wrong == PressesSinceReset(events)
  {
    CountersCountPresses(Init(pick), events);
  }

  /** A key press with Ctrl, Alt or Meta held leaves the session exactly as
      it was. */
  lemma {:induction false} ModifiedKeyDoesNothing(s: Session, k: KeyEvent, pick: PoolIndex)
    requires HasModifier(k)
    ensures Step(s, KeyDown(k, pick)) == s
  {
    assert Dispatch(k) == Ignore;
  }

  /** The effect of one callback with the Ctrl+H hotkey repaired. */
  function StepFixed(s: Session, e: Event): (r: Session)
    ensures Valid(s) ==> Valid(r)
    ensures e.KeyDown? && e.key.code == "KeyH" && e.key.ctrl ==> r == ToggleNames(s)
  {
    match e
    case KeyDown(k, pick) => Perform(s, DispatchFixed(k), pick)
    case _ => Step(s, e)
  }

  /** The repaired page differs from the page as written only on Ctrl+H:
      there the page does nothing and the repaired one flips the names.
      Every other callback has the same effect on both. */
  lemma {:induction false} StepFixedDiffersOnlyOnCtrlH(s: Session, e: Event)
    ensures !(e.KeyDown? && e.key.code == "KeyH" && e.key.ctrl) ==> StepFixed(s, e) == Step(s, e)
    ensures e.KeyDown? && e.key.code == "KeyH" && e.key.ctrl ==>
      Step(s, e) == s && StepFixed(s, e) == ToggleNames(s) && StepFixed(s, e) != s
  {
    if e.KeyDown? {
      NamesHotkeyUnreachable(e.key);
    }
  }
}
