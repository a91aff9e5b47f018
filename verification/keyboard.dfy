/** The page's `keydown` handler as a pure function from the event to what
    it does. */
module Keyboard {
  import opened Wrappers
  import opened Layout
  import opened KeyMap

  /** The parts of a `KeyboardEvent` the handler reads. */
  datatype KeyEvent = KeyEvent(code: string, ctrl: bool, alt: bool, meta: bool)

  /** What a key press does to the session. */
  datatype Action = PlayNote(id: string) | DrawTarget | FlipNames | Ignore

  predicate HasModifier(e: KeyEvent) {
    e.ctrl || e.alt || e.meta
  }

  /** The handler as written: a press with Ctrl, Alt or Meta is dropped at
      once; a bound code plays its note; only then are Space (new target)
      and Ctrl+H (names) looked at. */
  function Dispatch(e: KeyEvent): (a: Action)
    ensures HasModifier(e) ==> a == Ignore
    ensures !HasModifier(e) && e.code in KeyMapping ==> a == PlayNote(KeyMapping[e.code])
    ensures a == DrawTarget <==> !HasModifier(e) && e.code == "Space"
    ensures !HasModifier(e) && e.code !in KeyMapping && e.code != "Space" ==> a == Ignore
    ensures a.PlayNote? ==> HasKeyElement(a.id)
  {
    KeyMappingIsBijection();
    SpaceAndKeyH();
    if HasModifier(e) then Ignore
    else match Lookup(e.code)
      case Some(id) => PlayNote(id)
      case None =>
        if e.code == "Space" then DrawTarget
        else if e.code == "KeyH" && e.ctrl then FlipNames
        else Ignore
  }

  /** Space is not in the key table; KeyH is, and plays g5. */
  lemma SpaceAndKeyH()
    ensures "Space" !in KeyMapping
    ensures "KeyH" in KeyMapping && KeyMapping["KeyH"] == "g5"
  {
    assert Bindings[5] == ("KeyH", "g5");
    BoundEntry(5);
  }

  /** The Ctrl+H branch is dead: with Ctrl held the handler has already
      returned, and without it KeyH is a bound code and plays g5. */
  lemma {:induction false} NamesHotkeyUnreachable(e: KeyEvent)
    ensures Dispatch(e) != FlipNames
    ensures e.code == "KeyH" && e.ctrl ==> Dispatch(e) == Ignore
    ensures e.code == "KeyH" && !HasModifier(e) ==> Dispatch(e) == PlayNote("g5")
  {
    SpaceAndKeyH();
  }

  /** The handler with the Ctrl+H check moved in front of the modifier
      guard, so the hotkey flips the names as it is meant to. */
  function DispatchFixed(e: KeyEvent): (a: Action)
    ensures e.code == "KeyH" && e.ctrl ==> a == FlipNames
    ensures a == FlipNames ==> e.code == "KeyH" && e.ctrl
    ensures !(e.code == "KeyH" && e.ctrl) ==> a == Dispatch(e)
  {
    if e.code == "KeyH" && e.ctrl then FlipNames else Dispatch(e)
  }
}
