/** The game's session state and the transitions the page's callbacks make
    on it.  `Math.random` is replaced by an explicit pool position, and each
    300 ms "next target" timer by a count of timers still pending. */
module Session {
  import opened Layout
  import opened Stats

  /** A pool position, as `Math.floor(Math.random() * 22)` yields one. */
  type PoolIndex = i: nat | i < 22

  /** The session: the id to hit, the two counters, whether note names are
      shown, and how many "next target" timers are still to fire. */
  datatype Session = Session(
    target: string,
    correct: nat,
    wrong: nat,
    showNames: bool,
    pending: nat
  )

  /** The label of the visibility button. */
  datatype ToggleLabel = HideNames | ShowNames

  /** A state reachable on the page: the target is always a pool id. */
  predicate Valid(s: Session) {
    s.target in PoolIds
  }

  /** Draws the next target from the pool; nothing else moves. */
  function NewTarget(s: Session, pick: PoolIndex): (r: Session)
    ensures Valid(r)
    ensures r.correct == s.correct && r.wrong == s.wrong
    ensures r.showNames == s.showNames && r.pending == s.pending
  {
    PoolIdsWellFormed();
    s.(target := PoolIds[pick])
  }

  /** Start-up: both counters at zero, names shown, no timer pending, and a
      first target drawn. */
  function Init(pick: PoolIndex): (r: Session)
    ensures Valid(r)
    ensures r.correct == 0 && r.wrong == 0 && r.showNames && r.pending == 0
  {
    NewTarget(Session("", 0, 0, true, 0), pick)
  }

  /** One press of a button, by pointer or by key.  An id without a key
      element is ignored; otherwise exactly one counter goes up, the target
      stays, and a timer is scheduled exactly when the press hit the
      target. */
  function NoteInput(s: Session, id: string): (r: Session)
    ensures !HasKeyElement(id) ==> r == s
    ensures HasKeyElement(id) ==>
      && r.target == s.target && r.showNames == s.showNames
      && r.correct + r.wrong == s.correct + s.wrong + 1
      && (r.correct == s.correct + 1 <==> id == s.target)
      && (r.wrong == s.wrong + 1 <==> id != s.target)
      && r.pending == s.pending + (if id == s.target then 1 else 0)
  {
    if !HasKeyElement(id) then s
    else if id == s.target then s.(correct := s.correct + 1, pending := s.pending + 1)
    else s.(wrong := s.wrong + 1)
  }

  /** One pending timer fires and draws a new target. */
  function TimerFires(s: Session, pick: PoolIndex): (r: Session)
    requires s.pending > 0
    ensures Valid(r)
    ensures r.pending == s.pending - 1
    ensures r.correct == s.correct && r.wrong == s.wrong && r.showNames == s.showNames
  {
    NewTarget(s.(pending := s.pending - 1), pick)
  }

  /** The reset button: both counters to zero, then a new target.  Pending
      timers are not cancelled. */
  function Reset(s: Session, pick: PoolIndex): (r: Session)
    ensures Valid(r)
    ensures r.correct == 0 && r.wrong == 0
    ensures r.showNames == s.showNames && r.pending == s.pending
  {
    NewTarget(s.(correct := 0, wrong := 0), pick)
  }

  /** Flips whether note names are shown; cosmetic only. */
  function ToggleNames(s: Session): (r: Session)
    ensures r.showNames != s.showNames
    ensures r.target == s.target && r.correct == s.correct
    ensures r.wrong == s.wrong && r.pending == s.pending
  {
    s.(showNames := !s.showNames)
  }

  /** While names are shown the button offers to hide them, and the other
      way round. */
  function ButtonLabel(showNames: bool): (l: ToggleLabel)
    ensures l == HideNames <==> showNames
  {
    if showNames then HideNames else ShowNames
  }

  /** The figure displayed for a session. */
  function SessionAccuracy(s: Session): (a: nat)
    ensures a <= 100
    ensures s.correct + s.wrong == 0 ==> a == 0
    ensures s.correct + s.wrong > 0 ==> IsRoundedPercent(a, s.correct, s.correct + s.wrong)
  {
    Accuracy(s.correct, s.wrong)
  }

  /** Toggling twice restores the state and the button label. */
  lemma ToggleTwice(s: Session)
    ensures ToggleNames(ToggleNames(s)) == s
    ensures ButtonLabel(ToggleNames(ToggleNames(s)).showNames) == ButtonLabel(s.showNames)
    ensures ButtonLabel(ToggleNames(s).showNames) != ButtonLabel(s.showNames)
  {
  }

  /** Every pool id is drawn by exactly one pick, so a uniform pick gives a
      uniform target. */
  lemma {:induction false} EveryIdDrawnOnce(s: Session, id: string)
    requires HasKeyElement(id)
    ensures exists pick: PoolIndex :: NewTarget(s, pick).target == id
    ensures forall p1: PoolIndex, p2: PoolIndex ::
      NewTarget(s, p1).target == id && NewTarget(s, p2).target == id ==> p1 == p2
  {
    PoolIdsWellFormed();
    var k :| 0 <= k < |PoolIds| && PoolIds[k] == id;
    assert NewTarget(s, k).target == id;
  }

  /** Two hits on the target before its timer fires both count: the target
      has not moved yet, so the second press matches too and schedules a
      second timer. */
  lemma {:induction false} DoubleHitBeforeTimer(s: Session)
    requires HasKeyElement(s.target)
    ensures NoteInput(NoteInput(s, s.target), s.target).correct == s.correct + 2
    ensures NoteInput(NoteInput(s, s.target), s.target).wrong == s.wrong
    ensures NoteInput(NoteInput(s, s.target), s.target).pending == s.pending + 2
  {
    var s1 := NoteInput(s, s.target);
    assert s1.target == s.target;
  }

  /** A wrong press never moves the target, not even later: it schedules no
      timer. */
  lemma MissKeepsTarget(s: Session, id: string)
    requires HasKeyElement(id) && id != s.target
    ensures NoteInput(s, id).target == s.target
    ensures NoteInput(s, id).pending == s.pending
    ensures NoteInput(s, id).wrong == s.wrong + 1
  {
  }

  /** The worked scenario: a hit from a fresh start shows 1/0 at 100%, a
      following miss shows 1/1 at 50%. */
  lemma {:induction false} HitThenMiss(pick: PoolIndex, miss: string)
    requires HasKeyElement(miss) && miss != Init(pick).target
    ensures var s1 := NoteInput(Init(pick), Init(pick).target);
      s1.correct == 1 && s1.wrong == 0 && SessionAccuracy(s1) == 100
    ensures var s2 := NoteInput(NoteInput(Init(pick), Init(pick).target), miss);
      s2.correct == 1 && s2.wrong == 1 && SessionAccuracy(s2) == 50
  {
    var s0 := Init(pick);
    var s1 := NoteInput(s0, s0.target);
    assert s1.correct == 1 && s1.wrong == 0;
    AccuracyExamples();
    var s2 := NoteInput(s1, miss);
    assert s2.correct == 1 && s2.wrong == 1;
  }
}
