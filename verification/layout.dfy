/** The static layout of the two-row button keyboard: 22 notes, 11 per
    column, and the lowercase `letter + octave` ids built from them.  Both
    the rendered key elements and the sound files are addressed by these
    ids. */
module Layout {

  /** One button: a note letter as written in the layout ('A'..'G') and its
      octave number. */
  datatype Note = Note(name: char, octave: nat)

  /** Left column (bottom row). */
  const LeftColumn: seq<Note> := [
    Note('C', 4), Note('E', 4), Note('G', 4),
    Note('B', 4), Note('D', 5), Note('F', 5),
    Note('A', 5), Note('C', 6), Note('E', 6),
    Note('G', 6), Note('B', 6)
  ]

  /** Right column (top row). */
  const RightColumn: seq<Note> := [
    Note('D', 4), Note('F', 4), Note('A', 4),
    Note('C', 5), Note('E', 5), Note('G', 5),
    Note('B', 5), Note('D', 6), Note('F', 6),
    Note('A', 6), Note('C', 7)
  ]

  /** Every button, left column first: the pool a new target is drawn
      from. */
  const Pool: seq<Note> := LeftColumn + RightColumn

  const PoolSize: nat := 22

  predicate IsNoteLetter(c: char) {
    'A' <= c <= 'G'
  }

  /** A note that can stand on the keyboard: a letter A..G and a one-digit
      octave. */
  predicate IsKeyNote(k: Note) {
    IsNoteLetter(k.name) && k.octave < 10
  }

  predicate Distinct<T(==)>(s: seq<T>) {
    forall i, j :: 0 <= i < j < |s| ==> s[i] != s[j]
  }

  // ---------------------------------------------------------------------
  // Note ids
  // ---------------------------------------------------------------------

  /** Lower-cases an ASCII capital, leaves every other character alone. */
  function ToLower(c: char): (r: char)
    ensures 'A' <= c <= 'Z' ==> 'a' <= r <= 'z' && r as int - c as int == 32
    ensures !('A' <= c <= 'Z') ==> r == c
  {
    if 'A' <= c <= 'Z' then (c as int + 32) as char else c
  }

  function DigitChar(d: nat): (c: char)
    requires d < 10
    ensures '0' <= c <= '9'
    ensures c as int - '0' as int == d
  {
    ('0' as int + d) as char
  }

  /** The number a run of decimal digits spells, most significant digit
      first. */
  function DigitsValue(s: string): nat
    requires forall i :: 0 <= i < |s| ==> '0' <= s[i] <= '9'
  {
    if s == [] then 0
    else DigitsValue(s[..|s| - 1]) * 10 + (s[|s| - 1] as int - '0' as int)
  }

  /** The decimal text of a number, as a template literal prints it: digits
      with no leading zero that spell the number back. */
  function Decimal(n: nat): (s: string)
    ensures 1 <= |s|
    ensures forall i :: 0 <= i < |s| ==> '0' <= s[i] <= '9'
    ensures n < 10 <==> |s| == 1
    ensures |s| > 1 ==> s[0] != '0'
    ensures DigitsValue(s) == n
    decreases n
  {
    if n < 10 then [DigitChar(n)]
    else
      var prefix := Decimal(n / 10);
      var s := prefix + [DigitChar(n % 10)];
      assert s[..|s| - 1] == prefix;
      s
  }

  /** The id of a note: its letter lower-cased followed by its octave. */
  function NoteId(k: Note): string {
    [ToLower(k.name)] + Decimal(k.octave)
  }

  /** The shape every id on the keyboard has: one lowercase letter a..g and
      one digit. */
  predicate IsNoteIdShape(id: string) {
    |id| == 2 && 'a' <= id[0] <= 'g' && '0' <= id[1] <= '9'
  }

  lemma NoteIdShape(k: Note)
    requires IsKeyNote(k)
    ensures IsNoteIdShape(NoteId(k))
    ensures NoteId(k)[1] as int - '0' as int == k.octave
    ensures NoteId(k)[0] as int - k.name as int == 32
  {
    assert Decimal(k.octave) == [DigitChar(k.octave)];
  }

  /** Different keyboard notes never share an id. */
  lemma NoteIdInjective(a: Note, b: Note)
    requires IsKeyNote(a) && IsKeyNote(b)
    requires NoteId(a) == NoteId(b)
    ensures a == b
  {
    NoteIdShape(a);
    NoteIdShape(b);
  }

  function ColumnIds(col: seq<Note>): (ids: seq<string>)
    ensures |ids| == |col|
    ensures forall i :: 0 <= i < |col| ==> ids[i] == NoteId(col[i])
  {
    seq(|col|, i requires 0 <= i < |col| => NoteId(col[i]))
  }

  /** The ids of the whole pool, in pool order. */
  const PoolIds: seq<string> := ColumnIds(Pool)

  // ---------------------------------------------------------------------
  // The shape of the layout
  // ---------------------------------------------------------------------

  /** Position of a letter inside its octave, counting from C. */
  function LetterIndex(c: char): (r: int)
    requires IsNoteLetter(c)
    ensures 0 <= r < 7
  {
    (c as int - 'C' as int + 7) % 7
  }

  /** Diatonic step of a note counted from C0: consecutive white keys of a
      piano have consecutive steps. */
  function DiatonicStep(k: Note): int
    requires IsNoteLetter(k.name)
  {
    7 * k.octave + LetterIndex(k.name)
  }

  /** The layout is the 22 consecutive white keys C4..C7 dealt alternately:
      the left column holds the even steps C4, E4, .., B6 and the right
      column the odd steps D4, F4, .., C7, each column rising. */
  lemma LayoutIsInterleavedScale()
    ensures |LeftColumn| == 11 && |RightColumn| == 11 && |Pool| == PoolSize
    ensures forall i :: 0 <= i < 11 ==>
      IsKeyNote(LeftColumn[i]) && DiatonicStep(LeftColumn[i]) == 28 + 2 * i
    ensures forall i :: 0 <= i < 11 ==>
      IsKeyNote(RightColumn[i]) && DiatonicStep(RightColumn[i]) == 29 + 2 * i
  {
  }

  lemma PoolNoteStep(i: nat)
    requires i < |Pool|
    ensures IsKeyNote(Pool[i])
    ensures i < 11 ==> DiatonicStep(Pool[i]) == 28 + 2 * i
    ensures 11 <= i ==> DiatonicStep(Pool[i]) == 29 + 2 * (i - 11)
  {
    LayoutIsInterleavedScale();
    if 11 <= i {
      assert Pool[i] == RightColumn[i - 11];
    }
  }

  /** Every id in the pool is a lowercase letter and a digit, and the 22
      ids are pairwise different. */
  lemma {:induction false} PoolIdsWellFormed()
    ensures |PoolIds| == PoolSize
    ensures forall i :: 0 <= i < |PoolIds| ==> IsNoteIdShape(PoolIds[i])
    ensures Distinct(PoolIds)
  {
    forall i | 0 <= i < |PoolIds|
      ensures IsNoteIdShape(PoolIds[i])
    {
      PoolNoteStep(i);
      NoteIdShape(Pool[i]);
    }
    forall i, j | 0 <= i < j < |PoolIds|
      ensures PoolIds[i] != PoolIds[j]
    {
      PoolNoteStep(i);
      PoolNoteStep(j);
      if PoolIds[i] == PoolIds[j] {
        NoteIdInjective(Pool[i], Pool[j]);
        assert false;
      }
    }
  }

  // ---------------------------------------------------------------------
  // Rendered key elements
  // ---------------------------------------------------------------------

  /** Whether a key element tagged with `id` exists on the page: one element
      is rendered per note of each column. */
  predicate HasKeyElement(id: string) {
    id in PoolIds
  }

  // ---------------------------------------------------------------------
  // Audio preload: the set of ids a sound is loaded for
  // ---------------------------------------------------------------------

  /** `[...new Set(xs)]`: every value of `xs` once. */
  function Dedup(xs: seq<string>): (r: seq<string>)
    ensures forall x :: x in r <==> x in xs
    ensures Distinct(r)
    ensures |r| <= |xs|
  {
    if xs == [] then []
    else
      var d := Dedup(xs[..|xs| - 1]);
      var last := xs[|xs| - 1];
      if last in d then d else d + [last]
  }

  /** A list that already has no repeats passes through the de-duplication
      unchanged. */
  lemma {:induction false} DedupOfDistinct(xs: seq<string>)
    requires Distinct(xs)
    ensures Dedup(xs) == xs
  {
    if xs != [] {
      var init := xs[..|xs| - 1];
      assert Distinct(init);
      DedupOfDistinct(init);
      assert xs[|xs| - 1] !in init;
      assert init + [xs[|xs| - 1]] == xs;
    }
  }

  /** Number of sounds the preload starts: one per unique id over both
      columns. */
  function AudioTotal(): nat {
    |Dedup(PoolIds)|
  }

  /** The de-duplication before the preload removes nothing, so one sound
      is loaded per button. */
  lemma {:induction false} AudioTotalIsPoolSize()
    ensures Dedup(PoolIds) == PoolIds
    ensures AudioTotal() == PoolSize
  {
    PoolIdsWellFormed();
    DedupOfDistinct(PoolIds);
  }
}
