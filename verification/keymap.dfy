/** The physical-key table: 22 `KeyboardEvent.code` values, each bound to
    the id of one button.  The first block of the table serves the right
    column, the second the left column. */
module KeyMap {
  import opened Wrappers
  import opened Layout

  /** A table entry: a key code and the note id it plays. */
  type Binding = (string, string)

  /** Codes for the right column (top row), in table order. */
  const RightHandKeys: seq<Binding> := [
    ("KeyA", "d4"), ("KeyS", "f4"), ("KeyD", "a4"),
    ("KeyF", "c5"), ("KeyG", "e5"), ("KeyH", "g5"),
    ("KeyJ", "b5"), ("KeyK", "d6"), ("KeyL", "f6"),
    ("Semicolon", "a6"),
    ("Quote", "c7")
  ]

  /** Codes for the left column (bottom row), in table order. */
  const LeftHandKeys: seq<Binding> := [
    ("KeyZ", "c4"), ("KeyX", "e4"), ("KeyC", "g4"),
    ("KeyV", "b4"), ("KeyB", "d5"), ("KeyN", "f5"),
    ("KeyM", "a5"), ("Comma", "c6"),
    ("Period", "e6"),
    ("Slash", "g6"),
    ("BracketRight", "b6")
  ]

  const Bindings: seq<Binding> := RightHandKeys + LeftHandKeys

  function Codes(entries: seq<Binding>): (codes: seq<string>)
    ensures |codes| == |entries|
    ensures forall i :: 0 <= i < |entries| ==> codes[i] == entries[i].0
  {
    seq(|entries|, i requires 0 <= i < |entries| => entries[i].0)
  }

  /** The object an object literal builds: every entry sets its property in
      turn, so of two entries with the same code the later one wins. */
  function ToMap(entries: seq<Binding>): (m: map<string, string>)
    ensures forall code :: code in m <==> code in Codes(entries)
  {
    if entries == [] then map[]
    else
      var last := entries[|entries| - 1];
      ToMap(entries[..|entries| - 1])[last.0 := last.1]
  }

  const KeyMapping: map<string, string> := ToMap(Bindings)

  /** `KEY_MAPPING[code]`: the bound id, or nothing for an unbound code. */
  function Lookup(code: string): (r: Option<string>)
    ensures r.Some? <==> code in Codes(Bindings)
  {
    if code in KeyMapping then Some(KeyMapping[code]) else None
  }

  /** With no repeated code, every entry of an object literal survives. */
  lemma {:induction false} ToMapKeepsEntry(entries: seq<Binding>, i: nat)
    requires Distinct(Codes(entries))
    requires i < |entries|
    ensures ToMap(entries)[entries[i].0] == entries[i].1
  {
    var n := |entries| - 1;
    var init := entries[..n];
    if i < n {
      assert Codes(init) == Codes(entries)[..n];
      assert Distinct(Codes(init));
      ToMapKeepsEntry(init, i);
      assert entries[i].0 != entries[n].0 by {
        assert Codes(entries)[i] != Codes(entries)[n];
      }
    }
  }

  lemma CodesDistinct()
    ensures Distinct(Codes(Bindings))
  {
  }

  /** Position in the pool (left column first) of the button the i-th table
      entry plays: the right-hand block comes first in the table but second
      in the pool. */
  function PoolPosition(i: nat): (k: nat)
    requires i < |Bindings|
    ensures k < |PoolIds|
    ensures i < 11 <==> 11 <= k
  {
    if i < 11 then i + 11 else i - 11
  }

  /** Entry i of the right-hand block plays button i of the right column,
      entry i of the left-hand block button i of the left column. */
  lemma {:induction false} BindingPlaysColumnKey(i: nat)
    requires i < |Bindings|
    ensures i < 11 ==> Bindings[i].1 == NoteId(RightColumn[i])
    ensures 11 <= i ==> Bindings[i].1 == NoteId(LeftColumn[i - 11])
    ensures Bindings[i].1 == PoolIds[PoolPosition(i)]
  {
  }

  lemma BoundEntry(i: nat)
    requires i < |Bindings|
    ensures Bindings[i].0 in KeyMapping
    ensures KeyMapping[Bindings[i].0] == Bindings[i].1 == PoolIds[PoolPosition(i)]
  {
    CodesDistinct();
    ToMapKeepsEntry(Bindings, i);
    BindingPlaysColumnKey(i);
  }

  lemma CodeIndex(code: string) returns (i: nat)
    requires code in KeyMapping
    ensures i < |Bindings| && Bindings[i].0 == code
  {
    var c := Codes(Bindings);
    assert code in c;
    i :| 0 <= i < |c| && c[i] == code;
  }

  /** The key table agrees with the layout column by column: the codes of
      the right-hand block play the right column top to bottom, those of the
      left-hand block the left column. */
  lemma {:induction false} KeyTableFollowsColumns()
    ensures |RightHandKeys| == |RightColumn| && |LeftHandKeys| == |LeftColumn|
    ensures forall i :: 0 <= i < |RightHandKeys| ==>
      Lookup(RightHandKeys[i].0) == Some(NoteId(RightColumn[i]))
    ensures forall i :: 0 <= i < |LeftHandKeys| ==>
      Lookup(LeftHandKeys[i].0) == Some(NoteId(LeftColumn[i]))
  {
    forall i | 0 <= i < |RightHandKeys|
      ensures Lookup(RightHandKeys[i].0) == Some(NoteId(RightColumn[i]))
    {
      assert Bindings[i] == RightHandKeys[i];
      BoundEntry(i);
      BindingPlaysColumnKey(i);
    }
    forall i | 0 <= i < |LeftHandKeys|
      ensures Lookup(LeftHandKeys[i].0) == Some(NoteId(LeftColumn[i]))
    {
      assert Bindings[i + 11] == LeftHandKeys[i];
      BoundEntry(i + 11);
      BindingPlaysColumnKey(i + 11);
    }
  }

  lemma CodePlaysButton(code: string)
    requires code in KeyMapping
    ensures HasKeyElement(KeyMapping[code])
  {
    var i := CodeIndex(code);
    BoundEntry(i);
  }

  lemma CodesPlayDifferentButtons(c1: string, c2: string)
    requires c1 in KeyMapping && c2 in KeyMapping
    requires KeyMapping[c1] == KeyMapping[c2]
    ensures c1 == c2
  {
    var i1 := CodeIndex(c1);
    var i2 := CodeIndex(c2);
    BoundEntry(i1);
    BoundEntry(i2);
    PoolIdsWellFormed();
    assert PoolPosition(i1) == PoolPosition(i2);
  }

  lemma ButtonHasCode(id: string) returns (code: string)
    requires HasKeyElement(id)
    ensures code in KeyMapping && KeyMapping[code] == id
  {
    var k :| 0 <= k < |PoolIds| && PoolIds[k] == id;
    var i := if k < 11 then k + 11 else k - 11;
    BoundEntry(i);
    code := Bindings[i].0;
  }

  /** The table is a bijection from its codes onto the 22 button ids: every
      bound code plays a rendered button, no two codes play the same one,
      and every button has a code. */
  lemma {:induction false} KeyMappingIsBijection()
    ensures forall code :: code in KeyMapping ==> HasKeyElement(KeyMapping[code])
    ensures forall c1, c2 ::
      c1 in KeyMapping && c2 in KeyMapping && KeyMapping[c1] == KeyMapping[c2] ==> c1 == c2
    ensures forall id :: HasKeyElement(id) ==>
      exists code :: code in KeyMapping && KeyMapping[code] == id
  {
    forall code | code in KeyMapping
      ensures HasKeyElement(KeyMapping[code])
    {
      CodePlaysButton(code);
    }
    forall c1, c2 | c1 in KeyMapping && c2 in KeyMapping && KeyMapping[c1] == KeyMapping[c2]
      ensures c1 == c2
    {
      CodesPlayDifferentButtons(c1, c2);
    }
    forall id | HasKeyElement(id)
      ensures exists code :: code in KeyMapping && KeyMapping[code] == id
    {
      var code := ButtonHasCode(id);
    }
  }

  /** The table holds 22 distinct codes. */
  lemma {:induction false} KeyMappingSize()
    ensures |KeyMapping| == PoolSize
  {
    CodesDistinct();
    var c := Codes(Bindings);
    assert KeyMapping.Keys == set i | 0 <= i < |c| :: c[i];
    DistinctCardinality(c);
  }

  lemma {:induction false} DistinctCardinality(s: seq<string>)
    requires Distinct(s)
    ensures |set i | 0 <= i < |s| :: s[i]| == |s|
  {
    if s != [] {
      var n := |s| - 1;
      var init := s[..n];
      assert Distinct(init);
      DistinctCardinality(init);
      var a := set i | 0 <= i < |init| :: init[i];
      assert (set i | 0 <= i < |s| :: s[i]) == a + {s[n]};
      assert s[n] !in a;
    }
  }
}
