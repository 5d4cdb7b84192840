/** The en-passant target set: a fixed row of slots, each holding a square or NONE.
    These functions are the values the slot-updating methods of the game produce. */
module EnPassant {
  import opened Pieces

  const TARGET_SLOTS: nat := 16

  /** The first slot at or after `from` that holds `v`, or |slots| when none does. */
  function FirstSlot(slots: seq<int>, v: int, from: nat): (k: nat)
    requires from <= |slots|
    ensures from <= k <= |slots|
    ensures k < |slots| ==> slots[k] == v
    ensures forall j :: from <= j < k ==> slots[j] != v
    decreases |slots| - from
  {
    if from == |slots| then |slots|
    else if slots[from] == v then from
    else FirstSlot(slots, v, from + 1)
  }

  /** Membership of a square in the target set. */
  function IsEnPassantTarget(slots: seq<int>, index: int): (r: bool)
    ensures r <==> index in slots
  {
    FirstSlot(slots, index, 0) < |slots|
  }

  /** Writes `index` into the first free (NONE) slot; a full set is left as it is. */
  function AddTarget(slots: seq<int>, index: int): (r: seq<int>)
    ensures |r| == |slots|
    ensures NONE !in slots ==> r == slots
    ensures NONE in slots ==> index in r
    ensures forall j :: 0 <= j < |r| && r[j] != slots[j] ==> slots[j] == NONE && r[j] == index
    ensures forall i, j :: 0 <= i < j < |r| && r[i] != slots[i] ==> r[j] == slots[j]
  {
    var k := FirstSlot(slots, NONE, 0);
    assert NONE in slots ==> k < |slots| by {
      if NONE in slots {
        var j :| 0 <= j < |slots| && slots[j] == NONE;
        assert j >= k;
      }
    }
    if k < |slots| then
      assert slots[k := index][k] == index;
      slots[k := index]
    else slots
  }

  /** Empties the first slot that holds `index`; nothing changes if no slot does. */
  function ClearTarget(slots: seq<int>, index: int): (r: seq<int>)
    ensures |r| == |slots|
    ensures index !in slots ==> r == slots
    ensures forall j :: 0 <= j < |r| && r[j] != slots[j] ==> slots[j] == index && r[j] == NONE
    ensures forall i, j :: 0 <= i < j < |r| && r[i] != slots[i] ==> r[j] == slots[j]
  {
    var k := FirstSlot(slots, index, 0);
    if k < |slots| then slots[k := NONE] else slots
  }

  /** Adding writes exactly the first free slot. */
  lemma AddWritesFirstFree(slots: seq<int>, index: int, k: nat)
    requires k < |slots| && slots[k] == NONE
    requires forall j :: 0 <= j < k ==> slots[j] != NONE
    ensures AddTarget(slots, index) == slots[k := index]
  {
    var f := FirstSlot(slots, NONE, 0);
    assert f <= k;
  }

  /** Clearing empties exactly the first slot that matches. */
  lemma ClearEmptiesFirstMatch(slots: seq<int>, index: int, k: nat)
    requires k < |slots| && slots[k] == index
    requires forall j :: 0 <= j < k ==> slots[j] != index
    ensures ClearTarget(slots, index) == slots[k := NONE]
  {
    var f := FirstSlot(slots, index, 0);
    assert f <= k;
  }

  /** A square held by a single slot is no longer a target once cleared. */
  lemma ClearRemovesSingle(slots: seq<int>, index: int)
    requires index != NONE
    requires forall i, j :: 0 <= i < j < |slots| && slots[i] == index ==> slots[j] != index
    ensures !IsEnPassantTarget(ClearTarget(slots, index), index)
  {
    var r := ClearTarget(slots, index);
    var k := FirstSlot(slots, index, 0);
    if k < |slots| {
      assert r == slots[k := NONE];
      forall j | 0 <= j < |r|
        ensures r[j] != index
      {
        if j < k {
        } else if j > k {
          assert slots[k] == index;
        }
      }
    }
  }
}
