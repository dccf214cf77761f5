/** The slot searches of ResourceWorld/Extensions.cs (and their private twins
    in UpgradeContainer.cs): a linear scan over an array of slots, a slot
    being an upgrade or `null`. */
module SlotSearch {
  import opened Wrappers

  /** The lowest index of `slots` holding `x`, or -1 when none does. */
  function IndexOf<T(==)>(slots: seq<T>, x: T): (r: int)
    ensures -1 <= r < |slots|
    ensures r == -1 <==> x !in slots
    ensures r >= 0 ==> slots[r] == x && forall i :: 0 <= i < r ==> slots[i] != x
    decreases |slots|
  {
    if |slots| == 0 then -1
    else if slots[0] == x then 0
    else
      var r := IndexOf(slots[1..], x);
      assert slots == [slots[0]] + slots[1..];
      if r == -1 then -1 else r + 1
  }

  /** `TryGetFirstFreeUpgradeSlotID`: scans from slot 0 for a `null` slot;
      `slotID` starts at -1 and is set only when one is found. */
  method TryGetFirstFreeUpgradeSlotID<T(==)>(slots: seq<Option<T>>) returns (found: bool, slotID: int)
    ensures found <==> None in slots
    ensures found ==> 0 <= slotID < |slots| && slots[slotID] == None
    ensures found ==> forall i :: 0 <= i < slotID ==> slots[i].Some?
    ensures !found ==> slotID == -1
    ensures slotID == IndexOf(slots, None)
  {
    slotID := -1;
    var i := 0;
    while i < |slots|
      invariant 0 <= i <= |slots|
      invariant forall j :: 0 <= j < i ==> slots[j].Some?
    {
      if slots[i] == None {
        slotID := i;
        return true, slotID;
      }
      i := i + 1;
    }
    return false, slotID;
  }

  /** `TryGetSlotIDOfUpgrade`: scans from slot 0 for a slot holding exactly
      `upgrade` (reference equality, so a `null` argument finds the first
      free slot). */
  method TryGetSlotIDOfUpgrade<T(==)>(slots: seq<Option<T>>, upgrade: Option<T>) returns (found: bool, slotID: int)
    ensures found <==> upgrade in slots
    ensures found ==> 0 <= slotID < |slots| && slots[slotID] == upgrade
    ensures found ==> forall i :: 0 <= i < slotID ==> slots[i] != upgrade
    ensures !found ==> slotID == -1
    ensures slotID == IndexOf(slots, upgrade)
  {
    slotID := -1;
    var i := 0;
    while i < |slots|
      invariant 0 <= i <= |slots|
      invariant forall j :: 0 <= j < i ==> slots[j] != upgrade
    {
      if slots[i] == upgrade {
        slotID := i;
        return true, slotID;
      }
      i := i + 1;
    }
    return false, slotID;
  }

  /** Looking up `null` is looking for a free slot: the two searches agree. */
  lemma NullSearchIsFreeSearch<T>(slots: seq<Option<T>>)
    ensures IndexOf(slots, None) == -1 <==> forall i :: 0 <= i < |slots| ==> slots[i].Some?
  {
    if IndexOf(slots, None) == -1 {
      forall i | 0 <= i < |slots| ensures slots[i].Some? {
        assert slots[i] in slots;
      }
    }
  }

  /** Writing `x` into slot k, when no earlier slot holds `x`, makes k the
      slot where the search finds `x`. */
  lemma IndexOfAfterWrite<T>(slots: seq<T>, k: int, x: T)
    requires 0 <= k < |slots|
    requires forall i :: 0 <= i < k ==> slots[i] != x
    ensures IndexOf(slots[k := x], x) == k
  {
    var s := slots[k := x];
    assert s[k] in s;
    assert forall i :: 0 <= i < k ==> s[i] == slots[i];
  }
}
