/** The upgrade slots of an object (ResourceWorld/Upgrades/UpgradeContainer.cs):
    a fixed number of slots, each empty (`null`) or holding an upgrade. */
module Upgrades {
  import opened Wrappers
  import opened SlotSearch

  /** The concrete upgrade classes; `CombinePacketUpgrade` is the only one. */
  datatype UpgradeKind = CombinePacket

  /** An upgrade instance. Slots compare upgrades by reference; `id` stands
      for that identity, so two instances of one kind differ. */
  datatype Upgrade = Upgrade(id: nat, kind: UpgradeKind)

  /** The identity of the object the container is built into. */
  type OwnerId = nat

  /** `_parent` and `_upgradeSlots`. */
  datatype UpgradeContainer = UpgradeContainer(parent: OwnerId, slots: seq<Option<Upgrade>>)

  /** `new UpgradeContainer(parent, amountSlots = 1)`: a null parent raises
      `ArgumentNullException`; a negative length makes the array creation
      raise `OverflowException`; otherwise every slot starts empty. */
  function NewUpgradeContainer(parent: Option<OwnerId>, amountSlots: int := 1): (r: Result<UpgradeContainer>)
    ensures parent.None? <==> r == Err(ArgumentNull)
    ensures parent.Some? && amountSlots < 0 <==> r == Err(Overflow)
    ensures r.Ok? ==> r.value.parent == parent.value && |r.value.slots| == amountSlots
    ensures r.Ok? ==> forall i :: 0 <= i < |r.value.slots| ==> r.value.slots[i].None?
  {
    if parent.None? then Err(ArgumentNull)
    else if amountSlots < 0 then Err(Overflow)
    else Ok(UpgradeContainer(parent.value, seq(amountSlots, _ => None)))
  }

  /** `InstallUpgrade`: `compatible` is the owner's `IsUpgradeCompatible`
      answer, which is outside this model. A compatible upgrade goes into
      the lowest free slot; every path answers true. */
  function InstallUpgrade(c: UpgradeContainer, upgrade: Option<Upgrade>, compatible: bool): (r: (UpgradeContainer, bool))
    ensures r.1
    ensures r.0.parent == c.parent && |r.0.slots| == |c.slots|
    ensures !compatible || None !in c.slots ==> r.0 == c
    ensures compatible && None in c.slots ==>
      exists k :: 0 <= k < |c.slots| && c.slots[k] == None && r.0.slots == c.slots[k := upgrade]
        && forall i :: 0 <= i < k ==> c.slots[i].Some?
  {
    var k := IndexOf(c.slots, None);
    if compatible && k != -1 then (c.(slots := c.slots[k := upgrade]), true)
    else (c, true)
  }

  /** `RemoveUpgrade`: empties the lowest slot holding exactly `upgrade` and
      answers true, or answers false and changes nothing. */
  function RemoveUpgrade(c: UpgradeContainer, upgrade: Option<Upgrade>): (r: (UpgradeContainer, bool))
    ensures r.1 <==> upgrade in c.slots
    ensures r.0.parent == c.parent && |r.0.slots| == |c.slots|
    ensures !r.1 ==> r.0 == c
    ensures r.1 ==>
      exists k :: 0 <= k < |c.slots| && c.slots[k] == upgrade && r.0.slots == c.slots[k := None]
        && forall i :: 0 <= i < k ==> c.slots[i] != upgrade
  {
    var k := IndexOf(c.slots, upgrade);
    if k != -1 then (c.(slots := c.slots[k := None]), true)
    else (c, false)
  }

  /** Whether one of `slots` holds an upgrade of the given kind. */
  function AnyOfKind(slots: seq<Option<Upgrade>>, kind: UpgradeKind): (b: bool)
    ensures b <==> exists i :: 0 <= i < |slots| && slots[i].Some? && slots[i].value.kind == kind
    decreases |slots|
  {
    if |slots| == 0 then false
    else if slots[0].Some? && slots[0].value.kind == kind then true
    else
      var b := AnyOfKind(slots[1..], kind);
      assert forall i :: 1 <= i < |slots| ==> slots[i] == slots[1..][i - 1];
      b
  }

  /** `ContainsUpdateOfType<UpgradeType>()`: some slot holds an upgrade whose
      class is exactly that kind; empty slots never match. */
  function ContainsUpdateOfType(c: UpgradeContainer, kind: UpgradeKind): (b: bool)
    ensures b <==> exists i :: 0 <= i < |c.slots| && c.slots[i].Some? && c.slots[i].value.kind == kind
  {
    AnyOfKind(c.slots, kind)
  }

  // ---------------------------------------------------------------------
  // Properties
  // ---------------------------------------------------------------------

  /** Installing a new upgrade into a container with a free slot and
      removing it again gives back the container, and the removal succeeds. */
  lemma InstallRemoveRoundTrip(c: UpgradeContainer, u: Upgrade)
    requires None in c.slots && Some(u) !in c.slots
    ensures RemoveUpgrade(InstallUpgrade(c, Some(u), true).0, Some(u)) == (c, true)
  {
    var k := IndexOf(c.slots, None);
    var d := InstallUpgrade(c, Some(u), true).0;
    assert d.slots == c.slots[k := Some(u)];
    IndexOfAfterWrite(c.slots, k, Some(u));
    assert d.slots[k := None] == c.slots;
  }

  /** A compatible upgrade installed into a free slot is then reported by
      `ContainsUpdateOfType`. */
  lemma InstallThenContains(c: UpgradeContainer, u: Upgrade)
    requires None in c.slots
    ensures ContainsUpdateOfType(InstallUpgrade(c, Some(u), true).0, u.kind)
  {
    var k := IndexOf(c.slots, None);
    assert InstallUpgrade(c, Some(u), true).0.slots[k] == Some(u);
  }

  /** There is no uniqueness check: with two free slots, installing the
      same upgrade twice puts it into two different slots. */
  lemma InstallTwiceDuplicates(c: UpgradeContainer, u: Upgrade, j: int, k: int)
    requires 0 <= j < k < |c.slots| && c.slots[j] == None && c.slots[k] == None
    ensures var d := InstallUpgrade(InstallUpgrade(c, Some(u), true).0, Some(u), true).0;
      exists a, b :: 0 <= a < b < |d.slots| && d.slots[a] == Some(u) && d.slots[b] == Some(u)
  {
    var d1 := InstallUpgrade(c, Some(u), true).0;
    var a := IndexOf(c.slots, None);
    assert a <= j < k && d1.slots[k] == None;
    var d := InstallUpgrade(d1, Some(u), true).0;
    var b := IndexOf(d1.slots, None);
    assert d1.slots[a] == Some(u) && a < b;
    assert d.slots[a] == Some(u) && d.slots[b] == Some(u);
  }

  /** Removing `null` finds the first free slot: it answers true exactly
      when some slot is empty and never changes a slot. */
  lemma RemoveNullMatchesFreeSlot(c: UpgradeContainer)
    ensures RemoveUpgrade(c, None).1 <==> None in c.slots
    ensures RemoveUpgrade(c, None).0 == c
  {
    var k := IndexOf(c.slots, None);
    if k != -1 {
      assert c.slots[k := None] == c.slots;
    }
  }

  /** A container that is full, or an upgrade the owner rejects, leaves the
      slots as they were even though the answer is true. */
  lemma InstallRejectedStillTrue(c: UpgradeContainer, u: Option<Upgrade>, compatible: bool)
    requires !compatible || forall i :: 0 <= i < |c.slots| ==> c.slots[i].Some?
    ensures InstallUpgrade(c, u, compatible) == (c, true)
  {
    NullSearchIsFreeSearch(c.slots);
  }
}
