/** What every connectable resource object shares
    (ResourceWorld/IResourceObject.cs, ResourceWorld/Connection/IConnectable.cs):
    a power state and four ports, walked in the order Top, Right, Bottom, Left. */
module Connectables {
  import opened Ports

  /** `PowerState`; `On` is the C# default value of the enum. */
  datatype PowerState = On | Off

  datatype Side = Top | Right | Bottom | Left

  /** The side a neighbour's port faces back from. */
  function Opposite(s: Side): Side
  {
    match s
    case Top => Bottom
    case Right => Left
    case Bottom => Top
    case Left => Right
  }

  /** The four port ids of one object. */
  datatype Sides = Sides(top: PortId, right: PortId, bottom: PortId, left: PortId)
  {
    /** The `_ports` array every entity builds: `{ Top, Right, Bottom, Left }`. */
    function InOrder(): seq<PortId>
    {
      [top, right, bottom, left]
    }

    function At(s: Side): PortId
    {
      match s
      case Top => top
      case Right => right
      case Bottom => bottom
      case Left => left
    }

    function AsSet(): set<PortId>
    {
      {top, right, bottom, left}
    }

    /** The array and the set hold the same ports. */
    lemma InOrderIsAsSet()
      ensures forall q :: q in InOrder() <==> q in AsSet()
    {
    }

    /** Four separately allocated ports. */
    predicate Distinct()
    {
      top != right && top != bottom && top != left && right != bottom && right != left && bottom != left
    }
  }

  ghost predicate Present(ports: PortMap, s: Sides)
  {
    s.top in ports && s.right in ports && s.bottom in ports && s.left in ports
  }

  /** All four ports exist and none is linked. */
  ghost predicate Unlinked(ports: PortMap, s: Sides)
  {
    && Present(ports, s)
    && ports[s.top].link.None? && ports[s.right].link.None?
    && ports[s.bottom].link.None? && ports[s.left].link.None?
  }

  /** Every id of a walk is a port of the store. */
  ghost predicate AllPresent(ports: PortMap, ids: seq<PortId>)
  {
    forall i :: 0 <= i < |ids| ==> ids[i] in ports
  }

  /** No id occurs twice in a walk. */
  ghost predicate NoDuplicates(ids: seq<PortId>)
  {
    forall i, j :: 0 <= i < j < |ids| ==> ids[i] != ids[j]
  }

  /** The partners of the Output ports among `ids`: the only foreign ports
      whose buffers an entity's update can write. */
  function OutputTargets(ports: PortMap, ids: seq<PortId>): set<PortId>
  {
    set i | i in ids && i in ports && ports[i].mode == Output && ports[i].link.Some? :: ports[i].link.value
  }

  /** The ports an update walking `ids` may write: the walked ports and the
      partners of the walked Output ports. */
  function Reach(ports: PortMap, ids: seq<PortId>): set<PortId>
  {
    (set i | i in ids) + OutputTargets(ports, ids)
  }

  lemma ReachSplit(ports: PortMap, ids: seq<PortId>)
    requires |ids| > 0
    ensures Reach(ports, ids) == Reach(ports, [ids[0]]) + Reach(ports, ids[1..])
  {
    assert forall i :: i in ids <==> i == ids[0] || i in ids[1..];
  }

  lemma OutputTargetsSplit(ports: PortMap, ids: seq<PortId>)
    requires |ids| > 0
    ensures OutputTargets(ports, ids) == OutputTargets(ports, [ids[0]]) + OutputTargets(ports, ids[1..])
  {
    assert forall i :: i in ids <==> i == ids[0] || i in ids[1..];
  }

  lemma OutputTargetsSameWiring(a: PortMap, b: PortMap, ids: seq<PortId>)
    requires SameWiring(a, b)
    ensures OutputTargets(a, ids) == OutputTargets(b, ids)
    ensures Reach(a, ids) == Reach(b, ids)
  {
  }

  /** Four `new EnergyPort()` allocations for a freshly constructed object. */
  function AddPorts(ports: PortMap, s: Sides): (r: PortMap)
    requires s.Distinct() && s.top !in ports && s.right !in ports && s.bottom !in ports && s.left !in ports
    ensures r.Keys == ports.Keys + s.AsSet()
    ensures forall q :: q in ports ==> r[q] == ports[q]
    ensures forall q :: q in s.AsSet() ==> r[q] == NewEnergyPort()
  {
    ports[s.top := NewEnergyPort()][s.right := NewEnergyPort()][s.bottom := NewEnergyPort()][s.left := NewEnergyPort()]
  }

  /** The result of one object's `Update`: the port store and the object's own new state. */
  datatype Ticked<E> = Ticked(ports: PortMap, entity: E)
}
