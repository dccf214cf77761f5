/** Cables (ResourceWorld/Energy/Cables/Cable.cs): a one-packet relay. */
module Cables {
  import opened Wrappers
  import opened Packets
  import opened Ports
  import opened Connectables

  /** A cable. Its power state has a private setter and is set to On by the
      constructor, so no caller can switch a cable off. */
  datatype Cable = Cable(sides: Sides, power: PowerState, current: Option<Packet>)

  /** `new Cable()` over four freshly allocated ports. */
  function NewCable(s: Sides): (c: Cable)
    ensures c.power == On && c.current == None && c.sides == s
  {
    Cable(s, On, None)
  }

  /** The cable's state part-way through a walk over its ports. */
  datatype CableTick = CableTick(ports: PortMap, current: Option<Packet>)

  /** One iteration of the port loop. An Input port holding a packet is
      collected and its packet REPLACES the current one, whatever that was;
      an Output port, while a packet is held, gets one send attempt and the
      packet is dropped whether or not the send succeeded. */
  function Visit(ports: PortMap, current: Option<Packet>, id: PortId): (r: CableTick)
    requires id in ports && LinksClosed(ports)
  {
    var p := ports[id];
    if p.mode == Input then
      if p.buffer.Some? then
        var c := Collect(p);
        CableTick(ports[id := c.port], c.data)
      else CableTick(ports, current)
    else if p.mode == Output then
      if current.Some? then CableTick(Send(ports, id, Energy(current.value)).ports, None)
      else CableTick(ports, current)
    else CableTick(ports, current)
  }

  /** The `foreach` over the given ports, in order. */
  function Walk(ports: PortMap, current: Option<Packet>, ids: seq<PortId>): (r: CableTick)
    requires AllPresent(ports, ids) && LinksClosed(ports)
    ensures r.ports.Keys == ports.Keys
    decreases |ids|
  {
    if |ids| == 0 then CableTick(ports, current)
    else
      var t := Visit(ports, current, ids[0]);
      VisitTouchesOnly(ports, current, ids[0]);
      SameWiringKeepsLinksClosed(ports, t.ports);
      Walk(t.ports, t.current, ids[1..])
  }

  /** `Cable.Update`: a walk over the ports Top, Right, Bottom, Left. */
  function Update(ports: PortMap, c: Cable): (r: Ticked<Cable>)
    requires Present(ports, c.sides) && LinksClosed(ports)
    ensures r.entity.sides == c.sides && r.entity.power == c.power
    ensures SameWiring(ports, r.ports) && LinksClosed(r.ports)
    ensures c.power == Off ==> r == Ticked(ports, c)
  {
    if c.power == Off then Ticked(ports, c)
    else
      var t := Walk(ports, c.current, c.sides.InOrder());
      WalkTouchesOnly(ports, c.current, c.sides.InOrder());
      SameWiringKeepsLinksClosed(ports, t.ports);
      Ticked(t.ports, c.(current := t.current))
  }

  lemma VisitTouchesOnly(ports: PortMap, current: Option<Packet>, id: PortId)
    requires id in ports && LinksClosed(ports)
    ensures TouchesOnly(ports, Visit(ports, current, id).ports, Reach(ports, [id]))
  {
    if ports[id].mode == Output && current.Some? {
      SendFrame(ports, id, Energy(current.value));
    }
  }

  lemma {:induction false} WalkTouchesOnly(ports: PortMap, current: Option<Packet>, ids: seq<PortId>)
    requires AllPresent(ports, ids) && LinksClosed(ports)
    ensures TouchesOnly(ports, Walk(ports, current, ids).ports, Reach(ports, ids))
    decreases |ids|
  {
    if |ids| > 0 {
      var t := Visit(ports, current, ids[0]);
      VisitTouchesOnly(ports, current, ids[0]);
      SameWiringKeepsLinksClosed(ports, t.ports);
      WalkTouchesOnly(t.ports, t.current, ids[1..]);
      OutputTargetsSameWiring(ports, t.ports, ids[1..]);
      TouchesOnlyTransitive(ports, t.ports, Walk(t.ports, t.current, ids[1..]).ports, Reach(ports, [ids[0]]), Reach(ports, ids[1..]));
      ReachSplit(ports, ids);
    }
  }

  /** `Cable.Update` never changes a mode or a link, never writes the buffer
      of an Output or Closed port, and the only ports it writes besides its
      own are the partners of its Output ports. */
  lemma UpdateTouchesOnly(ports: PortMap, c: Cable)
    requires Present(ports, c.sides) && LinksClosed(ports)
    ensures TouchesOnly(ports, Update(ports, c).ports, Reach(ports, c.sides.InOrder()))
  {
    if c.power == On {
      WalkTouchesOnly(ports, c.current, c.sides.InOrder());
    }
  }

  ghost predicate Filled(ports: PortMap, id: PortId)
    requires id in ports
  {
    ports[id].mode == Input && ports[id].buffer.Some?
  }

  /** Visiting a port that is not Output: a filled Input port is emptied and
      its packet becomes the current one; anything else is left alone. */
  lemma VisitNonOutput(ports: PortMap, current: Option<Packet>, id: PortId)
    requires id in ports && LinksClosed(ports) && ports[id].mode != Output
    ensures Visit(ports, current, id) ==
      if Filled(ports, id) then CableTick(ports[id := ports[id].(buffer := None)], ports[id].buffer)
      else CableTick(ports, current)
  {
  }

  /** The walked ports, minus the first, seen after the first was visited. */
  lemma RestUnchanged(ports: PortMap, current: Option<Packet>, ids: seq<PortId>)
    requires |ids| > 0 && AllPresent(ports, ids) && LinksClosed(ports) && NoDuplicates(ids)
    requires ports[ids[0]].mode != Output
    ensures AllPresent(Visit(ports, current, ids[0]).ports, ids[1..]) && NoDuplicates(ids[1..])
    ensures forall i :: 1 <= i < |ids| ==> Visit(ports, current, ids[0]).ports[ids[i]] == ports[ids[i]]
    ensures forall i :: 0 <= i < |ids| - 1 ==> ids[1..][i] == ids[i + 1]
  {
    VisitNonOutput(ports, current, ids[0]);
  }

  /** With no Output port among the walked ports, every Input port ends empty. */
  lemma {:induction false} InputsDrained(ports: PortMap, current: Option<Packet>, ids: seq<PortId>)
    requires AllPresent(ports, ids) && LinksClosed(ports) && NoDuplicates(ids)
    requires forall i :: 0 <= i < |ids| ==> ports[ids[i]].mode != Output
    ensures forall i :: 0 <= i < |ids| && ports[ids[i]].mode == Input ==> Walk(ports, current, ids).ports[ids[i]].buffer == None
    decreases |ids|
  {
    if |ids| > 0 {
      var t := Visit(ports, current, ids[0]);
      RestUnchanged(ports, current, ids);
      VisitNonOutput(ports, current, ids[0]);
      InputsDrained(t.ports, t.current, ids[1..]);
      var r := Walk(ports, current, ids);
      forall i | 0 <= i < |ids| && ports[ids[i]].mode == Input
        ensures r.ports[ids[i]].buffer == None
      {
        if i > 0 {
          assert ids[1..][i - 1] == ids[i];
        } else {
          WalkTouchesOnly(t.ports, t.current, ids[1..]);
          assert ids[0] !in Reach(t.ports, ids[1..]);
        }
      }
    }
  }

  /** With no Output port and no filled Input port, the cable keeps its packet. */
  lemma {:induction false} NothingFilledKeeps(ports: PortMap, current: Option<Packet>, ids: seq<PortId>)
    requires AllPresent(ports, ids) && LinksClosed(ports) && NoDuplicates(ids)
    requires forall i :: 0 <= i < |ids| ==> ports[ids[i]].mode != Output && !Filled(ports, ids[i])
    ensures Walk(ports, current, ids).current == current
    decreases |ids|
  {
    if |ids| > 0 {
      var t := Visit(ports, current, ids[0]);
      RestUnchanged(ports, current, ids);
      VisitNonOutput(ports, current, ids[0]);
      NothingFilledKeeps(t.ports, t.current, ids[1..]);
    }
  }

  /** With no Output port among the walked ports, the cable ends up holding
      the packet of the LAST filled Input port in port order; packets of
      earlier Input ports are collected and discarded. */
  lemma {:induction false} LastInputWins(ports: PortMap, current: Option<Packet>, ids: seq<PortId>, k: nat)
    requires AllPresent(ports, ids) && LinksClosed(ports) && NoDuplicates(ids)
    requires forall i :: 0 <= i < |ids| ==> ports[ids[i]].mode != Output
    requires k < |ids| && Filled(ports, ids[k])
    requires forall j :: k < j < |ids| ==> !Filled(ports, ids[j])
    ensures Walk(ports, current, ids).current == ports[ids[k]].buffer
    decreases |ids|
  {
    var t := Visit(ports, current, ids[0]);
    RestUnchanged(ports, current, ids);
    VisitNonOutput(ports, current, ids[0]);
    if k > 0 {
      LastInputWins(t.ports, t.current, ids[1..], k - 1);
    } else {
      NothingFilledKeeps(t.ports, t.current, ids[1..]);
    }
  }

  /** At an Output port, a held packet is sent once and dropped whatever the
      send returned: a rejected packet is lost. */
  lemma OutputAlwaysDrops(ports: PortMap, p: Packet, id: PortId)
    requires id in ports && LinksClosed(ports) && ports[id].mode == Output
    ensures Visit(ports, Some(p), id).current == None
    ensures Visit(ports, Some(p), id).ports == Send(ports, id, Energy(p)).ports
    ensures !Send(ports, id, Energy(p)).ok ==> Visit(ports, Some(p), id).ports == ports
  {
  }

  /** An Input port holding a packet is emptied and its packet replaces
      whatever the cable held. */
  lemma InputReplaces(ports: PortMap, current: Option<Packet>, id: PortId)
    requires id in ports && LinksClosed(ports) && Filled(ports, id)
    ensures Visit(ports, current, id).current == ports[id].buffer
    ensures Visit(ports, current, id).ports == ports[id := ports[id].(buffer := None)]
  {
  }

  /** A walk is a visit of its first port followed by a walk over the rest. */
  lemma WalkCons(ports: PortMap, current: Option<Packet>, id: PortId, rest: seq<PortId>)
    requires id in ports && AllPresent(ports, rest) && LinksClosed(ports)
    ensures AllPresent(Visit(ports, current, id).ports, rest)
    ensures Walk(ports, current, [id] + rest) ==
      Walk(Visit(ports, current, id).ports, Visit(ports, current, id).current, rest)
  {
    assert ([id] + rest)[1..] == rest;
  }

  /** A Closed port is skipped. */
  lemma ClosedStep(ports: PortMap, current: Option<Packet>, id: PortId, rest: seq<PortId>)
    requires id in ports && AllPresent(ports, rest) && LinksClosed(ports)
    requires ports[id].mode == Closed
    ensures Walk(ports, current, [id] + rest) == Walk(ports, current, rest)
  {
    WalkCons(ports, current, id, rest);
  }

  /** A filled Input port is emptied and its packet becomes the current one. */
  lemma FilledInputStep(ports: PortMap, current: Option<Packet>, id: PortId, rest: seq<PortId>)
    requires id in ports && AllPresent(ports, rest) && LinksClosed(ports)
    requires Filled(ports, id)
    ensures AllPresent(ports[id := ports[id].(buffer := None)], rest)
    ensures LinksClosed(ports[id := ports[id].(buffer := None)])
    ensures Walk(ports, current, [id] + rest) == Walk(ports[id := ports[id].(buffer := None)], ports[id].buffer, rest)
  {
    WalkCons(ports, current, id, rest);
    VisitNonOutput(ports, current, id);
    VisitTouchesOnly(ports, current, id);
    SameWiringKeepsLinksClosed(ports, ports[id := ports[id].(buffer := None)]);
  }

  /** An Output port reached while holding a packet: one send, then the
      packet is gone. */
  lemma HeldOutputStep(ports: PortMap, p: Packet, id: PortId, rest: seq<PortId>)
    requires id in ports && AllPresent(ports, rest) && LinksClosed(ports)
    requires ports[id].mode == Output
    ensures AllPresent(Send(ports, id, Energy(p)).ports, rest)
    ensures LinksClosed(Send(ports, id, Energy(p)).ports)
    ensures Walk(ports, Some(p), [id] + rest) == Walk(Send(ports, id, Energy(p)).ports, None, rest)
  {
    WalkCons(ports, Some(p), id, rest);
    VisitTouchesOnly(ports, Some(p), id);
    SameWiringKeepsLinksClosed(ports, Send(ports, id, Energy(p)).ports);
  }

  /** The walk behind `RelayTopToRight`. */
  lemma RelayWalk(ports: PortMap, current: Option<Packet>, s: Sides)
    requires Present(ports, s) && s.Distinct() && LinksClosed(ports)
    requires Filled(ports, s.top) && ports[s.right].mode == Output
    requires ports[s.bottom].mode == Closed && ports[s.left].mode == Closed
    ensures var emptied := ports[s.top := ports[s.top].(buffer := None)];
            Walk(ports, current, s.InOrder()) == CableTick(Send(emptied, s.right, Energy(ports[s.top].buffer.value)).ports, None)
  {
    var p := ports[s.top].buffer.value;
    var p1 := ports[s.top := ports[s.top].(buffer := None)];
    var rest := [s.right, s.bottom, s.left];
    assert s.InOrder() == [s.top] + rest;
    FilledInputStep(ports, current, s.top, rest);
    RelayTail(p1, p, s.right, s.bottom, s.left);
  }

  /** The Right, Bottom, Left part of `RelayWalk`: the held packet goes out
      through Right, the Closed ports are skipped. */
  lemma RelayTail(ports: PortMap, p: Packet, right: PortId, bottom: PortId, left: PortId)
    requires right in ports && bottom in ports && left in ports && LinksClosed(ports)
    requires ports[right].mode == Output && ports[bottom].mode == Closed && ports[left].mode == Closed
    ensures Walk(ports, Some(p), [right, bottom, left]) == CableTick(Send(ports, right, Energy(p)).ports, None)
  {
    assert [right, bottom, left] == [right] + [bottom, left];
    HeldOutputStep(ports, p, right, [bottom, left]);
    var p2 := Send(ports, right, Energy(p)).ports;
    SendFrame(ports, right, Energy(p));
    assert [bottom, left] == [bottom] + [left];
    ClosedStep(p2, None, bottom, [left]);
    assert [left] == [left] + [];
    ClosedStep(p2, None, left, []);
  }

  /** A cable whose Top port is a filled Input, whose Right port is Output and
      whose other ports are Closed forwards the packet through Right and ends
      empty-handed, whether or not the partner accepted it. */
  lemma RelayTopToRight(ports: PortMap, c: Cable)
    requires Present(ports, c.sides) && c.sides.Distinct() && LinksClosed(ports) && c.power == On
    requires Filled(ports, c.sides.top) && ports[c.sides.right].mode == Output
    requires ports[c.sides.bottom].mode == Closed && ports[c.sides.left].mode == Closed
    ensures var emptied := ports[c.sides.top := ports[c.sides.top].(buffer := None)];
            Update(ports, c) == Ticked(Send(emptied, c.sides.right, Energy(ports[c.sides.top].buffer.value)).ports, c.(current := None))
  {
    RelayWalk(ports, c.current, c.sides);
  }

  /** A cable whose only open port is a filled Input port on top takes that
      packet, replacing whatever it held, and empties the port. */
  lemma TakeFromTop(ports: PortMap, c: Cable)
    requires Present(ports, c.sides) && c.sides.Distinct() && LinksClosed(ports) && c.power == On
    requires Filled(ports, c.sides.top) && ports[c.sides.right].mode == Closed
    requires ports[c.sides.bottom].mode == Closed && ports[c.sides.left].mode == Closed
    ensures Update(ports, c) == Ticked(ports[c.sides.top := ports[c.sides.top].(buffer := None)], c.(current := ports[c.sides.top].buffer))
  {
    var s := c.sides;
    var p1 := ports[s.top := ports[s.top].(buffer := None)];
    assert s.InOrder() == [s.top] + [s.right, s.bottom, s.left];
    FilledInputStep(ports, c.current, s.top, [s.right, s.bottom, s.left]);
    assert [s.right, s.bottom, s.left] == [s.right] + [s.bottom, s.left];
    ClosedStep(p1, ports[s.top].buffer, s.right, [s.bottom, s.left]);
    assert [s.bottom, s.left] == [s.bottom] + [s.left];
    ClosedStep(p1, ports[s.top].buffer, s.bottom, [s.left]);
    assert [s.left] == [s.left] + [];
    ClosedStep(p1, ports[s.top].buffer, s.left, []);
  }

  /** A cable whose only open port is a filled Input port on the left takes
      that packet, replacing whatever it held, and empties the port. */
  lemma TakeFromLeft(ports: PortMap, c: Cable)
    requires Present(ports, c.sides) && c.sides.Distinct() && LinksClosed(ports) && c.power == On
    requires Filled(ports, c.sides.left) && ports[c.sides.top].mode == Closed
    requires ports[c.sides.right].mode == Closed && ports[c.sides.bottom].mode == Closed
    ensures Update(ports, c) == Ticked(ports[c.sides.left := ports[c.sides.left].(buffer := None)], c.(current := ports[c.sides.left].buffer))
  {
    var s := c.sides;
    assert s.InOrder() == [s.top] + [s.right, s.bottom, s.left];
    ClosedStep(ports, c.current, s.top, [s.right, s.bottom, s.left]);
    assert [s.right, s.bottom, s.left] == [s.right] + [s.bottom, s.left];
    ClosedStep(ports, c.current, s.right, [s.bottom, s.left]);
    assert [s.bottom, s.left] == [s.bottom] + [s.left];
    ClosedStep(ports, c.current, s.bottom, [s.left]);
    assert [s.left] == [s.left] + [];
    FilledInputStep(ports, c.current, s.left, []);
  }
}
