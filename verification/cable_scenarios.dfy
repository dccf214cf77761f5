/** The cable scenarios of ResourceWorldTest/Connection/CableTest.cs, stated
    for every port store in the scenario's configuration. Two of them end
    differently from what the scenario asserts, because `Cable.Update`
    replaces its packet unconditionally and drops a packet whose send
    failed. */
module CableScenarios {
  import opened Wrappers
  import opened Packets
  import opened Ports
  import opened Connectables
  import opened Cables

  /** A cable whose only open port is its top port, an Input port. */
  ghost predicate TopInputOnly(ports: PortMap, c: Cable)
  {
    && Present(ports, c.sides) && c.sides.Distinct() && LinksClosed(ports) && c.power == On
    && ports[c.sides.top].mode == Input && ports[c.sides.right].mode == Closed
    && ports[c.sides.bottom].mode == Closed && ports[c.sides.left].mode == Closed
  }

  /** ReceiveTest (CableTest.cs:18-32): a packet received on the top port is
      taken over by the cable and the port is emptied. */
  lemma ReceiveScenario(ports: PortMap, c: Cable, p: Packet)
    requires TopInputOnly(ports, c) && ports[c.sides.top].buffer.None?
    ensures var u := Update(ReceiveAt(ports, c.sides.top, Energy(p)).ports, c);
            u.entity.current == Some(p) && u.ports[c.sides.top].buffer == None
  {
    var r := ReceiveAt(ports, c.sides.top, Energy(p)).ports;
    SameWiringKeepsLinksClosed(ports, r);
    TakeFromTop(r, c);
  }

  /** ReceiveFullTest (CableTest.cs:38-56): while the cable holds `p1`, a
      second packet `p2` arriving on the top port REPLACES it and the port is
      emptied; the scenario asserts instead that `p1` stays and `p2` waits. */
  lemma ReceiveFullScenario(ports: PortMap, c: Cable, p1: Packet, p2: Packet)
    requires TopInputOnly(ports, c) && ports[c.sides.top].buffer.None? && c.current.None?
    ensures var u1 := Update(ReceiveAt(ports, c.sides.top, Energy(p1)).ports, c);
            var u2 := Update(ReceiveAt(u1.ports, c.sides.top, Energy(p2)).ports, u1.entity);
            u1.entity.current == Some(p1) && u2.entity.current == Some(p2) && u2.ports[c.sides.top].buffer == None
  {
    var r1 := ReceiveAt(ports, c.sides.top, Energy(p1)).ports;
    SameWiringKeepsLinksClosed(ports, r1);
    TakeFromTop(r1, c);
    var u1 := Update(r1, c);
    ReceiveScenario(u1.ports, u1.entity, p2);
  }

  /** SendTest (CableTest.cs:62-83): the packet taken from the top port is sent
      through the right port into the empty Input port it is linked to, the
      left port of a second cable `c2` whose other ports are Closed; when
      `c2` updates in turn, it takes the packet and its left port is emptied. */
  lemma SendScenario(ports: PortMap, c: Cable, c2: Cable)
    requires Present(ports, c.sides) && c.sides.Distinct() && LinksClosed(ports) && c.power == On
    requires Filled(ports, c.sides.top) && ports[c.sides.right].mode == Output
    requires ports[c.sides.bottom].mode == Closed && ports[c.sides.left].mode == Closed
    requires ports[c.sides.right].link == Some(c2.sides.left) && c2.sides.left !in c.sides.AsSet()
    requires Present(ports, c2.sides) && c2.sides.Distinct() && c2.power == On
    requires ports[c2.sides.left].mode == Input && ports[c2.sides.left].buffer.None?
    requires ports[c2.sides.top].mode == Closed && ports[c2.sides.right].mode == Closed
    requires ports[c2.sides.bottom].mode == Closed
    ensures var u := Update(ports, c);
            && u.entity.current == None && u.ports[c.sides.top].buffer == None
            && u.ports[c2.sides.left].buffer == ports[c.sides.top].buffer
    ensures var u := Update(ports, c);
            var u2 := Update(u.ports, c2);
            && u2.entity.current == ports[c.sides.top].buffer
            && u2.ports[c2.sides.left].buffer == None && u2.ports[c.sides.top].buffer == None
  {
    var s := c.sides;
    RelayTopToRight(ports, c);
    var emptied := ports[s.top := ports[s.top].(buffer := None)];
    SendSpec(emptied, s.right, Energy(ports[s.top].buffer.value));
    var u := Update(ports, c);
    TakeFromLeft(u.ports, c2);
  }

  /** NoSendTest (CableTest.cs:89-117): the partner's Input port already holds
      a packet and denies overwriting, so the send fails and the cable LOSES
      its packet; the scenario asserts that the cable keeps it. The
      partner's waiting packet is untouched. */
  lemma NoSendScenario(ports: PortMap, c: Cable)
    requires Present(ports, c.sides) && c.sides.Distinct() && LinksClosed(ports) && c.power == On
    requires Filled(ports, c.sides.top) && ports[c.sides.right].mode == Output
    requires ports[c.sides.bottom].mode == Closed && ports[c.sides.left].mode == Closed
    requires ports[c.sides.right].link.Some? && ports[c.sides.right].link.value !in c.sides.AsSet()
    requires Filled(ports, ports[c.sides.right].link.value)
    requires ports[ports[c.sides.right].link.value].receiveMode == Deny
    ensures var u := Update(ports, c);
            && u.entity.current == None && u.ports[c.sides.top].buffer == None
            && u.ports[ports[c.sides.right].link.value] == ports[ports[c.sides.right].link.value]
  {
    var s := c.sides;
    RelayTopToRight(ports, c);
    var emptied := ports[s.top := ports[s.top].(buffer := None)];
    SendSpec(emptied, s.right, Energy(ports[s.top].buffer.value));
  }
}
