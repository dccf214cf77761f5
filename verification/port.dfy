/** Ports and energy ports (ResourceWorld/Connection/Port.cs and
    ResourceWorld/Connection/EnergyPort.cs).

    Ports refer to each other, so they live in one flat store, a map from
    port id to port state; a link is the id of the partner port. */
module Ports {
  import opened Wrappers
  import opened Packets

  datatype IOMode = Input | Output | Closed

  /** What `Receive` does when the buffer already holds data. */
  datatype ReceiveMode = Overwrite | Deny

  /** Data that can be handed to a port: a packet, or any other
      transferable object (which an energy port rejects). */
  datatype Transferable = Energy(packet: Packet) | Foreign(tag: nat)

  type PortId = nat

  /** The state of one energy port. The buffer only ever holds packets:
      `Receive` is its only writer and it admits nothing else. */
  datatype Port = Port(mode: IOMode, link: Option<PortId>, buffer: Option<Packet>, receiveMode: ReceiveMode)

  type PortMap = map<PortId, Port>

  /** `new EnergyPort()`: closed, unlinked, empty, and denying overwrites. */
  function NewEnergyPort(): (p: Port)
    ensures p.mode == Closed && p.link == None && p.buffer == None
    ensures p.receiveMode == Deny
  {
    Port(Closed, None, None, Deny)
  }

  /** Every link names a port of the store (C# references never dangle
      into nothing). */
  ghost predicate LinksClosed(ports: PortMap)
  {
    forall p :: p in ports && ports[p].link.Some? ==> ports[p].link.value in ports
  }

  /** Every link is answered by a link back. */
  ghost predicate Symmetric(ports: PortMap)
  {
    forall p :: p in ports && ports[p].link.Some? ==>
      ports[p].link.value in ports && ports[ports[p].link.value].link == Some(p)
  }

  /** Nothing but link fields differ. */
  ghost predicate OnlyLinksDiffer(a: PortMap, b: PortMap)
  {
    a.Keys == b.Keys && forall q :: q in a ==> b[q] == a[q].(link := b[q].link)
  }

  /** Modes, links and receive modes agree: only buffers may differ. */
  ghost predicate SameWiring(a: PortMap, b: PortMap)
  {
    a.Keys == b.Keys && forall q :: q in a ==> b[q] == a[q].(buffer := b[q].buffer)
  }

  /** `b` differs from `a` at most in the buffers of Input ports in `allowed`. */
  ghost predicate TouchesOnly(a: PortMap, b: PortMap, allowed: set<PortId>)
  {
    && SameWiring(a, b)
    && forall q :: q in a && b[q].buffer != a[q].buffer ==> q in allowed && a[q].mode == Input
  }

  lemma SameWiringKeepsLinksClosed(a: PortMap, b: PortMap)
    requires SameWiring(a, b) && LinksClosed(a)
    ensures LinksClosed(b) && a.Keys == b.Keys
  {
    forall p | p in b && b[p].link.Some? ensures b[p].link.value in b {
      assert b[p].link == a[p].link;
    }
  }

  lemma SameWiringTransitive(a: PortMap, b: PortMap, c: PortMap)
    requires SameWiring(a, b) && SameWiring(b, c)
    ensures SameWiring(a, c)
  {
  }

  lemma OnlyLinksDifferTransitive(a: PortMap, b: PortMap, c: PortMap)
    requires OnlyLinksDiffer(a, b) && OnlyLinksDiffer(b, c)
    ensures OnlyLinksDiffer(a, c)
  {
  }

  lemma TouchesOnlyTransitive(a: PortMap, b: PortMap, c: PortMap, s: set<PortId>, t: set<PortId>)
    requires TouchesOnly(a, b, s) && TouchesOnly(b, c, t)
    ensures TouchesOnly(a, c, s + t)
  {
  }

  // ---------------------------------------------------------------------
  // Port.cs: linking
  // ---------------------------------------------------------------------

  /** `a.ConnectToPort(b)`: throws if `a` is already linked, otherwise links
      `a` to `b` and then `b` to `a`, without looking at `b`'s link. */
  function Connect(ports: PortMap, a: PortId, b: PortId): (r: Outcome<PortMap, ()>)
    requires a in ports && b in ports
    ensures OnlyLinksDiffer(ports, r.state)
    ensures r.Thrown? <==> ports[a].link.Some?
    ensures r.Thrown? ==> r.fault == InvalidOperation && r.state == ports
    ensures r.Returned? ==> r.state[a].link == Some(b) && r.state[b].link == Some(a)
    ensures r.Returned? ==> forall q :: q in ports && q != a && q != b ==> r.state[q] == ports[q]
  {
    if ports[a].link.Some? then Thrown(InvalidOperation, ports)
    else
      var p1 := ports[a := ports[a].(link := Some(b))];
      Returned(p1[b := p1[b].(link := Some(a))], ())
  }

  /** Connecting two ports of the store keeps every link inside the store. */
  lemma ConnectKeepsLinksClosed(ports: PortMap, a: PortId, b: PortId)
    requires a in ports && b in ports && LinksClosed(ports)
    ensures LinksClosed(Connect(ports, a, b).state)
  {
  }

  /** `a.DisconnectFromPort()`: if linked, clears the partner's link and then
      its own; otherwise does nothing. */
  function Disconnect(ports: PortMap, a: PortId): (r: PortMap)
    requires a in ports
    requires ports[a].link.Some? ==> ports[a].link.value in ports
    ensures OnlyLinksDiffer(ports, r)
    ensures r[a].link == None
    ensures ports[a].link.Some? ==> r[ports[a].link.value].link == None
    ensures forall q :: q in ports && q != a && Some(q) != ports[a].link ==> r[q] == ports[q]
  {
    match ports[a].link
    case None => ports
    case Some(b) =>
      var p1 := ports[b := ports[b].(link := None)];
      p1[a := p1[a].(link := None)]
  }

  /** Connecting two unlinked ports keeps every link answered. */
  lemma ConnectPreservesSymmetry(ports: PortMap, a: PortId, b: PortId)
    requires a in ports && b in ports && Symmetric(ports)
    requires ports[b].link.None?
    ensures Symmetric(Connect(ports, a, b).state)
  {
    var r := Connect(ports, a, b).state;
    if ports[a].link.None? {
      forall p | p in r && r[p].link.Some?
        ensures r[p].link.value in r && r[r[p].link.value].link == Some(p)
      {
        if p != a && p != b {
          var q := ports[p].link.value;
          assert q != a && q != b;
        }
      }
    }
  }

  /** `ConnectToPort` never looks at its argument's link: if `b` was linked
      to a third port `c`, then `c` still points at `b` while `b` now points
      at `a`, so the links are no longer symmetric. */
  lemma ConnectLeavesDanglingLink(ports: PortMap, a: PortId, b: PortId, c: PortId)
    requires a in ports && b in ports && c in ports
    requires ports[a].link.None? && ports[b].link == Some(c) && ports[c].link == Some(b)
    requires c != a && c != b
    ensures Connect(ports, a, b).Returned?
    ensures Connect(ports, a, b).state[c].link == Some(b)
    ensures Connect(ports, a, b).state[b].link == Some(a)
    ensures !Symmetric(Connect(ports, a, b).state)
  {
    var r := Connect(ports, a, b).state;
    assert r[c].link.Some? && r[r[c].link.value].link != Some(c);
  }

  /** Disconnecting keeps every link answered. */
  lemma DisconnectPreservesSymmetry(ports: PortMap, a: PortId)
    requires a in ports && Symmetric(ports)
    ensures Symmetric(Disconnect(ports, a))
  {
    var r := Disconnect(ports, a);
    forall p | p in r && r[p].link.Some?
      ensures r[p].link.value in r && r[r[p].link.value].link == Some(p)
    {
      var q := ports[p].link.value;
      assert p != a && Some(p) != ports[a].link;
      assert ports[q].link == Some(p);
      assert q != a;
    }
  }

  /** Disconnecting twice is the same as disconnecting once. */
  lemma DisconnectIdempotent(ports: PortMap, a: PortId)
    requires a in ports
    requires ports[a].link.Some? ==> ports[a].link.value in ports
    ensures Disconnect(Disconnect(ports, a), a) == Disconnect(ports, a)
  {
  }

  /** Connecting two distinct unlinked ports and disconnecting one of them
      restores the store exactly. */
  lemma ConnectDisconnectRoundTrip(ports: PortMap, a: PortId, b: PortId)
    requires a in ports && b in ports && a != b
    requires ports[a].link.None? && ports[b].link.None?
    ensures Disconnect(Connect(ports, a, b).state, a) == ports
  {
    var r := Disconnect(Connect(ports, a, b).state, a);
    assert forall q :: q in ports ==> r[q] == ports[q];
  }

  // ---------------------------------------------------------------------
  // EnergyPort.cs: buffers
  // ---------------------------------------------------------------------

  datatype Received = Received(port: Port, accepted: bool)

  /** The acceptance rule of `EnergyPort.Receive`. */
  predicate Accepts(p: Port, data: Transferable)
  {
    p.mode == Input && data.Energy? && (p.buffer.None? || p.receiveMode == Overwrite)
  }

  /** `EnergyPort.Receive`: stores the packet only on an Input port whose
      buffer is empty or may be overwritten. */
  function Receive(p: Port, data: Transferable): (r: Received)
    ensures r.accepted <==> Accepts(p, data)
    ensures r.port.mode == p.mode && r.port.link == p.link && r.port.receiveMode == p.receiveMode
    ensures r.port.buffer == (if r.accepted then Some(data.packet) else p.buffer)
  {
    if p.mode != Input || !data.Energy? || (p.buffer.Some? && p.receiveMode == Deny) then Received(p, false)
    else Received(p.(buffer := Some(data.packet)), true)
  }

  /** `Receive` answers true exactly on an Input port, for a packet, when the
      buffer is empty or may be overwritten; it then holds the new packet.
      Otherwise nothing changes, and in no case does anything but the buffer. */
  lemma ReceiveSpec(p: Port, data: Transferable)
    ensures Receive(p, data).accepted <==> Accepts(p, data)
    ensures Receive(p, data).accepted ==> Receive(p, data).port.buffer == Some(data.packet)
    ensures Receive(p, data).port == p.(buffer := Receive(p, data).port.buffer)
    ensures !Receive(p, data).accepted ==> Receive(p, data).port == p
    ensures p.mode != Input ==> !Receive(p, data).accepted
  {
  }

  datatype Collected = Collected(port: Port, data: Option<Packet>)

  /** `EnergyPort.CollectReceivedData`: hands out the buffer and empties it. */
  function Collect(p: Port): (r: Collected)
    ensures r.data == p.buffer && r.port.buffer.None?
    ensures r.port.mode == p.mode && r.port.link == p.link && r.port.receiveMode == p.receiveMode
  {
    Collected(p.(buffer := None), p.buffer)
  }

  /** A packet that was received is exactly what the next collect returns,
      and a second collect returns nothing. */
  lemma ReceiveCollectRoundTrip(p: Port, data: Transferable)
    requires Accepts(p, data)
    ensures Collect(Receive(p, data).port).data == Some(data.packet)
    ensures Collect(Collect(Receive(p, data).port).port).data == None
  {
  }

  /** Under `Deny`, a port holding a packet keeps it and rejects the new one. */
  lemma DenyKeepsOldPacket(p: Port, data: Transferable)
    requires p.receiveMode == Deny && p.buffer.Some?
    ensures !Receive(p, data).accepted && Receive(p, data).port.buffer == p.buffer
  {
  }

  datatype Sent = Sent(ports: PortMap, ok: bool)

  /** `EnergyPort.Send`: hands the data to the partner's `Receive` only when
      this port is Output, the data is a packet, and a partner exists and is
      Input; returns the partner's answer. */
  function Send(ports: PortMap, a: PortId, data: Transferable): (r: Sent)
    requires a in ports
    requires ports[a].link.Some? ==> ports[a].link.value in ports
    ensures r.ports.Keys == ports.Keys
  {
    if ports[a].mode != Output || !data.Energy? || ports[a].link.None? || ports[ports[a].link.value].mode != Input then
      Sent(ports, false)
    else
      var b := ports[a].link.value;
      var rcv := Receive(ports[b], data);
      Sent(ports[b := rcv.port], rcv.accepted)
  }

  /** `Send` answers true exactly when this port is Output, the data is a
      packet, the partner exists and is Input, and the partner's `Receive`
      accepts; then the partner holds the packet, otherwise nothing changed. */
  lemma SendSpec(ports: PortMap, a: PortId, data: Transferable)
    requires a in ports
    requires ports[a].link.Some? ==> ports[a].link.value in ports
    ensures Send(ports, a, data).ok <==>
      && ports[a].mode == Output && data.Energy? && ports[a].link.Some?
      && ports[ports[a].link.value].mode == Input
      && Accepts(ports[ports[a].link.value], data)
    ensures Send(ports, a, data).ok ==>
      Send(ports, a, data).ports == ports[ports[a].link.value := ports[ports[a].link.value].(buffer := Some(data.packet))]
    ensures !Send(ports, a, data).ok ==> Send(ports, a, data).ports == ports
  {
  }

  /** `Send` never alters the sender itself, and the only buffer it can
      write is that of its partner, and only when that partner is Input. */
  lemma SendFrame(ports: PortMap, a: PortId, data: Transferable)
    requires a in ports
    requires ports[a].link.Some? ==> ports[a].link.value in ports
    ensures Send(ports, a, data).ports[a] == ports[a]
    ensures TouchesOnly(ports, Send(ports, a, data).ports, if ports[a].mode == Output && ports[a].link.Some? then {ports[a].link.value} else {})
  {
  }

  /** Sets the public `CurrentIOMode` property. */
  function SetMode(ports: PortMap, a: PortId, m: IOMode): (r: PortMap)
    requires a in ports
    ensures r.Keys == ports.Keys && r[a].mode == m
    ensures r[a].link == ports[a].link && r[a].buffer == ports[a].buffer && r[a].receiveMode == ports[a].receiveMode
    ensures forall q :: q in ports && q != a ==> r[q] == ports[q]
  {
    ports[a := ports[a].(mode := m)]
  }

  /** `Receive` called on a port of the store. */
  function ReceiveAt(ports: PortMap, a: PortId, data: Transferable): (r: Sent)
    requires a in ports
    ensures r.ok == Receive(ports[a], data).accepted
    ensures r.ports == ports[a := Receive(ports[a], data).port]
  {
    var rcv := Receive(ports[a], data);
    Sent(ports[a := rcv.port], rcv.accepted)
  }

  /** A successful send is exactly a receive on the partner. */
  lemma SendIsPartnerReceive(ports: PortMap, a: PortId, p: Packet)
    requires a in ports && ports[a].mode == Output && ports[a].link.Some?
    requires ports[a].link.value in ports && ports[ports[a].link.value].mode == Input
    ensures Send(ports, a, Energy(p)) == ReceiveAt(ports, ports[a].link.value, Energy(p))
  {
  }
}
