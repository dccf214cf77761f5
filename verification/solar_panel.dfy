/** Solar panels (ResourceWorld/Energy/Solar/SolarPanel.cs): a producer. */
module SolarPanels {
  import opened Wrappers
  import opened Packets
  import opened Ports
  import opened Connectables

  /** `MaxCargo`. */
  const MaxCargo: real := 1000.0
  /** `CARGOPERTICKBASE`, the cargo produced per tick. */
  const CargoPerTick: real := 0.003
  /** The size of every packet the panel emits (the literal passed to `TryMakePacket`). */
  const PacketSize: real := 0.003

  /** A solar panel. Its power state has a public setter. */
  datatype SolarPanel = SolarPanel(sides: Sides, power: PowerState, cargo: real)

  /** `new SolarPanel()` over four freshly allocated ports. */
  function NewSolarPanel(s: Sides): (p: SolarPanel)
    ensures p.power == On && p.cargo == 0.0 && p.sides == s
  {
    SolarPanel(s, On, 0.0)
  }

  /** The private `Cargo` setter as written: it compares the OLD cargo plus
      the NEW value against the maximum, and stores the maximum when that sum
      exceeds it, else the new value. */
  function SetCargo(current: real, value: real): (r: real)
    ensures r == value || r == MaxCargo
    ensures current + value <= MaxCargo ==> r == value
    ensures current + value > MaxCargo ==> r == MaxCargo
    ensures 0.0 <= current && 0.0 <= value ==> 0.0 <= r <= MaxCargo
  {
    if current + value > MaxCargo then MaxCargo else value
  }

  /** The panel's state part-way through the port loop. */
  datatype SolarTick = SolarTick(ports: PortMap, cargo: real)

  datatype Made = Made(packet: Option<Packet>, cargo: real)

  /** `TryMakePacket`: when enough cargo is stored, makes a packet of the
      requested size and deducts it through the setter. */
  function TryMakePacket(cargo: real, size: real): (r: Made)
    requires 0.0 <= size
    ensures r.packet.Some? <==> cargo >= size
    ensures r.packet.Some? ==> r.packet.value.cargo == size && r.cargo == SetCargo(cargo, cargo - size)
    ensures r.packet.None? ==> r.cargo == cargo
  {
    if cargo >= size then Made(Some(PacketData(size)), SetCargo(cargo, cargo - size))
    else Made(None, cargo)
  }

  /** One iteration of the port loop: an Output port gets a fresh packet if
      one can be made; the cargo is deducted BEFORE the send, and the send's
      answer is ignored. */
  function Visit(ports: PortMap, cargo: real, id: PortId): SolarTick
    requires id in ports && LinksClosed(ports)
  {
    if ports[id].mode == Output then
      var m := TryMakePacket(cargo, PacketSize);
      if m.packet.Some? then SolarTick(Send(ports, id, Energy(m.packet.value)).ports, m.cargo)
      else SolarTick(ports, cargo)
    else SolarTick(ports, cargo)
  }

  lemma VisitTouchesOnly(ports: PortMap, cargo: real, id: PortId)
    requires id in ports && LinksClosed(ports)
    ensures TouchesOnly(ports, Visit(ports, cargo, id).ports, OutputTargets(ports, [id]))
  {
    if ports[id].mode == Output && cargo >= PacketSize {
      SendFrame(ports, id, Energy(PacketData(PacketSize)));
    }
  }

  /** The `foreach` over the given ports, in order. The cargo stays within
      [0, MaxCargo] when it starts there. */
  function Walk(ports: PortMap, cargo: real, ids: seq<PortId>): (r: SolarTick)
    requires AllPresent(ports, ids) && LinksClosed(ports)
    ensures r.ports.Keys == ports.Keys
    ensures 0.0 <= cargo <= MaxCargo ==> 0.0 <= r.cargo <= MaxCargo
    decreases |ids|
  {
    if |ids| == 0 then SolarTick(ports, cargo)
    else
      var t := Visit(ports, cargo, ids[0]);
      VisitTouchesOnly(ports, cargo, ids[0]);
      SameWiringKeepsLinksClosed(ports, t.ports);
      Walk(t.ports, t.cargo, ids[1..])
  }

  /** `SolarPanel.Update`: off, nothing happens; on, the panel produces
      `CargoPerTick` through the setter and then walks its ports Top, Right,
      Bottom, Left. The cargo bound [0, MaxCargo] is preserved. */
  function Update(ports: PortMap, sp: SolarPanel): (r: Ticked<SolarPanel>)
    requires Present(ports, sp.sides) && LinksClosed(ports)
    ensures r.entity.sides == sp.sides && r.entity.power == sp.power
    ensures r.ports.Keys == ports.Keys
    ensures sp.power == Off ==> r == Ticked(ports, sp)
    ensures 0.0 <= sp.cargo <= MaxCargo ==> 0.0 <= r.entity.cargo <= MaxCargo
  {
    if sp.power == Off then Ticked(ports, sp)
    else
      var t := Walk(ports, SetCargo(sp.cargo, sp.cargo + CargoPerTick), sp.sides.InOrder());
      Ticked(t.ports, sp.(cargo := t.cargo))
  }

  /** The public `CurrentPowerState` setter. */
  function SetPower(sp: SolarPanel, p: PowerState): (r: SolarPanel)
    ensures r.power == p && r.sides == sp.sides && r.cargo == sp.cargo
  {
    sp.(power := p)
  }

  lemma {:induction false} WalkTouchesOnly(ports: PortMap, cargo: real, ids: seq<PortId>)
    requires AllPresent(ports, ids) && LinksClosed(ports)
    ensures TouchesOnly(ports, Walk(ports, cargo, ids).ports, OutputTargets(ports, ids))
    decreases |ids|
  {
    if |ids| > 0 {
      var t := Visit(ports, cargo, ids[0]);
      VisitTouchesOnly(ports, cargo, ids[0]);
      SameWiringKeepsLinksClosed(ports, t.ports);
      WalkTouchesOnly(t.ports, t.cargo, ids[1..]);
      OutputTargetsSameWiring(ports, t.ports, ids[1..]);
      TouchesOnlyTransitive(ports, t.ports, Walk(t.ports, t.cargo, ids[1..]).ports, OutputTargets(ports, [ids[0]]), OutputTargets(ports, ids[1..]));
      OutputTargetsSplit(ports, ids);
    }
  }

  /** `SolarPanel.Update` never changes a mode or a link, and the only buffers
      it writes are those of the Input partners of its Output ports. */
  lemma UpdateTouchesOnly(ports: PortMap, sp: SolarPanel)
    requires Present(ports, sp.sides) && LinksClosed(ports)
    ensures TouchesOnly(ports, Update(ports, sp).ports, OutputTargets(ports, sp.sides.InOrder()))
  {
    var ids := sp.sides.InOrder();
    assert AllPresent(ports, ids);
    if sp.power == On {
      var c := SetCargo(sp.cargo, sp.cargo + CargoPerTick);
      WalkTouchesOnly(ports, c, ids);
      UpdateWalks(ports, sp, Walk(ports, c, ids));
    } else {
      assert Update(ports, sp).ports == ports;
    }
  }

  /** A panel that is on walks its ports after producing. */
  lemma UpdateWalks(ports: PortMap, sp: SolarPanel, t: SolarTick)
    requires Present(ports, sp.sides) && LinksClosed(ports) && sp.power == On
    requires t == Walk(ports, SetCargo(sp.cargo, sp.cargo + CargoPerTick), sp.sides.InOrder())
    ensures Update(ports, sp).ports == t.ports
  {
  }

  /** At an Output port with at least one packet's worth of cargo, a packet of
      0.003 is made and sent, and the cargo is deducted whatever the send
      returns: a rejected packet is lost. While the old cargo plus the
      reduced cargo stays within the maximum, the deduction is exact. */
  lemma EmitsAtOutput(ports: PortMap, cargo: real, id: PortId)
    requires id in ports && LinksClosed(ports) && ports[id].mode == Output
    requires cargo >= PacketSize
    ensures Visit(ports, cargo, id).ports == Send(ports, id, Energy(PacketData(PacketSize))).ports
    ensures Visit(ports, cargo, id).cargo == SetCargo(cargo, cargo - PacketSize)
    ensures cargo + (cargo - PacketSize) <= MaxCargo ==> Visit(ports, cargo, id).cargo == cargo - PacketSize
  {
  }

  /** At an Output port with less than one packet's worth of cargo, nothing
      is made, nothing is sent and the cargo is untouched. */
  lemma StarvedAtOutput(ports: PortMap, cargo: real, id: PortId)
    requires id in ports && LinksClosed(ports) && ports[id].mode == Output
    requires cargo < PacketSize
    ensures Visit(ports, cargo, id) == SolarTick(ports, cargo)
  {
  }

  /** A full panel stays full through the whole port loop: every deduction
      is clamped back to the maximum by the setter. */
  lemma {:induction false} FullStaysFullWalk(ports: PortMap, ids: seq<PortId>)
    requires AllPresent(ports, ids) && LinksClosed(ports)
    ensures Walk(ports, MaxCargo, ids).cargo == MaxCargo
    decreases |ids|
  {
    if |ids| > 0 {
      var t := Visit(ports, MaxCargo, ids[0]);
      VisitTouchesOnly(ports, MaxCargo, ids[0]);
      SameWiringKeepsLinksClosed(ports, t.ports);
      FullStaysFullWalk(t.ports, ids[1..]);
    }
  }

  /** A panel holding at least 500 is full after one tick, however many
      packets it emitted: the production step already clamps to the maximum,
      and the maximum is a fixed point. In particular a full panel stays full. */
  lemma HalfFullSnapsToMax(ports: PortMap, sp: SolarPanel)
    requires Present(ports, sp.sides) && LinksClosed(ports) && sp.power == On
    requires sp.cargo >= 500.0
    ensures Update(ports, sp).entity.cargo == MaxCargo
  {
    FullStaysFullWalk(ports, sp.sides.InOrder());
  }

  /** With no Output port among the walked ports, the walk changes nothing. */
  lemma {:induction false} NoOutputWalk(ports: PortMap, cargo: real, ids: seq<PortId>)
    requires AllPresent(ports, ids) && LinksClosed(ports)
    requires forall i :: 0 <= i < |ids| ==> ports[ids[i]].mode != Output
    ensures Walk(ports, cargo, ids) == SolarTick(ports, cargo)
    decreases |ids|
  {
    if |ids| > 0 {
      assert Visit(ports, cargo, ids[0]) == SolarTick(ports, cargo);
      NoOutputWalk(ports, cargo, ids[1..]);
    }
  }

  /** A panel without Output ports that is updated `n` times. */
  function Ticks(ports: PortMap, sp: SolarPanel, n: nat): (r: Ticked<SolarPanel>)
    requires Present(ports, sp.sides) && LinksClosed(ports)
    ensures r.entity.sides == sp.sides && r.ports.Keys == ports.Keys && LinksClosed(r.ports)
    decreases n
  {
    if n == 0 then Ticked(ports, sp)
    else
      var u := Update(ports, sp);
      UpdateTouchesOnly(ports, sp);
      SameWiringKeepsLinksClosed(ports, u.ports);
      Ticks(u.ports, u.entity, n - 1)
  }

  ghost predicate NoOutputs(ports: PortMap, s: Sides)
    requires Present(ports, s)
  {
    ports[s.top].mode != Output && ports[s.right].mode != Output
    && ports[s.bottom].mode != Output && ports[s.left].mode != Output
  }

  /** Without Output ports, a panel that is on and starts empty holds exactly
      `n * 0.003` after `n` ticks, for every `n` up to 166667 (beyond that the
      setter's old-plus-new comparison clamps to the maximum). */
  lemma {:induction false} ProductionIsExact(ports: PortMap, sp: SolarPanel, n: nat)
    requires Present(ports, sp.sides) && LinksClosed(ports) && NoOutputs(ports, sp.sides)
    requires sp.power == On && sp.cargo == 0.0
    requires n <= 166667
    ensures Ticks(ports, sp, n).entity.cargo == n as real * CargoPerTick
    ensures Ticks(ports, sp, n).ports == ports
  {
    ProductionIsExactFrom(ports, sp, n, 0);
  }

  lemma {:induction false} ProductionIsExactFrom(ports: PortMap, sp: SolarPanel, n: nat, k: nat)
    requires Present(ports, sp.sides) && LinksClosed(ports) && NoOutputs(ports, sp.sides)
    requires sp.power == On && sp.cargo == k as real * CargoPerTick
    requires n + k <= 166667
    ensures Ticks(ports, sp, n).entity.cargo == (n + k) as real * CargoPerTick
    ensures Ticks(ports, sp, n).ports == ports
    decreases n
  {
    if n > 0 {
      var c1 := SetCargo(sp.cargo, sp.cargo + CargoPerTick);
      assert c1 == (k + 1) as real * CargoPerTick;
      var ids := sp.sides.InOrder();
      NoOutputWalk(ports, c1, ids);
      var u := Update(ports, sp);
      assert u == Ticked(ports, sp.(cargo := c1));
      ProductionIsExactFrom(ports, sp.(cargo := c1), n - 1, k + 1);
    }
  }

  /** SolarPanelTest.cs:17-31: ten ticks without Output ports give 10 * 0.003. */
  lemma TenTicks(ports: PortMap, s: Sides)
    requires Present(ports, s) && LinksClosed(ports) && NoOutputs(ports, s)
    ensures Ticks(ports, NewSolarPanel(s), 10).entity.cargo == 0.03
  {
    ProductionIsExact(ports, NewSolarPanel(s), 10);
  }
}
