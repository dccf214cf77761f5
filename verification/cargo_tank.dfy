/** Cargo tanks (ResourceWorld/Energy/Storage/CargoTank.cs): a sink. */
module CargoTanks {
  import opened Wrappers
  import opened Packets
  import opened Ports
  import opened Connectables

  /** `MaxCargo`. */
  const MaxCargo: real := 10000.0

  /** A cargo tank. The constructor never sets the power state, so a new
      tank holds the enum's default, `On`. */
  datatype CargoTank = CargoTank(sides: Sides, power: PowerState, cargo: real)

  /** `new CargoTank()` over four freshly allocated ports. */
  function NewCargoTank(s: Sides): (t: CargoTank)
    ensures t.power == On && t.cargo == 0.0 && t.sides == s
  {
    CargoTank(s, On, 0.0)
  }

  /** The private `Cargo` setter as written: the maximum is stored as soon as
      the OLD cargo plus the NEW value reaches it (note `>=`, where the solar
      panel uses `>`), else the new value. */
  function SetCargo(current: real, value: real): (r: real)
    ensures r == value || r == MaxCargo
    ensures current + value < MaxCargo ==> r == value
    ensures current + value >= MaxCargo ==> r == MaxCargo
    ensures 0.0 <= current && 0.0 <= value ==> 0.0 <= r <= MaxCargo
  {
    if current + value >= MaxCargo then MaxCargo else value
  }

  /** The cargo carried by a collected packet, or 0 for none (`?.Cargo ?? 0`). */
  function Amount(data: Option<Packet>): (a: real)
    ensures 0.0 <= a
    ensures data.Some? ==> a == data.value.cargo
    ensures data.None? ==> a == 0.0
  {
    if data.Some? then data.value.cargo else 0.0
  }

  datatype TankTick = TankTick(ports: PortMap, cargo: real)

  /** One iteration of the port loop: an Input port is collected and its
      cargo (or 0) added through the setter, which runs even when nothing was
      collected; the Output branch is empty and Closed ports are skipped. */
  function Visit(ports: PortMap, cargo: real, id: PortId): TankTick
    requires id in ports
  {
    if ports[id].mode == Input then
      var c := Collect(ports[id]);
      TankTick(ports[id := c.port], SetCargo(cargo, cargo + Amount(c.data)))
    else TankTick(ports, cargo)
  }

  /** The `foreach` over the given ports, in order. The cargo stays within
      [0, MaxCargo] when it starts there. */
  function Walk(ports: PortMap, cargo: real, ids: seq<PortId>): (r: TankTick)
    requires AllPresent(ports, ids)
    ensures r.ports.Keys == ports.Keys
    ensures 0.0 <= cargo <= MaxCargo ==> 0.0 <= r.cargo <= MaxCargo
    decreases |ids|
  {
    if |ids| == 0 then TankTick(ports, cargo)
    else
      var t := Visit(ports, cargo, ids[0]);
      Walk(t.ports, t.cargo, ids[1..])
  }

  /** `CargoTank.Update`: off, nothing happens; on, the tank walks its ports
      Top, Right, Bottom, Left. The cargo bound [0, MaxCargo] is preserved. */
  function Update(ports: PortMap, t: CargoTank): (r: Ticked<CargoTank>)
    requires Present(ports, t.sides)
    ensures r.entity.sides == t.sides && r.entity.power == t.power
    ensures r.ports.Keys == ports.Keys
    ensures t.power == Off ==> r == Ticked(ports, t)
    ensures 0.0 <= t.cargo <= MaxCargo ==> 0.0 <= r.entity.cargo <= MaxCargo
  {
    if t.power == Off then Ticked(ports, t)
    else
      var w := Walk(ports, t.cargo, t.sides.InOrder());
      Ticked(w.ports, t.(cargo := w.cargo))
  }

  /** The public `CurrentPowerState` setter. */
  function SetPower(t: CargoTank, p: PowerState): (r: CargoTank)
    ensures r.power == p && r.sides == t.sides && r.cargo == t.cargo
  {
    t.(power := p)
  }

  /** The port store after a walk, port by port: every walked Input port is
      emptied and every other port is exactly as it was. */
  lemma {:induction false} WalkPorts(ports: PortMap, cargo: real, ids: seq<PortId>)
    requires AllPresent(ports, ids)
    ensures forall q :: q in ports ==>
      Walk(ports, cargo, ids).ports[q] == (if q in ids && ports[q].mode == Input then ports[q].(buffer := None) else ports[q])
    decreases |ids|
  {
    if |ids| > 0 {
      var t := Visit(ports, cargo, ids[0]);
      WalkPorts(t.ports, t.cargo, ids[1..]);
      forall q | q in ports
        ensures Walk(ports, cargo, ids).ports[q] == (if q in ids && ports[q].mode == Input then ports[q].(buffer := None) else ports[q])
      {
        assert q in ids <==> q == ids[0] || q in ids[1..];
      }
    }
  }

  /** `CargoTank.Update` drains every Input port of the tank and leaves every
      other port of the store, its own Output and Closed ports included,
      untouched; so it writes no buffer but its own. */
  lemma UpdatePorts(ports: PortMap, t: CargoTank)
    requires Present(ports, t.sides) && t.power == On
    ensures forall q :: q in ports ==>
      Update(ports, t).ports[q] == (if q in t.sides.AsSet() && ports[q].mode == Input then ports[q].(buffer := None) else ports[q])
  {
    WalkPorts(ports, t.cargo, t.sides.InOrder());
    assert forall q :: q in t.sides.InOrder() <==> q in t.sides.AsSet();
  }

  /** Whether on or off, `CargoTank.Update` never changes a mode or a link
      and writes no buffer but those of its own Input ports. */
  lemma UpdateTouchesOnly(ports: PortMap, t: CargoTank)
    requires Present(ports, t.sides)
    ensures TouchesOnly(ports, Update(ports, t).ports, t.sides.AsSet())
  {
    if t.power == On {
      UpdatePorts(ports, t);
    }
  }

  /** The cargo of the Input buffers among `ids`, each position counted once. */
  function InputSum(ports: PortMap, ids: seq<PortId>): (s: real)
    requires AllPresent(ports, ids)
    ensures 0.0 <= s
    decreases |ids|
  {
    if |ids| == 0 then 0.0
    else (if ports[ids[0]].mode == Input then Amount(ports[ids[0]].buffer) else 0.0) + InputSum(ports, ids[1..])
  }

  lemma {:induction false} InputSumFrame(a: PortMap, b: PortMap, ids: seq<PortId>)
    requires AllPresent(a, ids) && AllPresent(b, ids)
    requires forall i :: 0 <= i < |ids| ==> a[ids[i]] == b[ids[i]]
    ensures InputSum(a, ids) == InputSum(b, ids)
    decreases |ids|
  {
    if |ids| > 0 {
      InputSumFrame(a, b, ids[1..]);
    }
  }

  /** Conservation: over distinct ports, and as long as the setter's
      old-plus-new comparison cannot reach the maximum, the walk adds exactly
      the cargo of the packets waiting at its Input ports. */
  lemma {:induction false} WalkConserves(ports: PortMap, cargo: real, ids: seq<PortId>)
    requires AllPresent(ports, ids) && NoDuplicates(ids)
    requires 0.0 <= cargo && 2.0 * (cargo + InputSum(ports, ids)) < MaxCargo
    ensures Walk(ports, cargo, ids).cargo == cargo + InputSum(ports, ids)
    decreases |ids|
  {
    if |ids| > 0 {
      var t := Visit(ports, cargo, ids[0]);
      var x := if ports[ids[0]].mode == Input then Amount(ports[ids[0]].buffer) else 0.0;
      assert t.cargo == cargo + x;
      InputSumFrame(ports, t.ports, ids[1..]);
      WalkConserves(t.ports, t.cargo, ids[1..]);
    }
  }

  /** Once full, the tank stays full through the rest of the walk. */
  lemma {:induction false} FullStaysFull(ports: PortMap, ids: seq<PortId>)
    requires AllPresent(ports, ids)
    ensures Walk(ports, MaxCargo, ids).cargo == MaxCargo
    decreases |ids|
  {
    if |ids| > 0 {
      FullStaysFull(Visit(ports, MaxCargo, ids[0]).ports, ids[1..]);
    }
  }

  /** A tank at half capacity or more that has an Input port is full after
      the walk, whatever it collected: at the first Input port the setter
      sees old plus new reach the maximum, even when the port was empty. */
  lemma {:induction false} HalfFullSnapsWalk(ports: PortMap, cargo: real, ids: seq<PortId>)
    requires AllPresent(ports, ids) && cargo >= MaxCargo / 2.0
    requires exists i :: 0 <= i < |ids| && ports[ids[i]].mode == Input
    ensures Walk(ports, cargo, ids).cargo == MaxCargo
    decreases |ids|
  {
    var t := Visit(ports, cargo, ids[0]);
    if ports[ids[0]].mode == Input {
      FullStaysFull(t.ports, ids[1..]);
    } else {
      var i :| 0 <= i < |ids| && ports[ids[i]].mode == Input;
      assert ids[1..][i - 1] == ids[i];
      HalfFullSnapsWalk(t.ports, t.cargo, ids[1..]);
    }
  }

  lemma HalfFullSnaps(ports: PortMap, t: CargoTank)
    requires Present(ports, t.sides) && t.power == On && t.cargo >= 5000.0
    requires ports[t.sides.top].mode == Input || ports[t.sides.right].mode == Input
          || ports[t.sides.bottom].mode == Input || ports[t.sides.left].mode == Input
    ensures Update(ports, t).entity.cargo == MaxCargo
  {
    var ids := t.sides.InOrder();
    assert ids[0] == t.sides.top && ids[1] == t.sides.right && ids[2] == t.sides.bottom && ids[3] == t.sides.left;
    HalfFullSnapsWalk(ports, t.cargo, ids);
  }

  /** A tank without Input ports never changes its cargo or any port. */
  lemma {:induction false} NoInputsInert(ports: PortMap, cargo: real, ids: seq<PortId>)
    requires AllPresent(ports, ids)
    requires forall i :: 0 <= i < |ids| ==> ports[ids[i]].mode != Input
    ensures Walk(ports, cargo, ids) == TankTick(ports, cargo)
    decreases |ids|
  {
    if |ids| > 0 {
      NoInputsInert(ports, cargo, ids[1..]);
    }
  }
}
