/** Energy packets (ResourceWorld/Energy/Packet.cs). */
module Packets {
  import opened Wrappers

  /** The raw shape of a packet; only values with non-negative cargo are packets. */
  datatype PacketData = PacketData(cargo: real)

  /** A packet: its cargo is fixed at construction (a value type cannot be
      mutated) and the constructor rejects negative cargo, so every packet
      has non-negative cargo. */
  type Packet = p: PacketData | 0.0 <= p.cargo witness PacketData(0.0)

  /** The `Packet(double cargo)` constructor. */
  function NewPacket(cargo: real): (r: Result<Packet>)
    ensures r.Err? <==> cargo < 0.0
    ensures r.Err? ==> r.fault == ArgumentOutOfRange
    ensures r.Ok? ==> r.value.cargo == cargo
  {
    if cargo < 0.0 then Err(ArgumentOutOfRange) else Ok(PacketData(cargo))
  }

  /** C#'s lifted `+` on `double?`: null when an operand is null. */
  function LiftedAdd(a: real, b: Option<real>): Option<real>
  {
    match b
    case None => None
    case Some(v) => Some(a + v)
  }

  /** C#'s `??` operator. */
  function Coalesce(a: Option<real>, default: real): real
  {
    match a
    case None => default
    case Some(v) => v
  }

  /** The cargo of a possibly-null packet, `p?.Cargo`. */
  function CargoOf(p: Option<Packet>): Option<real>
  {
    match p
    case None => None
    case Some(q) => Some(q.cargo)
  }

  /** `Combine`: `new Packet(Cargo + other?.Cargo ?? 0)`. Since `??` binds
      looser than `+`, a null argument makes the whole sum null and the
      result has cargo 0, not this packet's cargo. Neither operand changes:
      the result is a new value. */
  function Combine(p: Packet, other: Option<Packet>): (r: Result<Packet>)
    ensures r.Ok?
    ensures other.Some? ==> r.value.cargo == p.cargo + other.value.cargo
    ensures other.None? ==> r.value.cargo == 0.0
  {
    NewPacket(Coalesce(LiftedAdd(p.cargo, CargoOf(other)), 0.0))
  }

  /** Combining with null loses this packet's cargo whenever it had any. */
  lemma CombineWithNullDropsCargo(p: Packet)
    requires p.cargo > 0.0
    ensures Combine(p, None).value != p
  {
  }

  /** Combining two packets does not depend on which one is the receiver. */
  lemma CombineCommutes(a: Packet, b: Packet)
    ensures Combine(a, Some(b)) == Combine(b, Some(a))
  {
  }
}
