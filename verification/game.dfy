/** The game board (ResourceWorld/Game.cs): a 5 x 5 grid of resource
    objects whose neighbouring ports are linked on placement. */
module Games {
  import opened Wrappers
  import opened Ports
  import opened Connectables
  import Cables
  import SolarPanels
  import CargoTanks

  /** `ResourceGrid.GetLength(0)` and `ResourceGrid.GetLength(1)`. */
  const Width: int := 5
  const Height: int := 5

  /** A grid position; the model's coordinates are whole numbers. */
  datatype Coord = Coord(x: int, y: int)

  /** The resource objects of the core, by kind. */
  datatype Entity =
    | CableEntity(cable: Cables.Cable)
    | PanelEntity(panel: SolarPanels.SolarPanel)
    | TankEntity(tank: CargoTanks.CargoTank)
  {
    /** The four ports of the object (`IConnectable.Top` ... `Left`). */
    function PortsOf(): Sides
    {
      match this
      case CableEntity(c) => c.sides
      case PanelEntity(p) => p.sides
      case TankEntity(t) => t.sides
    }
  }

  /** Object identity: the grid stores references, modelled as ids. */
  type EntityId = nat

  /** The board: the port store, every object's state, and the grid, one
      entry per cell, `None` for a null cell. */
  datatype Game = Game(ports: PortMap, objects: map<EntityId, Entity>, grid: map<Coord, Option<EntityId>>)

  /** A cell of the 5 x 5 array. */
  predicate InGrid(c: Coord)
  {
    0 <= c.x < Width && 0 <= c.y < Height
  }

  function Cells(): set<Coord>
  {
    set x: int, y: int | 0 <= x < Width && 0 <= y < Height :: Coord(x, y)
  }

  /** A well-formed board: exactly the 25 cells, occupied cells name known
      objects, every object's ports exist, and links stay inside the store. */
  ghost predicate Valid(g: Game)
  {
    && (forall c :: c in g.grid <==> InGrid(c))
    && (forall c :: c in g.grid && g.grid[c].Some? ==> g.grid[c].value in g.objects)
    && (forall id :: id in g.objects ==> Present(g.ports, g.objects[id].PortsOf()))
    && LinksClosed(g.ports)
  }

  /** `new Game()`: an empty 5 x 5 grid. */
  function NewGame(): (g: Game)
    ensures Valid(g)
    ensures forall c :: InGrid(c) ==> g.grid[c] == None
  {
    var g := Game(map[], map[], map c | c in Cells() :: None);
    assert forall c :: InGrid(c) ==> c in Cells() by {
      forall c | InGrid(c) ensures c in Cells() {
        assert c == Coord(c.x, c.y);
      }
    }
    g
  }

  /** A freshly constructed object (`new Cable()`, `new SolarPanel()`,
      `new CargoTank()`) with four newly allocated ports, not yet placed. */
  function Spawn(g: Game, id: EntityId, e: Entity): (r: Game)
    requires Valid(g) && id !in g.objects
    requires e.PortsOf().Distinct()
    requires forall q :: q in e.PortsOf().AsSet() ==> q !in g.ports
    ensures Valid(r) && r.grid == g.grid
    ensures r.objects == g.objects[id := e]
    ensures r.ports.Keys == g.ports.Keys + e.PortsOf().AsSet()
    ensures forall q :: q in e.PortsOf().AsSet() ==> r.ports[q] == NewEnergyPort()
  {
    var s := e.PortsOf();
    var p := AddPorts(g.ports, s);
    assert LinksClosed(p) by {
      forall q | q in p && p[q].link.Some? ensures p[q].link.value in p {
        assert q in g.ports;
      }
    }
    Game(p, g.objects[id := e], g.grid)
  }

  // ---------------------------------------------------------------------
  // Coordinates
  // ---------------------------------------------------------------------

  /** `IsCoordinateOutOfBounds` as written: it compares with `>` against the
      array length, so the column x = 5 and the row y = 5 count as inside. */
  predicate IsCoordinateOutOfBounds(c: Coord): (b: bool)
    ensures InGrid(c) ==> !b
    ensures !b && !InGrid(c) <==> (c.x == Width && 0 <= c.y <= Height) || (c.y == Height && 0 <= c.x <= Width)
  {
    c.x < 0 || c.x > Width || c.y < 0 || c.y > Height
  }

  /** `ObjectAt`: a coordinate the bounds check rejects raises
      `ArgumentOutOfRangeException`; one it lets through but the array does
      not have raises `IndexOutOfRangeException` from the array access. */
  function ObjectAt(g: Game, c: Coord): (r: Result<Option<EntityId>>)
    ensures r.Ok? ==> c in g.grid && r.value == g.grid[c]
  {
    if IsCoordinateOutOfBounds(c) then Err(ArgumentOutOfRange)
    else if c !in g.grid then Err(IndexOutOfRange)
    else Ok(g.grid[c])
  }

  /** The neighbouring cell probed for a side, as `PlaceObject` computes it. */
  function Neighbour(c: Coord, d: Side): (n: Coord)
    ensures d == Top ==> n == Coord(c.x, c.y - 1)
    ensures d == Right ==> n == Coord(c.x + 1, c.y)
    ensures d == Bottom ==> n == Coord(c.x, c.y + 1)
    ensures d == Left ==> n == Coord(c.x - 1, c.y)
  {
    match d
    case Top => Coord(c.x, c.y - 1)
    case Right => Coord(c.x + 1, c.y)
    case Bottom => Coord(c.x, c.y + 1)
    case Left => Coord(c.x - 1, c.y)
  }

  // ---------------------------------------------------------------------
  // Placing
  // ---------------------------------------------------------------------

  /** `ConnectObject`: nothing when the bounds check rejects the cell or the
      cell is empty; `ObjectAt` may throw for a cell on the x = 5 or y = 5
      edge; otherwise the neighbour's facing port is connected TO the new
      object's port, so it is the neighbour's port that must be free. */
  function ConnectObject(g: Game, s: Sides, c: Coord, d: Side): (r: Outcome<Game, ()>)
    requires Valid(g) && Present(g.ports, s)
    ensures Valid(r.state) && r.state.grid == g.grid && r.state.objects == g.objects
    ensures OnlyLinksDiffer(g.ports, r.state.ports)
  {
    if IsCoordinateOutOfBounds(c) then Returned(g, ())
    else match ObjectAt(g, c)
      case Err(f) => Thrown(f, g)
      case Ok(None) => Returned(g, ())
      case Ok(Some(n)) =>
        var a := g.objects[n].PortsOf().At(Opposite(d));
        var k := Connect(g.ports, a, s.At(d));
        ConnectKeepsLinksClosed(g.ports, a, s.At(d));
        Relinked(g, g.(ports := k.state));
        if k.Thrown? then Thrown(k.fault, g.(ports := k.state)) else Returned(g.(ports := k.state), ())
  }

  /** Changing links only, within the store, keeps a board well formed. */
  lemma Relinked(g: Game, h: Game)
    requires Valid(g) && h.grid == g.grid && h.objects == g.objects
    requires OnlyLinksDiffer(g.ports, h.ports) && LinksClosed(h.ports)
    ensures Valid(h)
  {
  }

  /** The four `ConnectObject` calls of `PlaceObject`, in order; the first
      exception ends the sequence and links made before it stay. */
  function ConnectAll(g: Game, s: Sides, c: Coord, dirs: seq<Side>): (r: Outcome<Game, ()>)
    requires Valid(g) && Present(g.ports, s)
    ensures Valid(r.state) && r.state.grid == g.grid && r.state.objects == g.objects
    ensures OnlyLinksDiffer(g.ports, r.state.ports)
    decreases |dirs|
  {
    if |dirs| == 0 then Returned(g, ())
    else match ConnectObject(g, s, Neighbour(c, dirs[0]), dirs[0])
      case Thrown(f, g1) => Thrown(f, g1)
      case Returned(g1, _) =>
        var r := ConnectAll(g1, s, c, dirs[1..]);
        OnlyLinksDifferTransitive(g.ports, g1.ports, r.state.ports);
        r
  }

  /** The probe order of `PlaceObject`. */
  const Probes: seq<Side> := [Top, Right, Bottom, Left]

  /** `PlaceObject`: the target must be empty ("Spot not empty" otherwise),
      the four neighbours are linked, and only then is the cell written. */
  function PlaceObject(g: Game, id: EntityId, c: Coord): (r: Outcome<Game, ()>)
    requires Valid(g) && id in g.objects
    ensures Valid(r.state) && r.state.objects == g.objects
    ensures OnlyLinksDiffer(g.ports, r.state.ports)
    ensures r.Thrown? ==> r.state.grid == g.grid
  {
    match ObjectAt(g, c)
    case Err(f) => Thrown(f, g)
    case Ok(o) =>
      if o.Some? then Thrown(SpotNotEmpty, g)
      else
        var k := ConnectAll(g, g.objects[id].PortsOf(), c, Probes);
        if k.Thrown? then Thrown(k.fault, k.state) else Returned(Store(k.state, c, Some(id)), ())
  }

  /** `ResourceGrid[x, y] = o` for a cell of the array. */
  function Store(g: Game, c: Coord, o: Option<EntityId>): (r: Game)
    requires Valid(g) && c in g.grid
    requires o.Some? ==> o.value in g.objects
    ensures Valid(r) && r.ports == g.ports && r.objects == g.objects
    ensures r.grid == g.grid[c := o]
  {
    g.(grid := g.grid[c := o])
  }

  // ---------------------------------------------------------------------
  // Removing
  // ---------------------------------------------------------------------

  /** The scan order of `RemoveObject`: rows (y) outer, columns (x) inner. */
  function ScanOrder(): (cells: seq<Coord>)
    ensures |cells| == Width * Height
  {
    seq(Width * Height, i => Coord(i % Width, i / Width))
  }

  /** The first of `cells` holding the object, if any. */
  function FindCell(grid: map<Coord, Option<EntityId>>, id: EntityId, cells: seq<Coord>): (r: Option<nat>)
    ensures r.Some? ==> r.value < |cells| && cells[r.value] in grid && grid[cells[r.value]] == Some(id)
    ensures r.Some? ==> forall i :: 0 <= i < r.value ==> cells[i] !in grid || grid[cells[i]] != Some(id)
    ensures r.None? ==> forall i :: 0 <= i < |cells| ==> cells[i] !in grid || grid[cells[i]] != Some(id)
    decreases |cells|
  {
    if |cells| == 0 then None
    else if cells[0] in grid && grid[cells[0]] == Some(id) then Some(0)
    else match FindCell(grid, id, cells[1..])
      case None => None
      case Some(i) => Some(i + 1)
  }

  /** `DisconnectFromPort` on each of the given ports, in order. */
  function DisconnectAll(ports: PortMap, ids: seq<PortId>): (r: PortMap)
    requires AllPresent(ports, ids) && LinksClosed(ports)
    ensures OnlyLinksDiffer(ports, r) && LinksClosed(r)
    ensures forall i :: 0 <= i < |ids| ==> r[ids[i]].link == None
    ensures forall q :: q in ports ==> r[q].link == ports[q].link || r[q].link == None
    decreases |ids|
  {
    if |ids| == 0 then ports
    else
      var p := Disconnect(ports, ids[0]);
      var r := DisconnectAll(p, ids[1..]);
      assert forall i :: 1 <= i < |ids| ==> ids[i] == ids[1..][i - 1];
      r
  }

  lemma DisconnectAllUnlinks(ports: PortMap, s: Sides)
    requires Present(ports, s) && LinksClosed(ports)
    ensures Unlinked(DisconnectAll(ports, s.InOrder()), s)
  {
    var ids := s.InOrder();
    assert ids[0] == s.top && ids[1] == s.right && ids[2] == s.bottom && ids[3] == s.left;
  }

  /** `RemoveObject(IResourceObject)`: null is rejected; the first cell in
      scan order holding the object is cleared after its four ports are
      disconnected, and the object is returned; an object on no cell is
      rejected. */
  function RemoveObject(g: Game, obj: Option<EntityId>): (r: Outcome<Game, EntityId>)
    requires Valid(g)
    ensures Valid(r.state) && r.state.objects == g.objects
    ensures OnlyLinksDiffer(g.ports, r.state.ports)
    ensures r.Returned? ==> obj == Some(r.value) && r.value in g.objects && Unlinked(r.state.ports, g.objects[r.value].PortsOf())
  {
    if obj.None? then Thrown(ArgumentNull, g)
    else match FindCell(g.grid, obj.value, ScanOrder())
      case None => Thrown(Argument, g)
      case Some(i) =>
        var c := ScanOrder()[i];
        var p := DisconnectAll(g.ports, g.objects[obj.value].PortsOf().InOrder());
        DisconnectAllUnlinks(g.ports, g.objects[obj.value].PortsOf());
        Relinked(g, g.(ports := p));
        Returned(Store(g.(ports := p), c, None), obj.value)
  }

  /** `RemoveObject(Point)`: whatever `ObjectAt` answers, null included, is
      handed to `RemoveObject`. */
  function RemoveObjectAt(g: Game, c: Coord): (r: Outcome<Game, EntityId>)
    requires Valid(g)
    ensures Valid(r.state) && r.state.objects == g.objects
    ensures OnlyLinksDiffer(g.ports, r.state.ports)
    ensures r.Thrown? ==> r.state.grid == g.grid
  {
    match ObjectAt(g, c)
    case Err(f) => Thrown(f, g)
    case Ok(o) => RemoveObject(g, o)
  }

  // ---------------------------------------------------------------------
  // Updating
  // ---------------------------------------------------------------------

  /** One object's `Update`, by kind. */
  function UpdateEntity(ports: PortMap, e: Entity): (r: Ticked<Entity>)
    requires Present(ports, e.PortsOf()) && LinksClosed(ports)
    ensures SameWiring(ports, r.ports) && r.entity.PortsOf() == e.PortsOf()
  {
    match e
    case CableEntity(c) =>
      var t := Cables.Update(ports, c);
      Ticked(t.ports, CableEntity(t.entity))
    case PanelEntity(p) =>
      var t := SolarPanels.Update(ports, p);
      SolarPanels.UpdateTouchesOnly(ports, p);
      Ticked(t.ports, PanelEntity(t.entity))
    case TankEntity(k) =>
      var t := CargoTanks.Update(ports, k);
      CargoTanks.UpdateTouchesOnly(ports, k);
      Ticked(t.ports, TankEntity(t.entity))
  }

  /** Updates the object `id` in place. */
  function UpdateObject(g: Game, id: EntityId): (r: Game)
    requires Valid(g) && id in g.objects
    ensures Valid(r) && r.grid == g.grid && r.objects.Keys == g.objects.Keys
    ensures SameWiring(g.ports, r.ports)
  {
    var t := UpdateEntity(g.ports, g.objects[id]);
    SameWiringKeepsLinksClosed(g.ports, t.ports);
    Game(t.ports, g.objects[id := t.entity], g.grid)
  }

  /** The visiting order of `foreach` over a C# `[5, 5]` array: the first
      index (x) outer, the second (y) inner. */
  function SweepOrder(): (cells: seq<Coord>)
    ensures |cells| == Width * Height
    ensures forall i :: 0 <= i < |cells| ==> InGrid(cells[i])
  {
    seq(Width * Height, i => Coord(i / Height, i % Height))
  }

  /** `o?.Update()` for one cell: a null cell is skipped. */
  function VisitCell(g: Game, c: Coord): (r: Game)
    requires Valid(g) && InGrid(c)
    ensures Valid(r) && r.grid == g.grid && r.objects.Keys == g.objects.Keys
    ensures SameWiring(g.ports, r.ports)
  {
    match g.grid[c]
    case None => g
    case Some(id) => UpdateObject(g, id)
  }

  /** `o?.Update()` for the cells among `cells`, in order. */
  function Sweep(g: Game, cells: seq<Coord>): (r: Game)
    requires Valid(g) && forall i :: 0 <= i < |cells| ==> InGrid(cells[i])
    ensures Valid(r) && r.grid == g.grid && r.objects.Keys == g.objects.Keys
    ensures SameWiring(g.ports, r.ports)
    decreases |cells|
  {
    if |cells| == 0 then g
    else
      var g1 := VisitCell(g, cells[0]);
      var r := Sweep(g1, cells[1..]);
      SameWiringTransitive(g.ports, g1.ports, r.ports);
      r
  }

  /** `Game.Update`: every occupied cell's object is updated once per
      occupied cell, in sweep order; the grid itself never changes. */
  function Update(g: Game): (r: Game)
    requires Valid(g)
    ensures Valid(r) && r.grid == g.grid && r.objects.Keys == g.objects.Keys
    ensures SameWiring(g.ports, r.ports)
  {
    Sweep(g, SweepOrder())
  }

  /** The object of a cell as a list: empty for a null cell. */
  function Occupant(grid: map<Coord, Option<EntityId>>, c: Coord): (r: seq<EntityId>)
    requires c in grid
    ensures |r| <= 1 && (r == [] <==> grid[c].None?)
    ensures forall id :: id in r <==> grid[c] == Some(id)
  {
    match grid[c]
    case None => []
    case Some(id) => [id]
  }

  /** The objects of the occupied cells among `cells`, in order, once per
      cell: the calls `Sweep` makes. */
  function Occupants(grid: map<Coord, Option<EntityId>>, cells: seq<Coord>): (r: seq<EntityId>)
    requires forall i :: 0 <= i < |cells| ==> cells[i] in grid
    ensures |r| <= |cells|
    decreases |cells|
  {
    if |cells| == 0 then []
    else Occupant(grid, cells[0]) + Occupants(grid, cells[1..])
  }

  /** `UpdateObject` for each id in turn: the reference for `Sweep`. */
  function UpdateAll(g: Game, ids: seq<EntityId>): (r: Game)
    requires Valid(g) && forall id :: id in ids ==> id in g.objects
    ensures Valid(r) && r.grid == g.grid && r.objects.Keys == g.objects.Keys
    ensures SameWiring(g.ports, r.ports)
    decreases |ids|
  {
    if |ids| == 0 then g
    else
      var g1 := UpdateObject(g, ids[0]);
      var r := UpdateAll(g1, ids[1..]);
      SameWiringTransitive(g.ports, g1.ports, r.ports);
      r
  }

  // ---------------------------------------------------------------------
  // Properties: coordinates
  // ---------------------------------------------------------------------

  /** The bounds check lets through exactly the cells of the array plus the
      column x = 5 and the row y = 5 (corners included). */
  lemma BoundsCheckOffByOne(c: Coord)
    ensures InGrid(c) ==> !IsCoordinateOutOfBounds(c)
    ensures !IsCoordinateOutOfBounds(c) && !InGrid(c) <==>
      (c.x == Width && 0 <= c.y <= Height) || (c.y == Height && 0 <= c.x <= Width)
  {
  }

  /** On a well-formed board `ObjectAt` answers for exactly the 25 cells;
      it raises `ArgumentOutOfRangeException` where the bounds check rejects
      the coordinate, and `IndexOutOfRangeException` on the x = 5 and y = 5
      edges it wrongly lets through. */
  lemma ObjectAtSpec(g: Game, c: Coord)
    requires Valid(g)
    ensures ObjectAt(g, c).Ok? <==> InGrid(c)
    ensures InGrid(c) ==> ObjectAt(g, c).value == g.grid[c]
    ensures ObjectAt(g, c) == Err(ArgumentOutOfRange) <==> IsCoordinateOutOfBounds(c)
    ensures ObjectAt(g, c) == Err(IndexOutOfRange) <==> !IsCoordinateOutOfBounds(c) && !InGrid(c)
  {
  }

  // ---------------------------------------------------------------------
  // Properties: placing
  // ---------------------------------------------------------------------

  /** The port of the object next to `c` on side `d` that faces `c`, if that
      neighbouring cell is a cell of the board and is occupied. */
  ghost function Facing(g: Game, c: Coord, d: Side): (f: Option<PortId>)
    requires Valid(g)
    ensures f.Some? ==> f.value in g.ports
  {
    var n := Neighbour(c, d);
    if InGrid(n) && g.grid[n].Some? then Some(g.objects[g.grid[n].value].PortsOf().At(Opposite(d))) else None
  }

  /** A probe off the board is skipped; the x = 5 and y = 5 edges raise
      `IndexOutOfRangeException`; an empty cell is skipped; with an occupied
      one the facing port is linked both ways to the new object's port when
      the facing port is free, and `InvalidOperationException` is raised,
      changing nothing, when it is not. No other port changes. */
  lemma ConnectObjectSpec(g: Game, s: Sides, c: Coord, d: Side)
    requires Valid(g) && Present(g.ports, s)
    ensures IsCoordinateOutOfBounds(Neighbour(c, d)) ==> ConnectObject(g, s, Neighbour(c, d), d) == Returned(g, ())
    ensures !IsCoordinateOutOfBounds(Neighbour(c, d)) && !InGrid(Neighbour(c, d)) ==>
      ConnectObject(g, s, Neighbour(c, d), d) == Thrown(IndexOutOfRange, g)
    ensures InGrid(Neighbour(c, d)) && Facing(g, c, d).None? ==> ConnectObject(g, s, Neighbour(c, d), d) == Returned(g, ())
    ensures Facing(g, c, d).Some? ==>
      (ConnectObject(g, s, Neighbour(c, d), d).Returned? <==> g.ports[Facing(g, c, d).value].link.None?)
    ensures Facing(g, c, d).Some? && ConnectObject(g, s, Neighbour(c, d), d).Returned? ==>
      && ConnectObject(g, s, Neighbour(c, d), d).state.ports[Facing(g, c, d).value].link == Some(s.At(d))
      && ConnectObject(g, s, Neighbour(c, d), d).state.ports[s.At(d)].link == Facing(g, c, d)
    ensures Facing(g, c, d).Some? && ConnectObject(g, s, Neighbour(c, d), d).Thrown? ==>
      ConnectObject(g, s, Neighbour(c, d), d) == Thrown(InvalidOperation, g)
    ensures forall q :: q in g.ports && q != s.At(d) && Some(q) != Facing(g, c, d) ==>
      ConnectObject(g, s, Neighbour(c, d), d).state.ports[q] == g.ports[q]
  {
  }

  /** The ports the probes in `dirs` can touch: the new object's sides and
      the facing ports of occupied neighbours. */
  ghost function Involved(g: Game, s: Sides, c: Coord, dirs: seq<Side>): set<PortId>
    requires Valid(g)
  {
    (set d | d in dirs :: s.At(d)) + (set d | d in dirs && Facing(g, c, d).Some? :: Facing(g, c, d).value)
  }

  /** The probes of `ConnectAll` leave every other port alone. */
  lemma {:induction false} ConnectAllFrame(g: Game, s: Sides, c: Coord, dirs: seq<Side>)
    requires Valid(g) && Present(g.ports, s)
    ensures forall q :: q in g.ports && q !in Involved(g, s, c, dirs) ==> ConnectAll(g, s, c, dirs).state.ports[q] == g.ports[q]
    decreases |dirs|
  {
    if |dirs| > 0 {
      var r0 := ConnectObject(g, s, Neighbour(c, dirs[0]), dirs[0]);
      ConnectObjectFrame(g, s, c, dirs[0]);
      if r0.Returned? {
        var g1 := r0.state;
        ConnectAllFrame(g1, s, c, dirs[1..]);
        FacingKept(g, g1, c);
        InvolvedSplit(g, g1, s, c, dirs);
      }
    }
  }

  /** The side list has no repeats. */
  predicate Once(dirs: seq<Side>)
  {
    forall i, j :: 0 <= i < j < |dirs| ==> dirs[i] != dirs[j]
  }

  /** The new object's four ports and the facing ports of its neighbours are
      eight different ports (as they are when the new object is not a
      neighbour of itself and every object owns four ports). */
  ghost predicate Separate(g: Game, s: Sides, c: Coord)
    requires Valid(g)
  {
    && s.Distinct()
    && (forall d, e :: Facing(g, c, d).Some? ==> Facing(g, c, d).value != s.At(e))
    && (forall d, e :: d != e && Facing(g, c, d).Some? && Facing(g, c, e).Some? ==> Facing(g, c, d).value != Facing(g, c, e).value)
  }

  lemma SidesDistinct(s: Sides, d: Side, e: Side)
    requires s.Distinct() && d != e
    ensures s.At(d) != s.At(e)
  {
  }

  /** When every probe returns, an occupied neighbour on a probed side had
      its facing port free before and linked both ways with the new object's
      port on that side after; a probed side without a neighbour is
      untouched. */
  lemma {:induction false} ConnectAllLinks(g: Game, s: Sides, c: Coord, dirs: seq<Side>, d: Side)
    requires Valid(g) && Present(g.ports, s) && Separate(g, s, c) && Once(dirs) && d in dirs
    requires ConnectAll(g, s, c, dirs).Returned?
    ensures Facing(g, c, d).Some? ==>
      && g.ports[Facing(g, c, d).value].link.None?
      && ConnectAll(g, s, c, dirs).state.ports[Facing(g, c, d).value].link == Some(s.At(d))
      && ConnectAll(g, s, c, dirs).state.ports[s.At(d)].link == Facing(g, c, d)
    ensures Facing(g, c, d).None? ==> ConnectAll(g, s, c, dirs).state.ports[s.At(d)] == g.ports[s.At(d)]
    decreases |dirs|
  {
    var d0 := dirs[0];
    var rest := dirs[1..];
    var g1 := ConnectObject(g, s, Neighbour(c, d0), d0).state;
    ConnectObjectSpec(g, s, c, d0);
    FacingKept(g, g1, c);
    OnceRest(dirs);
    ConnectAllFrame(g1, s, c, rest);
    if d == d0 {
      NotInvolved(g1, s, c, rest, d0);
    } else {
      assert d in rest;
      SidesDistinct(s, d0, d);
      ConnectAllLinks(g1, s, c, rest, d);
    }
  }

  /** One probe changes at most the probing side's port and the port facing it. */
  lemma ConnectObjectFrame(g: Game, s: Sides, c: Coord, d: Side)
    requires Valid(g) && Present(g.ports, s)
    ensures forall q :: q in g.ports && q != s.At(d) && Some(q) != Facing(g, c, d) ==>
      ConnectObject(g, s, Neighbour(c, d), d).state.ports[q] == g.ports[q]
  {
    ConnectObjectSpec(g, s, c, d);
  }

  lemma InvolvedSplit(g: Game, h: Game, s: Sides, c: Coord, dirs: seq<Side>)
    requires Valid(g) && Valid(h) && |dirs| > 0
    requires forall d :: Facing(g, c, d) == Facing(h, c, d)
    ensures Involved(h, s, c, dirs[1..]) <= Involved(g, s, c, dirs)
    ensures s.At(dirs[0]) in Involved(g, s, c, dirs)
    ensures Facing(g, c, dirs[0]).Some? ==> Facing(g, c, dirs[0]).value in Involved(g, s, c, dirs)
  {
    assert forall d :: d in dirs[1..] ==> d in dirs;
  }

  lemma FacingKept(g: Game, h: Game, c: Coord)
    requires Valid(g) && Valid(h) && g.grid == h.grid && g.objects == h.objects
    ensures forall d :: Facing(g, c, d) == Facing(h, c, d)
  {
  }

  lemma OnceRest(dirs: seq<Side>)
    requires Once(dirs) && |dirs| > 0
    ensures Once(dirs[1..]) && dirs[0] !in dirs[1..]
  {
    assert forall j :: 0 <= j < |dirs| - 1 ==> dirs[1..][j] == dirs[j + 1];
  }

  /** The ports of a probe on side `d0` are not touched by later probes on
      other sides. */
  lemma NotInvolved(g: Game, s: Sides, c: Coord, rest: seq<Side>, d0: Side)
    requires Valid(g) && Separate(g, s, c) && d0 !in rest
    ensures s.At(d0) !in Involved(g, s, c, rest)
    ensures Facing(g, c, d0).Some? ==> Facing(g, c, d0).value !in Involved(g, s, c, rest)
  {
    forall d | d in rest ensures s.At(d) != s.At(d0) {
      SidesDistinct(s, d0, d);
    }
  }

  /** Placing onto an occupied cell raises "Spot not empty" and changes
      nothing; placing outside the array raises the exception `ObjectAt`
      raises, again changing nothing. */
  lemma PlaceRejects(g: Game, id: EntityId, c: Coord)
    requires Valid(g) && id in g.objects
    ensures InGrid(c) && g.grid[c].Some? ==> PlaceObject(g, id, c) == Thrown(SpotNotEmpty, g)
    ensures IsCoordinateOutOfBounds(c) ==> PlaceObject(g, id, c) == Thrown(ArgumentOutOfRange, g)
    ensures !IsCoordinateOutOfBounds(c) && !InGrid(c) ==> PlaceObject(g, id, c) == Thrown(IndexOutOfRange, g)
  {
  }

  /** A successful placement was onto an empty cell, writes exactly that
      cell, and changes nothing but links. */
  lemma PlaceStores(g: Game, id: EntityId, c: Coord)
    requires Valid(g) && id in g.objects
    requires PlaceObject(g, id, c).Returned?
    ensures InGrid(c) && g.grid[c] == None
    ensures PlaceObject(g, id, c).state.grid == g.grid[c := Some(id)]
  {
  }

  /** A probe list with a probe onto the x = 5 or y = 5 edge never returns. */
  lemma {:induction false} ConnectAllHitsEdge(g: Game, s: Sides, c: Coord, dirs: seq<Side>, k: nat)
    requires Valid(g) && Present(g.ports, s)
    requires k < |dirs| && !IsCoordinateOutOfBounds(Neighbour(c, dirs[k])) && !InGrid(Neighbour(c, dirs[k]))
    ensures ConnectAll(g, s, c, dirs).Thrown?
    decreases k
  {
    ConnectObjectSpec(g, s, c, dirs[0]);
    var r0 := ConnectObject(g, s, Neighbour(c, dirs[0]), dirs[0]);
    if k > 0 && r0.Returned? {
      ConnectAllHitsEdge(r0.state, s, c, dirs[1..], k - 1);
    }
  }

  /** No placement in the column x = 4 or the row y = 4 ever succeeds: its
      Right or Bottom probe reaches the x = 5 or y = 5 edge, which the bounds
      check lets through and the array access rejects. */
  lemma PlaceNeverOnFarEdge(g: Game, id: EntityId, c: Coord)
    requires Valid(g) && id in g.objects
    ensures PlaceObject(g, id, c).Returned? ==> 0 <= c.x < Width - 1 && 0 <= c.y < Height - 1
  {
    if ObjectAt(g, c).Ok? && ObjectAt(g, c).value.None? {
      var s := g.objects[id].PortsOf();
      if c.x == Width - 1 {
        ConnectAllHitsEdge(g, s, c, Probes, 1);
      } else if c.y == Height - 1 {
        ConnectAllHitsEdge(g, s, c, Probes, 2);
      }
    }
  }

  /** The failed placement in column 4 under an occupied cell: the top link
      is made, then the Right probe raises `IndexOutOfRangeException`; the
      object is not on the grid, yet its Top port stays linked. */
  lemma PlaceInLastColumnLeavesLink(g: Game, id: EntityId, c: Coord)
    requires Valid(g) && id in g.objects
    requires c.x == Width - 1 && 1 <= c.y < Height && g.grid[c] == None
    requires Facing(g, c, Top).Some? && g.ports[Facing(g, c, Top).value].link == None
    ensures PlaceObject(g, id, c).Thrown? && PlaceObject(g, id, c).fault == IndexOutOfRange
    ensures PlaceObject(g, id, c).state.grid == g.grid
    ensures PlaceObject(g, id, c).state.ports[Facing(g, c, Top).value].link == Some(g.objects[id].PortsOf().top)
    ensures PlaceObject(g, id, c).state.ports[g.objects[id].PortsOf().top].link == Facing(g, c, Top)
  {
    var s := g.objects[id].PortsOf();
    ConnectObjectSpec(g, s, c, Top);
    var g1 := ConnectObject(g, s, Neighbour(c, Top), Top).state;
    ConnectObjectSpec(g1, s, c, Right);
    assert ConnectAll(g, s, c, Probes) == ConnectAll(g1, s, c, Probes[1..]);
    assert ConnectAll(g1, s, c, Probes[1..]) == Thrown(IndexOutOfRange, g1);
  }

  /** Every probe that finds no neighbour returns unchanged. */
  lemma {:induction false} ConnectAllAlone(g: Game, s: Sides, c: Coord, dirs: seq<Side>)
    requires Valid(g) && Present(g.ports, s)
    requires forall i :: 0 <= i < |dirs| ==> InGrid(Neighbour(c, dirs[i])) || IsCoordinateOutOfBounds(Neighbour(c, dirs[i]))
    requires forall i :: 0 <= i < |dirs| ==> Facing(g, c, dirs[i]).None?
    ensures ConnectAll(g, s, c, dirs) == Returned(g, ())
    decreases |dirs|
  {
    if |dirs| > 0 {
      ConnectObjectSpec(g, s, c, dirs[0]);
      ConnectAllAlone(g, s, c, dirs[1..]);
    }
  }

  /** Placing onto an empty cell away from the far edges with no occupied
      neighbour succeeds and writes only that cell. */
  lemma PlaceAlone(g: Game, id: EntityId, c: Coord)
    requires Valid(g) && id in g.objects
    requires 0 <= c.x < Width - 1 && 0 <= c.y < Height - 1 && g.grid[c] == None
    requires forall d :: Facing(g, c, d).None?
    ensures PlaceObject(g, id, c) == Returned(g.(grid := g.grid[c := Some(id)]), ())
  {
    var s := g.objects[id].PortsOf();
    ProbesInside(c);
    assert forall i :: 0 <= i < |Probes| ==> Facing(g, c, Probes[i]).None?;
    ConnectAllAlone(g, s, c, Probes);
    PlaceAfterProbes(g, id, c, g);
  }

  /** Once the probes have run, a placement onto an empty cell writes it. */
  lemma PlaceAfterProbes(g: Game, id: EntityId, c: Coord, h: Game)
    requires Valid(g) && id in g.objects && InGrid(c) && g.grid[c] == None
    requires ConnectAll(g, g.objects[id].PortsOf(), c, Probes) == Returned(h, ())
    ensures PlaceObject(g, id, c) == Returned(h.(grid := h.grid[c := Some(id)]), ())
  {
  }

  /** From a cell away from the far edges every probe lands on the array
      or is rejected by the bounds check. */
  lemma ProbesInside(c: Coord)
    requires 0 <= c.x < Width - 1 && 0 <= c.y < Height - 1
    ensures forall i :: 0 <= i < |Probes| ==>
      InGrid(Neighbour(c, Probes[i])) || IsCoordinateOutOfBounds(Neighbour(c, Probes[i]))
  {
    assert Probes[0] == Top && Probes[1] == Right && Probes[2] == Bottom && Probes[3] == Left;
  }

  /** After a successful placement every occupied neighbour is linked both
      ways with the new object through the facing ports, which were free
      before; a side without a neighbour is untouched. */
  lemma PlaceLinks(g: Game, id: EntityId, c: Coord, r: Game, d: Side)
    requires Valid(g) && id in g.objects && Separate(g, g.objects[id].PortsOf(), c)
    requires PlaceObject(g, id, c) == Returned(r, ())
    ensures r.ports.Keys == g.ports.Keys
    ensures Facing(g, c, d).Some? ==>
      && g.ports[Facing(g, c, d).value].link.None?
      && r.ports[Facing(g, c, d).value].link == Some(g.objects[id].PortsOf().At(d))
      && r.ports[g.objects[id].PortsOf().At(d)].link == Facing(g, c, d)
    ensures Facing(g, c, d).None? ==> r.ports[g.objects[id].PortsOf().At(d)] == g.ports[g.objects[id].PortsOf().At(d)]
  {
    var s := g.objects[id].PortsOf();
    ProbesCover(d);
    PlacedByProbes(g, id, c, r);
    ConnectAllLinks(g, s, c, Probes, d);
  }

  /** `PlaceObject` probes each side exactly once. */
  lemma ProbesCover(d: Side)
    ensures Once(Probes) && d in Probes
  {
    assert Probes[0] == Top && Probes[1] == Right && Probes[2] == Bottom && Probes[3] == Left;
  }

  lemma PlacedByProbes(g: Game, id: EntityId, c: Coord, r: Game)
    requires Valid(g) && id in g.objects
    requires PlaceObject(g, id, c) == Returned(r, ())
    ensures ConnectAll(g, g.objects[id].PortsOf(), c, Probes).Returned?
    ensures r.ports == ConnectAll(g, g.objects[id].PortsOf(), c, Probes).state.ports
  {
    assert ObjectAt(g, c) == Ok(None);
  }

  /** A probe keeps every link answered when the new object's port on that
      side is free. */
  lemma ConnectObjectKeepsSymmetry(g: Game, s: Sides, c: Coord, d: Side)
    requires Valid(g) && Present(g.ports, s) && Symmetric(g.ports)
    requires g.ports[s.At(d)].link.None?
    ensures Symmetric(ConnectObject(g, s, Neighbour(c, d), d).state.ports)
  {
    var n := Neighbour(c, d);
    if !IsCoordinateOutOfBounds(n) && ObjectAt(g, n).Ok? && ObjectAt(g, n).value.Some? {
      var a := g.objects[ObjectAt(g, n).value.value].PortsOf().At(Opposite(d));
      ConnectPreservesSymmetry(g.ports, a, s.At(d));
    }
  }

  lemma {:induction false} ConnectAllKeepsSymmetry(g: Game, s: Sides, c: Coord, dirs: seq<Side>)
    requires Valid(g) && Present(g.ports, s) && Separate(g, s, c) && Once(dirs)
    requires Symmetric(g.ports) && forall d :: d in dirs ==> g.ports[s.At(d)].link.None?
    ensures Symmetric(ConnectAll(g, s, c, dirs).state.ports)
    decreases |dirs|
  {
    if |dirs| > 0 {
      var d0 := dirs[0];
      var r0 := ConnectObject(g, s, Neighbour(c, d0), d0);
      ConnectObjectKeepsSymmetry(g, s, c, d0);
      if r0.Returned? {
        var g1 := r0.state;
        FacingKept(g, g1, c);
        OnceRest(dirs);
        ProbeKeepsOthersFree(g, s, c, d0, dirs[1..]);
        ConnectAllKeepsSymmetry(g1, s, c, dirs[1..]);
      }
    }
  }

  lemma ProbeKeepsOthersFree(g: Game, s: Sides, c: Coord, d0: Side, rest: seq<Side>)
    requires Valid(g) && Present(g.ports, s) && Separate(g, s, c) && d0 !in rest
    requires forall d :: d in rest ==> g.ports[s.At(d)].link.None?
    ensures forall d :: d in rest ==> ConnectObject(g, s, Neighbour(c, d0), d0).state.ports[s.At(d)].link.None?
  {
    ConnectObjectSpec(g, s, c, d0);
    forall d | d in rest ensures s.At(d) != s.At(d0) {
      SidesDistinct(s, d0, d);
    }
  }

  /** Placing an object whose ports are all free keeps every link answered,
      whether the placement succeeds or stops at an exception. */
  lemma PlaceKeepsSymmetry(g: Game, id: EntityId, c: Coord)
    requires Valid(g) && id in g.objects && Separate(g, g.objects[id].PortsOf(), c)
    requires Symmetric(g.ports) && Unlinked(g.ports, g.objects[id].PortsOf())
    ensures Symmetric(PlaceObject(g, id, c).state.ports)
  {
    var s := g.objects[id].PortsOf();
    ProbesCover(Top);
    UnlinkedAt(g.ports, s);
    if ObjectAt(g, c).Ok? && ObjectAt(g, c).value.None? {
      ConnectAllKeepsSymmetry(g, s, c, Probes);
    }
  }

  // ---------------------------------------------------------------------
  // Properties: removing
  // ---------------------------------------------------------------------

  /** `a` is met before `b` when rows are scanned top to bottom and each row
      left to right. */
  predicate ScannedBefore(a: Coord, b: Coord)
  {
    a.y < b.y || (a.y == b.y && a.x < b.x)
  }

  /** The removal scan lists every cell exactly once, row by row: the cell
      (x, y) is at position 5 * y + x and positions follow `ScannedBefore`. */
  lemma ScanOrderSpec()
    ensures forall i :: 0 <= i < |ScanOrder()| ==> InGrid(ScanOrder()[i])
    ensures forall c :: InGrid(c) ==> ScanOrder()[c.y * Width + c.x] == c
    ensures forall i, j :: 0 <= i < j < |ScanOrder()| ==> ScannedBefore(ScanOrder()[i], ScanOrder()[j])
  {
    forall c | InGrid(c) ensures ScanOrder()[c.y * Width + c.x] == c {
      DivModOf(c.y, c.x);
    }
    forall i, j | 0 <= i < j < |ScanOrder()| ensures ScannedBefore(ScanOrder()[i], ScanOrder()[j]) {
      DivModOrder(i, j);
    }
  }

  /** Position q * 5 + r splits back into q and r. */
  lemma DivModOf(q: int, r: int)
    requires 0 <= q < 5 && 0 <= r < 5
    ensures (q * 5 + r) % 5 == r && (q * 5 + r) / 5 == q
  {
  }

  /** Later positions have a larger quotient, or the same one and a larger
      remainder. */
  lemma DivModOrder(i: int, j: int)
    requires 0 <= i < j
    ensures i / 5 < j / 5 || (i / 5 == j / 5 && i % 5 < j % 5)
  {
  }

  /** Null is rejected with `ArgumentNullException`, an object on no cell
      with `ArgumentException`; neither changes anything. */
  lemma RemoveRejects(g: Game, obj: Option<EntityId>)
    requires Valid(g)
    ensures obj.None? ==> RemoveObject(g, obj) == Thrown(ArgumentNull, g)
    ensures obj.Some? && (forall c :: InGrid(c) ==> g.grid[c] != obj) ==> RemoveObject(g, obj) == Thrown(Argument, g)
  {
    if obj.Some? && (forall c :: InGrid(c) ==> g.grid[c] != obj) {
      ScanOrderSpec();
    }
  }

  /** Removing an object clears the first cell holding it in scan order and
      only that one (a second cell holding the same object keeps it), and
      hands the object back. */
  lemma RemoveFirst(g: Game, id: EntityId, c: Coord)
    requires Valid(g) && InGrid(c) && g.grid[c] == Some(id)
    requires forall e :: InGrid(e) && ScannedBefore(e, c) ==> g.grid[e] != Some(id)
    ensures RemoveObject(g, Some(id)).Returned? && RemoveObject(g, Some(id)).value == id
    ensures RemoveObject(g, Some(id)).state.grid == g.grid[c := None]
  {
    ScanFindsFirst(g.grid, id, c);
  }

  /** The scan stops at the first cell, in row order, holding the object. */
  lemma ScanFindsFirst(grid: map<Coord, Option<EntityId>>, id: EntityId, c: Coord)
    requires forall e :: e in grid <==> InGrid(e)
    requires InGrid(c) && grid[c] == Some(id)
    requires forall e :: InGrid(e) && ScannedBefore(e, c) ==> grid[e] != Some(id)
    ensures FindCell(grid, id, ScanOrder()) == Some(c.y * Width + c.x)
    ensures ScanOrder()[c.y * Width + c.x] == c
  {
    ScanOrderSpec();
    var k := c.y * Width + c.x;
    var f := FindCell(grid, id, ScanOrder());
    assert ScanOrder()[k] == c;
    assert f.value == k;
  }

  /** Removing from an empty cell hands null on, which is rejected with
      `ArgumentNullException`; a coordinate off the array raises what
      `ObjectAt` raises. */
  lemma RemoveAtRejects(g: Game, c: Coord)
    requires Valid(g)
    ensures InGrid(c) && g.grid[c] == None ==> RemoveObjectAt(g, c) == Thrown(ArgumentNull, g)
    ensures IsCoordinateOutOfBounds(c) ==> RemoveObjectAt(g, c) == Thrown(ArgumentOutOfRange, g)
    ensures !IsCoordinateOutOfBounds(c) && !InGrid(c) ==> RemoveObjectAt(g, c) == Thrown(IndexOutOfRange, g)
  {
  }

  /** The ports linked, before any disconnection, to one of `ids`. */
  ghost function Partners(ports: PortMap, ids: seq<PortId>): set<PortId>
  {
    set i | i in ids && i in ports && ports[i].link.Some? :: ports[i].link.value
  }

  /** With every link answered, disconnecting a list of ports unlinks
      exactly those ports and their partners, keeps every other link, and
      keeps every link answered. */
  lemma {:induction false} DisconnectAllSpec(ports: PortMap, ids: seq<PortId>)
    requires AllPresent(ports, ids) && LinksClosed(ports) && Symmetric(ports)
    ensures Symmetric(DisconnectAll(ports, ids))
    ensures forall q :: q in ports ==>
      DisconnectAll(ports, ids)[q].link == (if q in ids || q in Partners(ports, ids) then None else ports[q].link)
    decreases |ids|
  {
    if |ids| > 0 {
      var a := ids[0];
      var rest := ids[1..];
      var p := Disconnect(ports, a);
      DisconnectPreservesSymmetry(ports, a);
      assert AllPresent(p, rest);
      DisconnectAllSpec(p, rest);
      var r := DisconnectAll(p, rest);
      assert r == DisconnectAll(ports, ids);
      forall q | q in ports
        ensures r[q].link == (if q in ids || q in Partners(ports, ids) then None else ports[q].link)
      {
        if q in ids || q in Partners(ports, ids) {
          PartnerCleared(ports, ids, q);
        } else {
          assert q != a && Some(q) != ports[a].link;
          assert q !in rest;
          assert q !in Partners(p, rest) by {
            forall i | i in rest && i in p && p[i].link.Some? ensures p[i].link.value != q {
              assert p[i].link == ports[i].link;
            }
          }
        }
      }
    }
  }

  /** One step of the induction above: a port in `ids`, or linked to one,
      ends up unlinked. */
  lemma PartnerCleared(ports: PortMap, ids: seq<PortId>, q: PortId)
    requires AllPresent(ports, ids) && LinksClosed(ports) && Symmetric(ports) && |ids| > 0
    requires q in ports && (q in ids || q in Partners(ports, ids))
    requires Symmetric(Disconnect(ports, ids[0]))
    requires forall q :: q in ports ==>
      DisconnectAll(Disconnect(ports, ids[0]), ids[1..])[q].link ==
        (if q in ids[1..] || q in Partners(Disconnect(ports, ids[0]), ids[1..]) then None else Disconnect(ports, ids[0])[q].link)
    ensures DisconnectAll(ports, ids)[q].link == None
  {
    var a := ids[0];
    var rest := ids[1..];
    var p := Disconnect(ports, a);
    var r := DisconnectAll(p, rest);
    assert r == DisconnectAll(ports, ids);
    if q == a || Some(q) == ports[a].link {
    } else if q in rest {
    } else {
      var i :| i in ids && i in ports && ports[i].link == Some(q);
      assert i != a;
      assert Some(i) != ports[a].link;
      assert p[i].link == ports[i].link;
      assert i in rest;
      assert q in Partners(p, rest);
    }
  }

  lemma UnlinkedAt(ports: PortMap, s: Sides)
    requires Unlinked(ports, s)
    ensures forall d: Side :: s.At(d) in ports && ports[s.At(d)].link.None?
  {
    forall d: Side ensures s.At(d) in ports && ports[s.At(d)].link.None? {
      match d
      case Top =>
      case Right =>
      case Bottom =>
      case Left =>
    }
  }

  /** Where the placement frame leaves a port alone. */
  lemma PlaceFrame(g: Game, id: EntityId, c: Coord, h: Game)
    requires Valid(g) && id in g.objects
    requires PlaceObject(g, id, c) == Returned(h, ())
    ensures forall q :: q in g.ports && q !in Involved(g, g.objects[id].PortsOf(), c, Probes) ==> h.ports[q] == g.ports[q]
  {
    PlacedByProbes(g, id, c, h);
    ConnectAllFrame(g, g.objects[id].PortsOf(), c, Probes);
  }

  /** Disconnecting an object's ports undoes any linking that only joined
      its free ports to free partners and otherwise left the store alone. */
  lemma DisconnectRestores(before: PortMap, h: PortMap, s: Sides)
    requires Present(h, s) && LinksClosed(h) && Symmetric(h)
    requires OnlyLinksDiffer(before, h) && Unlinked(before, s)
    requires forall q :: q in before && q !in s.AsSet() && q !in Partners(h, s.InOrder()) ==> h[q] == before[q]
    requires forall q :: q in Partners(h, s.InOrder()) ==> before[q].link.None?
    ensures DisconnectAll(h, s.InOrder()) == before
  {
    var ids := s.InOrder();
    DisconnectAllSpec(h, ids);
    s.InOrderIsAsSet();
    LinksCleared(before, h, DisconnectAll(h, ids), s.AsSet(), Partners(h, ids));
  }

  /** A store whose links were cleared on `cleared` and kept elsewhere is
      `before` again when those links were absent in `before` and nothing
      else had changed. */
  lemma LinksCleared(before: PortMap, h: PortMap, r: PortMap, own: set<PortId>, partners: set<PortId>)
    requires OnlyLinksDiffer(before, h) && OnlyLinksDiffer(h, r)
    requires forall q :: q in h ==> r[q].link == (if q in own || q in partners then None else h[q].link)
    requires forall q :: q in own && q in before ==> before[q].link.None?
    requires forall q :: q in partners && q in before ==> before[q].link.None?
    requires forall q :: q in before && q !in own && q !in partners ==> h[q] == before[q]
    ensures r == before
  {
    forall q | q in before ensures r[q] == before[q] {
      if q in own || q in partners {
        assert r[q].link == before[q].link;
      } else {
        assert r[q].link == h[q].link;
      }
    }
  }

  /** What a successful placement of an object with ports `s` at `c` did to
      the port store: each occupied neighbour's facing port, free before, is
      linked both ways with the matching side; sides without a neighbour and
      every port the probes do not involve are unchanged. */
  ghost predicate LinkedIn(g: Game, s: Sides, c: Coord, h: PortMap)
    requires Valid(g)
  {
    && OnlyLinksDiffer(g.ports, h)
    && Present(g.ports, s)
    && (forall d: Side :: SideLinked(g, s, c, h, d))
    && (forall q :: q in g.ports && q !in Involved(g, s, c, Probes) ==> h[q] == g.ports[q])
  }

  /** One side after a placement: linked both ways with a neighbour's free
      facing port, or untouched when there is no neighbour. */
  ghost predicate SideLinked(g: Game, s: Sides, c: Coord, h: PortMap, d: Side)
    requires Valid(g) && Present(g.ports, s) && g.ports.Keys == h.Keys
  {
    && (Facing(g, c, d).Some? ==>
          && g.ports[Facing(g, c, d).value].link.None?
          && h[s.At(d)].link == Facing(g, c, d)
          && h[Facing(g, c, d).value].link == Some(s.At(d)))
    && (Facing(g, c, d).None? ==> h[s.At(d)] == g.ports[s.At(d)])
  }

  /** A successful placement does exactly what `LinkedIn` describes. */
  lemma PlaceLinksAll(g: Game, id: EntityId, c: Coord, h: Game)
    requires Valid(g) && id in g.objects && Separate(g, g.objects[id].PortsOf(), c)
    requires PlaceObject(g, id, c) == Returned(h, ())
    ensures LinkedIn(g, g.objects[id].PortsOf(), c, h.ports)
  {
    var s := g.objects[id].PortsOf();
    PlaceFrame(g, id, c, h);
    forall d: Side ensures SideLinked(g, s, c, h.ports, d) {
      PlaceLinks(g, id, c, h, d);
    }
  }

  /** The facts about a placement that the restoration needs. */
  lemma PlacePartners(g: Game, s: Sides, c: Coord, h: PortMap)
    requires Valid(g) && LinkedIn(g, s, c, h) && Unlinked(g.ports, s)
    ensures forall q :: q in Partners(h, s.InOrder()) ==> q in g.ports && g.ports[q].link.None?
    ensures forall q :: q in g.ports && q !in s.AsSet() && q !in Partners(h, s.InOrder()) ==> h[q] == g.ports[q]
  {
    UnlinkedAt(g.ports, s);
    PartnersWereFree(g, s, c, h);
    OthersUntouched(g, s, c, h);
  }

  lemma PartnersWereFree(g: Game, s: Sides, c: Coord, h: PortMap)
    requires Valid(g) && LinkedIn(g, s, c, h) && Unlinked(g.ports, s)
    requires forall d: Side :: g.ports[s.At(d)].link.None?
    ensures forall q :: q in Partners(h, s.InOrder()) ==> q in g.ports && g.ports[q].link.None?
  {
    var ids := s.InOrder();
    assert ids[0] == s.At(Top) && ids[1] == s.At(Right) && ids[2] == s.At(Bottom) && ids[3] == s.At(Left);
    forall q | q in Partners(h, ids) ensures q in g.ports && g.ports[q].link.None? {
      var i :| i in ids && i in h && h[i].link == Some(q);
      assert i == s.At(Top) || i == s.At(Right) || i == s.At(Bottom) || i == s.At(Left);
      var d: Side :| s.At(d) == i;
      assert SideLinked(g, s, c, h, d);
    }
  }

  lemma OthersUntouched(g: Game, s: Sides, c: Coord, h: PortMap)
    requires Valid(g) && LinkedIn(g, s, c, h)
    ensures forall q :: q in g.ports && q !in s.AsSet() && q !in Partners(h, s.InOrder()) ==> h[q] == g.ports[q]
  {
    var ids := s.InOrder();
    FacingArePartners(g, s, c, h);
    forall q | q in g.ports && q !in s.AsSet() && q !in Partners(h, ids) ensures h[q] == g.ports[q] {
      assert q !in Involved(g, s, c, Probes);
    }
  }

  /** Every port facing the placed object is, after the placement, the
      partner of one of its ports. */
  lemma FacingArePartners(g: Game, s: Sides, c: Coord, h: PortMap)
    requires Valid(g) && LinkedIn(g, s, c, h)
    ensures forall d: Side :: Facing(g, c, d).Some? ==> Facing(g, c, d).value in Partners(h, s.InOrder())
  {
    var ids := s.InOrder();
    assert ids[0] == s.At(Top) && ids[1] == s.At(Right) && ids[2] == s.At(Bottom) && ids[3] == s.At(Left);
    forall d: Side | Facing(g, c, d).Some? ensures Facing(g, c, d).value in Partners(h, ids) {
      assert SideLinked(g, s, c, h, d);
      var i := s.At(d);
      assert i in ids && i in h && h[i].link == Some(Facing(g, c, d).value);
    }
  }

  /** A successful removal disconnects exactly the object's four ports. */
  lemma RemovedPorts(g: Game, id: EntityId)
    requires Valid(g) && RemoveObject(g, Some(id)).Returned?
    ensures id in g.objects && Present(g.ports, g.objects[id].PortsOf())
    ensures RemoveObject(g, Some(id)).state.ports == DisconnectAll(g.ports, g.objects[id].PortsOf().InOrder())
  {
  }

  /** Placing an object that is on no cell and whose ports are free, then
      removing it, gives back exactly the board it was placed on: the cell
      is empty again and every link the placement made is undone. */
  lemma PlaceRemoveRoundTrip(g: Game, id: EntityId, c: Coord, h: Game)
    requires Valid(g) && id in g.objects && Separate(g, g.objects[id].PortsOf(), c)
    requires Symmetric(g.ports) && Unlinked(g.ports, g.objects[id].PortsOf())
    requires forall e :: InGrid(e) ==> g.grid[e] != Some(id)
    requires PlaceObject(g, id, c) == Returned(h, ())
    ensures Valid(h)
    ensures RemoveObject(h, Some(id)) == Returned(g, id)
  {
    var s := g.objects[id].PortsOf();
    PlaceStores(g, id, c);
    PlaceKeepsSymmetry(g, id, c);
    PlaceLinksAll(g, id, c, h);
    PlacePartners(g, s, c, h.ports);
    DisconnectRestores(g.ports, h.ports, s);
    RemoveOnlyCopy(g, id, c, h);
  }

  /** Removing an object that sits on one cell only, from a board whose
      ports disconnect back to `g`'s, gives back `g`. */
  lemma RemoveOnlyCopy(g: Game, id: EntityId, c: Coord, h: Game)
    requires Valid(g) && Valid(h) && id in g.objects && InGrid(c) && g.grid[c] == None
    requires forall e :: InGrid(e) ==> g.grid[e] != Some(id)
    requires h.grid == g.grid[c := Some(id)] && h.objects == g.objects
    requires DisconnectAll(h.ports, g.objects[id].PortsOf().InOrder()) == g.ports
    ensures RemoveObject(h, Some(id)) == Returned(g, id)
  {
    NoEarlierCopy(g.grid, id, c, h.grid);
    RemoveFirstCopy(g, id, c, h);
  }

  /** A grid holding `id` only at `c` holds it at no cell scanned before `c`. */
  lemma NoEarlierCopy(grid: map<Coord, Option<EntityId>>, id: EntityId, c: Coord, grid': map<Coord, Option<EntityId>>)
    requires forall e :: InGrid(e) ==> e in grid && grid[e] != Some(id)
    requires grid' == grid[c := Some(id)]
    ensures forall e :: InGrid(e) && ScannedBefore(e, c) ==> grid'[e] != Some(id)
  {
    forall e | InGrid(e) && ScannedBefore(e, c) ensures grid'[e] != Some(id) {
      assert e != c;
    }
  }

  /** The same, once the scan is known to meet `c` first. */
  lemma RemoveFirstCopy(g: Game, id: EntityId, c: Coord, h: Game)
    requires Valid(g) && Valid(h) && id in g.objects && InGrid(c) && g.grid[c] == None
    requires h.grid == g.grid[c := Some(id)] && h.objects == g.objects
    requires forall e :: InGrid(e) && ScannedBefore(e, c) ==> h.grid[e] != Some(id)
    requires DisconnectAll(h.ports, g.objects[id].PortsOf().InOrder()) == g.ports
    ensures RemoveObject(h, Some(id)) == Returned(g, id)
  {
    RemoveFirst(h, id, c);
    RemovedPorts(h, id);
    CellRestored(g.grid, c, id);
  }

  /** Emptying the cell again restores the grid. */
  lemma CellRestored(grid: map<Coord, Option<EntityId>>, c: Coord, id: EntityId)
    requires c in grid && grid[c] == None
    ensures grid[c := Some(id)][c := None] == grid
  {
  }

  // ---------------------------------------------------------------------
  // Properties: updating
  // ---------------------------------------------------------------------

  /** The `foreach` order lists every cell exactly once, column by column:
      the cell (x, y) is at position 5 * x + y. */
  lemma SweepOrderSpec()
    ensures forall i :: 0 <= i < |SweepOrder()| ==> InGrid(SweepOrder()[i])
    ensures forall c :: InGrid(c) ==> SweepOrder()[c.x * Height + c.y] == c
    ensures forall i :: 0 <= i < |SweepOrder()| ==> SweepOrder()[i].x * Height + SweepOrder()[i].y == i
    ensures forall i, j :: 0 <= i < j < |SweepOrder()| ==>
      SweepOrder()[i].x < SweepOrder()[j].x || (SweepOrder()[i].x == SweepOrder()[j].x && SweepOrder()[i].y < SweepOrder()[j].y)
  {
    forall c | InGrid(c) ensures SweepOrder()[c.x * Height + c.y] == c {
      DivModOf(c.x, c.y);
    }
    forall i, j | 0 <= i < j < |SweepOrder()|
      ensures SweepOrder()[i].x < SweepOrder()[j].x || (SweepOrder()[i].x == SweepOrder()[j].x && SweepOrder()[i].y < SweepOrder()[j].y)
    {
      DivModOrder(i, j);
    }
  }

  /** Occupants of a concatenation are the occupants of each part. */
  lemma {:induction false} OccupantsAppend(grid: map<Coord, Option<EntityId>>, a: seq<Coord>, b: seq<Coord>)
    requires forall i :: 0 <= i < |a| ==> a[i] in grid
    requires forall i :: 0 <= i < |b| ==> b[i] in grid
    ensures Occupants(grid, a + b) == Occupants(grid, a) + Occupants(grid, b)
    decreases |a|
  {
    if |a| > 0 {
      assert (a + b)[0] == a[0];
      assert (a + b)[1..] == a[1..] + b;
      OccupantsAppend(grid, a[1..], b);
    } else {
      assert a + b == b;
    }
  }

  /** Updating a concatenation of ids is updating each part in turn. */
  lemma {:induction false} UpdateAllAppend(g: Game, a: seq<EntityId>, b: seq<EntityId>)
    requires Valid(g)
    requires forall id :: id in a ==> id in g.objects
    requires forall id :: id in b ==> id in g.objects
    ensures UpdateAll(g, a + b) == UpdateAll(UpdateAll(g, a), b)
    decreases |a|
  {
    if |a| > 0 {
      var x, t := a[0], a[1..];
      assert a == [x] + t && a + b == [x] + (t + b);
      UpdateAllCons(g, [x] + (t + b));
      UpdateAllCons(g, [x] + t);
      UpdateAllAppend(UpdateObject(g, x), t, b);
    } else {
      assert a + b == b;
    }
  }

  /** The first id is updated first. */
  lemma UpdateAllCons(g: Game, ids: seq<EntityId>)
    requires Valid(g) && |ids| > 0 && forall id :: id in ids ==> id in g.objects
    ensures UpdateAll(g, ids) == UpdateAll(UpdateObject(g, ids[0]), ids[1..])
  {
  }

  /** `Sweep` updates the occupant of each occupied cell, once per cell and
      in the order of the cells, and skips the null cells. */
  lemma {:induction false} SweepIsUpdateAll(g: Game, cells: seq<Coord>)
    requires Valid(g) && forall i :: 0 <= i < |cells| ==> InGrid(cells[i])
    ensures forall id :: id in Occupants(g.grid, cells) ==> id in g.objects
    ensures Sweep(g, cells) == UpdateAll(g, Occupants(g.grid, cells))
    decreases |cells|
  {
    OccupantsMembers(g.grid, cells);
    if |cells| > 0 {
      var g1 := VisitCell(g, cells[0]);
      SweepIsUpdateAll(g1, cells[1..]);
      VisitCellIsUpdateAll(g, cells[0]);
      UpdateAllAppend(g, Occupant(g.grid, cells[0]), Occupants(g.grid, cells[1..]));
    }
  }

  /** Visiting a cell updates its occupant, if any. */
  lemma VisitCellIsUpdateAll(g: Game, c: Coord)
    requires Valid(g) && InGrid(c)
    ensures forall id :: id in Occupant(g.grid, c) ==> id in g.objects
    ensures VisitCell(g, c) == UpdateAll(g, Occupant(g.grid, c))
  {
    if g.grid[c].Some? {
      UpdateAllOne(g, g.grid[c].value);
    }
  }

  /** Every one of `cells` is a null cell. */
  ghost predicate AllNull(grid: map<Coord, Option<EntityId>>, cells: seq<Coord>)
  {
    forall i :: 0 <= i < |cells| ==> cells[i] in grid && grid[cells[i]] == None
  }

  /** A run of null cells has no occupants. */
  lemma {:induction false} NoOccupants(grid: map<Coord, Option<EntityId>>, cells: seq<Coord>)
    requires AllNull(grid, cells)
    ensures Occupants(grid, cells) == []
    decreases |cells|
  {
    if |cells| > 0 {
      NoOccupants(grid, cells[1..]);
    }
  }

  /** The occupants are exactly the objects found on the cells. */
  lemma {:induction false} OccupantsMembers(grid: map<Coord, Option<EntityId>>, cells: seq<Coord>)
    requires forall i :: 0 <= i < |cells| ==> cells[i] in grid
    ensures forall id :: id in Occupants(grid, cells) <==> exists i :: 0 <= i < |cells| && grid[cells[i]] == Some(id)
    decreases |cells|
  {
    if |cells| > 0 {
      OccupantsMembers(grid, cells[1..]);
      forall id ensures id in Occupants(grid, cells) <==> exists i :: 0 <= i < |cells| && grid[cells[i]] == Some(id) {
        if exists i :: 0 <= i < |cells| && grid[cells[i]] == Some(id) {
          var i :| 0 <= i < |cells| && grid[cells[i]] == Some(id);
          if i > 0 {
            assert grid[cells[1..][i - 1]] == Some(id);
          }
        }
        if id in Occupants(grid, cells[1..]) {
          var i :| 0 <= i < |cells| - 1 && grid[cells[1..][i]] == Some(id);
          assert grid[cells[i + 1]] == Some(id);
        }
      }
    }
  }

  /** Splitting the cells around position k. */
  lemma OccupantsAround(grid: map<Coord, Option<EntityId>>, cells: seq<Coord>, k: int)
    requires forall i :: 0 <= i < |cells| ==> cells[i] in grid
    requires 0 <= k < |cells|
    ensures Occupants(grid, cells) ==
      Occupants(grid, cells[..k]) + Occupant(grid, cells[k]) + Occupants(grid, cells[k + 1..])
  {
    assert cells == cells[..k] + [cells[k]] + cells[k + 1..];
    OccupantsAppend(grid, cells[..k] + [cells[k]], cells[k + 1..]);
    OccupantsAppend(grid, cells[..k], [cells[k]]);
    assert Occupants(grid, [cells[k]]) == Occupant(grid, cells[k]) + Occupants(grid, []);
  }

  /** A sweep over null cells changes nothing. */
  lemma SweepIdle(g: Game, cells: seq<Coord>)
    requires Valid(g) && forall i :: 0 <= i < |cells| ==> InGrid(cells[i])
    requires forall i :: 0 <= i < |cells| ==> g.grid[cells[i]] == None
    ensures Sweep(g, cells) == g
  {
    assert AllNull(g.grid, cells);
    SweepIsUpdateAll(g, cells);
    NoOccupants(g.grid, cells);
  }

  /** Of `cells`, only the k-th is occupied, and by `id`. */
  ghost predicate OnlyAt(grid: map<Coord, Option<EntityId>>, cells: seq<Coord>, k: int, id: EntityId)
  {
    && (forall i :: 0 <= i < |cells| ==> cells[i] in grid)
    && 0 <= k < |cells| && grid[cells[k]] == Some(id)
    && (forall i :: 0 <= i < |cells| && i != k ==> grid[cells[i]] == None)
  }

  /** Cells of which only the k-th is occupied have that one occupant. */
  lemma OccupantsOnlyAt(grid: map<Coord, Option<EntityId>>, cells: seq<Coord>, k: int, id: EntityId)
    requires OnlyAt(grid, cells, k, id)
    ensures Occupants(grid, cells) == [id]
  {
    var before, after := cells[..k], cells[k + 1..];
    OnlyAtParts(grid, cells, k, id);
    OccupantsAround(grid, cells, k);
    NoOccupants(grid, before);
    NoOccupants(grid, after);
    assert Occupant(grid, cells[k]) == [id];
    calc {
      Occupants(grid, cells);
      Occupants(grid, before) + Occupant(grid, cells[k]) + Occupants(grid, after);
      [] + [id] + [];
      [id];
    }
  }

  /** Around the only occupied cell, every cell is null. */
  lemma OnlyAtParts(grid: map<Coord, Option<EntityId>>, cells: seq<Coord>, k: int, id: EntityId)
    requires OnlyAt(grid, cells, k, id)
    ensures AllNull(grid, cells[..k]) && AllNull(grid, cells[k + 1..])
  {
    var before, after := cells[..k], cells[k + 1..];
    forall i | 0 <= i < |before| ensures before[i] in grid && grid[before[i]] == None {
      assert before[i] == cells[i];
    }
    forall i | 0 <= i < |after| ensures after[i] in grid && grid[after[i]] == None {
      assert after[i] == cells[k + 1 + i];
    }
  }

  /** Updating a one-element list is one `UpdateObject`. */
  lemma UpdateAllOne(g: Game, id: EntityId)
    requires Valid(g) && id in g.objects
    ensures UpdateAll(g, [id]) == UpdateObject(g, id)
  {
    assert [id][1..] == [];
  }

  /** A sweep whose only occupied cell is the k-th updates that object once. */
  lemma SweepOnlyAt(g: Game, cells: seq<Coord>, k: int, id: EntityId)
    requires Valid(g) && forall i :: 0 <= i < |cells| ==> InGrid(cells[i])
    requires OnlyAt(g.grid, cells, k, id)
    ensures id in g.objects && Sweep(g, cells) == UpdateObject(g, id)
  {
    SweepIsUpdateAll(g, cells);
    OccupantsOnlyAt(g.grid, cells, k, id);
    UpdateAllOne(g, id);
  }

  /** An empty board does not change on `Update`. */
  lemma UpdateEmptyBoard(g: Game)
    requires Valid(g) && forall c :: InGrid(c) ==> g.grid[c] == None
    ensures Update(g) == g
  {
    SweepOrderSpec();
    SweepIdle(g, SweepOrder());
  }

  /** With a single occupied cell, `Update` updates its object once. */
  lemma UpdateSingle(g: Game, id: EntityId, c: Coord)
    requires Valid(g) && InGrid(c) && g.grid[c] == Some(id)
    requires forall e :: InGrid(e) && e != c ==> g.grid[e] == None
    ensures Update(g) == UpdateObject(g, id)
  {
    SingleCellInSweep(g.grid, id, c);
    SweepOnlyAt(g, SweepOrder(), c.x * Height + c.y, id);
  }

  /** A single occupied cell is one position of the sweep. */
  lemma SingleCellInSweep(grid: map<Coord, Option<EntityId>>, id: EntityId, c: Coord)
    requires forall e :: e in grid <==> InGrid(e)
    requires InGrid(c) && grid[c] == Some(id)
    requires forall e :: InGrid(e) && e != c ==> grid[e] == None
    ensures OnlyAt(grid, SweepOrder(), c.x * Height + c.y, id)
  {
    var cells := SweepOrder();
    var k := c.x * Height + c.y;
    SweepPosition(k);
    DivModOf(c.x, c.y);
    forall i | 0 <= i < |cells| && i != k ensures grid[cells[i]] == None {
      SweepPosition(i);
    }
  }

  /** The cell at position i of the sweep, whose position is i again. */
  lemma SweepPosition(i: int)
    requires 0 <= i < Width * Height
    ensures SweepOrder()[i] == Coord(i / Height, i % Height)
    ensures SweepOrder()[i].x * Height + SweepOrder()[i].y == i
  {
  }

  /** Of `cells`, exactly the j-th and the k-th hold `id`. */
  ghost predicate TwiceAt(grid: map<Coord, Option<EntityId>>, cells: seq<Coord>, j: int, k: int, id: EntityId)
  {
    && (forall i :: 0 <= i < |cells| ==> cells[i] in grid)
    && 0 <= j < k < |cells| && grid[cells[j]] == Some(id) && grid[cells[k]] == Some(id)
    && (forall i :: 0 <= i < |cells| && i != j && i != k ==> grid[cells[i]] == None)
  }

  /** Two cells holding the same object list it twice. */
  lemma OccupantsTwiceAt(grid: map<Coord, Option<EntityId>>, cells: seq<Coord>, j: int, k: int, id: EntityId)
    requires TwiceAt(grid, cells, j, k, id)
    ensures Occupants(grid, cells) == [id, id]
  {
    var before, after := cells[..k], cells[k + 1..];
    TwiceAtParts(grid, cells, j, k, id);
    OccupantsAround(grid, cells, k);
    OccupantsOnlyAt(grid, before, j, id);
    NoOccupants(grid, after);
    assert Occupant(grid, cells[k]) == [id];
    calc {
      Occupants(grid, cells);
      Occupants(grid, before) + Occupant(grid, cells[k]) + Occupants(grid, after);
      [id] + [id] + [];
      [id, id];
    }
  }

  /** Before the second cell only the first holds the object; after it,
      every cell is null. */
  lemma TwiceAtParts(grid: map<Coord, Option<EntityId>>, cells: seq<Coord>, j: int, k: int, id: EntityId)
    requires TwiceAt(grid, cells, j, k, id)
    ensures OnlyAt(grid, cells[..k], j, id)
    ensures AllNull(grid, cells[k + 1..])
  {
    var before, after := cells[..k], cells[k + 1..];
    forall i | 0 <= i < |before| ensures before[i] == cells[i] {
    }
    forall i | 0 <= i < |after| ensures after[i] in grid && grid[after[i]] == None {
      assert after[i] == cells[k + 1 + i];
    }
  }

  /** A sweep over two cells holding the same object updates it twice. */
  lemma SweepTwiceAt(g: Game, cells: seq<Coord>, j: int, k: int, id: EntityId)
    requires Valid(g) && forall i :: 0 <= i < |cells| ==> InGrid(cells[i])
    requires TwiceAt(g.grid, cells, j, k, id)
    ensures id in g.objects && Sweep(g, cells) == UpdateObject(UpdateObject(g, id), id)
  {
    SweepIsUpdateAll(g, cells);
    OccupantsTwiceAt(g.grid, cells, j, k, id);
    UpdateAllTwo(g, id);
  }

  /** Updating `[id, id]` is two `UpdateObject` calls. */
  lemma UpdateAllTwo(g: Game, id: EntityId)
    requires Valid(g) && id in g.objects
    ensures UpdateAll(g, [id, id]) == UpdateObject(UpdateObject(g, id), id)
  {
    assert [id, id] == [id] + [id];
    UpdateAllAppend(g, [id], [id]);
    UpdateAllOne(g, id);
    UpdateAllOne(UpdateObject(g, id), id);
  }

  /** An object placed on two cells (placement does not check that it is
      already on the board) is updated twice per `Update`. */
  lemma UpdateTwice(g: Game, id: EntityId, a: Coord, b: Coord)
    requires Valid(g) && InGrid(a) && InGrid(b) && a != b
    requires g.grid[a] == Some(id) && g.grid[b] == Some(id)
    requires forall e :: InGrid(e) && e != a && e != b ==> g.grid[e] == None
    ensures Update(g) == UpdateObject(UpdateObject(g, id), id)
  {
    var pa := a.x * Height + a.y;
    var pb := b.x * Height + b.y;
    if pa < pb {
      TwoCellsInSweep(g.grid, id, a, b);
      SweepTwiceAt(g, SweepOrder(), pa, pb, id);
    } else {
      TwoCellsInSweep(g.grid, id, b, a);
      SweepTwiceAt(g, SweepOrder(), pb, pa, id);
    }
  }

  /** Two occupied cells are two positions of the sweep. */
  lemma TwoCellsInSweep(grid: map<Coord, Option<EntityId>>, id: EntityId, a: Coord, b: Coord)
    requires forall e :: e in grid <==> InGrid(e)
    requires InGrid(a) && InGrid(b) && a.x * Height + a.y < b.x * Height + b.y
    requires grid[a] == Some(id) && grid[b] == Some(id)
    requires forall e :: InGrid(e) && e != a && e != b ==> grid[e] == None
    ensures TwiceAt(grid, SweepOrder(), a.x * Height + a.y, b.x * Height + b.y, id)
  {
    var cells := SweepOrder();
    SweepPosition(a.x * Height + a.y);
    SweepPosition(b.x * Height + b.y);
    DivModOf(a.x, a.y);
    DivModOf(b.x, b.y);
    forall i | 0 <= i < |cells| && i != a.x * Height + a.y && i != b.x * Height + b.y
      ensures grid[cells[i]] == None
    {
      SweepPosition(i);
    }
  }
}
