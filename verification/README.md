# ResourceWorld core in Dafny

ResourceWorld is a small tick-based resource game. Energy moves in packets
between the four ports (Top, Right, Bottom, Left) of the objects on a 5 x 5
board. The objects are:

- a solar panel, which produces cargo and emits packets through its Output ports;
- a cable, which relays one packet at a time;
- a cargo tank, which swallows packets.

`Game` places objects on the board, links the ports that face each other,
removes objects again and updates every occupied cell once per tick. Objects
carry upgrade slots, searched by two linear scans.

This project models that core as pure functions over one immutable world
state:

- a port store `PortMap` (port id to mode, link, one-slot buffer and receive mode);
- the objects' own state, keyed by an entity id;
- the grid, one `Option<EntityId>` per cell.

One object's `Update` writes into another object's port. That is why the ports
live in a single shared store rather than inside the objects.

A C# exception does not undo the mutations made before it. An operation that
can throw therefore returns `Outcome.Thrown(fault, state)`, which carries the
state as it stood at the throw.

The model follows the code as written, including its surprises:

- A cable replaces its packet unconditionally.
- A cable loses its packet when a send fails.
- A solar panel deducts cargo before sending.
- Both cargo setters compare old plus new against the maximum.
- `Combine(null)` gives an empty packet.
- `ConnectToPort` ignores the partner's existing link.
- The bounds check lets the column x = 5 and the row y = 5 through.
- `InstallUpgrade` always answers true.

Each of these is proved as a property of the model.

Files, one module each:

| file | module | covers |
|---|---|---|
| `wrappers.dfy` | `Wrappers` | `Option`, `Result`, `Outcome`, the exception kinds |
| `packet.dfy` | `Packets` | `Packet` |
| `port.dfy` | `Ports` | `Port`, `EnergyPort` |
| `connectable.dfy` | `Connectables` | power state, sides, port order |
| `cable.dfy` | `Cables` | `Cable` |
| `cable_scenarios.dfy` | `CableScenarios` | the four cable test scenarios |
| `solar_panel.dfy` | `SolarPanels` | `SolarPanel` |
| `cargo_tank.dfy` | `CargoTanks` | `CargoTank` |
| `game.dfy` | `Games` | `Game` |
| `extensions.dfy` | `SlotSearch` | the slot searches of `Extensions` |
| `upgrade_container.dfy` | `Upgrades` | `UpgradeContainer` |

Where the code and its tests disagree, the model follows the code. Two cable
tests (CableTest.cs:38-56 and CableTest.cs:89-117) assert outcomes that
`Cable.Update` does not produce. `CableScenarios.ReceiveFullScenario` and
`CableScenarios.NoSendScenario` prove what the code does instead.

## Model

| member | source | states |
|---|---|---|
| Packets.NewPacket | ResourceWorld/Energy/Packet.cs:22-28 | fails with ArgumentOutOfRange exactly when the cargo is negative; otherwise the packet carries exactly the given cargo |
| Packets.Combine | ResourceWorld/Energy/Packet.cs:36-39 | never fails; with a packet the cargo is the sum of both cargos; with null it is 0, because `??` applies to the whole lifted sum |
| Packets.CombineWithNullDropsCargo | ResourceWorld/Energy/Packet.cs:38 | combining a packet with non-zero cargo with null does not give that packet back |
| Packets.CombineCommutes | ResourceWorld/Energy/Packet.cs:36-39 | combining two packets gives the same packet whichever one is the receiver |
| Ports.NewEnergyPort | ResourceWorld/Connection/EnergyPort.cs:42-45 | a new port is Closed, unlinked, with an empty buffer, and denies overwrites |
| Ports.Receive | ResourceWorld/Connection/EnergyPort.cs:56-64 | accepts exactly when the port is Input, the data is a packet and the buffer is empty or may be overwritten; an accepted packet is stored, otherwise the buffer stays; mode, link and receive mode never change |
| Ports.Collect | ResourceWorld/Connection/EnergyPort.cs:71-76 | hands out what the buffer held and leaves it empty; mode, link and receive mode are kept |
| Ports.SetMode | ResourceWorld/Connection/Port.cs:51 | only the given port's mode changes, to the new mode; its link, buffer and receive mode and every other port are kept |
| Ports.Connect | ResourceWorld/Connection/Port.cs:106-113 | throws InvalidOperation exactly when the port is already linked, changing nothing; otherwise the two ports name each other and no other port changes; only links ever change |
| Ports.ConnectKeepsLinksClosed | ResourceWorld/Connection/Port.cs:106-113 | after connecting two ports of the store, every link still names a port of the store |
| Ports.ConnectPreservesSymmetry | ResourceWorld/Connection/Port.cs:106-113 | when the argument port is free, connecting keeps every link answered by a link back |
| Ports.ConnectLeavesDanglingLink | ResourceWorld/Connection/Port.cs:106-113 | when the argument port was linked to a third port, the connect succeeds, the third port still points at it, and the store is no longer symmetric |
| Ports.Disconnect | ResourceWorld/Connection/Port.cs:118-125 | the port and its former partner end unlinked; every other port is unchanged; only links change |
| Ports.DisconnectPreservesSymmetry | ResourceWorld/Connection/Port.cs:118-125 | disconnecting keeps every link answered |
| Ports.DisconnectIdempotent | ResourceWorld/Connection/Port.cs:120 | disconnecting twice equals disconnecting once |
| Ports.ConnectDisconnectRoundTrip | ResourceWorld/Connection/Port.cs:106-125 | connecting two distinct free ports and disconnecting one of them restores the store exactly |
| Ports.ReceiveSpec | ResourceWorld/Connection/EnergyPort.cs:56-65 | accepts exactly on an Input port, for a packet, with an empty buffer or Overwrite; then the buffer holds the packet; otherwise nothing changes; only the buffer can change |
| Ports.ReceiveCollectRoundTrip | ResourceWorld/Connection/EnergyPort.cs:56-76 | a received packet is what the next collect returns, and a second collect returns nothing |
| Ports.DenyKeepsOldPacket | ResourceWorld/Connection/EnergyPort.cs:58-60 | under Deny, a full port rejects new data and keeps its packet |
| Ports.Send | ResourceWorld/Connection/EnergyPort.cs:86-92 | a send never adds or drops a port of the store |
| Ports.SendSpec | ResourceWorld/Connection/EnergyPort.cs:86-92 | succeeds exactly when the sender is Output, the data is a packet, and the partner exists, is Input and accepts; then only the partner's buffer changes, to the packet; otherwise nothing changes |
| Ports.SendFrame | ResourceWorld/Connection/EnergyPort.cs:86-92 | the sender is never altered, and the only buffer written is that of an Input partner of an Output sender |
| Ports.SendIsPartnerReceive | ResourceWorld/Connection/EnergyPort.cs:86-92 | from an Output port to an Input partner, a send is exactly the partner's Receive |
| Cables.NewCable | ResourceWorld/Energy/Cables/Cable.cs:72-82 | a new cable is On and holds no packet |
| Cables.Update | ResourceWorld/Energy/Cables/Cable.cs:90-111 | Off leaves everything unchanged; modes and links never change; the sides and power state stay |
| Cables.Walk | ResourceWorld/Energy/Cables/Cable.cs:95-110 | the loop over the ports never adds or drops a port of the store; what it writes is stated by WalkTouchesOnly and the step lemmas |
| Cables.WalkTouchesOnly | ResourceWorld/Energy/Cables/Cable.cs:95-110 | the loop over any list of ports writes only the buffers of those Input ports and of the Input partners of those Output ports, and changes no mode or link |
| Cables.RelayWalk | ResourceWorld/Energy/Cables/Cable.cs:95-110 | with a filled Top Input, a Right Output and the rest Closed, the loop takes the Top packet, sends it through Right and ends holding nothing, whatever it held before |
| Cables.UpdateTouchesOnly | ResourceWorld/Energy/Cables/Cable.cs:95-110 | the only buffers written are those of the cable's own Input ports and of the partners of its Output ports |
| Cables.InputReplaces | ResourceWorld/Energy/Cables/Cable.cs:97-100 | a filled Input port is emptied and its packet replaces whatever the cable held |
| Cables.OutputAlwaysDrops | ResourceWorld/Energy/Cables/Cable.cs:102-108 | at an Output port a held packet is sent once and then dropped; a failed send changes no port |
| Cables.LastInputWins | ResourceWorld/Energy/Cables/Cable.cs:95-100 | without Output ports, the cable ends with the packet of the last filled Input port in port order |
| Cables.InputsDrained | ResourceWorld/Energy/Cables/Cable.cs:95-101 | without Output ports, every walked Input port ends empty |
| Cables.NothingFilledKeeps | ResourceWorld/Energy/Cables/Cable.cs:95-101 | with no Output port and no filled Input port, the held packet stays |
| Cables.RelayTopToRight | ResourceWorld/Energy/Cables/Cable.cs:95-110 | with a filled Top Input, a Right Output and the rest Closed, the packet goes out through Right and the cable ends empty, whatever the partner answered |
| Cables.TakeFromTop | ResourceWorld/Energy/Cables/Cable.cs:95-101 | with a filled Top Input and the rest Closed, the cable takes that packet and the port is emptied |
| Cables.TakeFromLeft | ResourceWorld/Energy/Cables/Cable.cs:95-101 | with a filled Left Input and the rest Closed, the cable takes that packet and the port is emptied |
| CableScenarios.ReceiveScenario | ResourceWorldTest/Connection/CableTest.cs:18-32 | a packet received at the top port is held by the cable after one update, and the port is empty |
| CableScenarios.ReceiveFullScenario | ResourceWorldTest/Connection/CableTest.cs:38-56 | a second packet arriving while the cable holds the first replaces it, contrary to the scenario's assertion |
| CableScenarios.SendScenario | ResourceWorldTest/Connection/CableTest.cs:62-83 | the packet taken from the top port arrives in the empty Input left port of the second cable; when that cable updates, it holds the packet and both its left port and the first cable's top port are empty |
| CableScenarios.NoSendScenario | ResourceWorldTest/Connection/CableTest.cs:89-117 | when the partner denies the send, the cable loses its packet, contrary to the scenario's assertion, and the partner keeps its own |
| SolarPanels.NewSolarPanel | ResourceWorld/Energy/Solar/SolarPanel.cs:102-112 | a new panel is On and empty |
| SolarPanels.SetCargo | ResourceWorld/Energy/Solar/SolarPanel.cs:31-47 | stores 1000 exactly when old plus new exceeds 1000, and the new value otherwise; from non-negative inputs the result stays in [0, 1000] |
| SolarPanels.TryMakePacket | ResourceWorld/Energy/Solar/SolarPanel.cs:137-148 | makes a packet of the requested size exactly when the cargo suffices, and deducts it through the setter; otherwise the cargo is unchanged |
| SolarPanels.Update | ResourceWorld/Energy/Solar/SolarPanel.cs:120-135 | Off leaves everything unchanged; the cargo bound [0, 1000] is preserved |
| SolarPanels.Walk | ResourceWorld/Energy/Solar/SolarPanel.cs:127-134 | the port loop keeps the set of ports and keeps the cargo within [0, 1000] |
| SolarPanels.WalkTouchesOnly | ResourceWorld/Energy/Solar/SolarPanel.cs:127-134 | the port loop writes only the buffers of Input partners of the listed Output ports, and changes no mode or link |
| SolarPanels.NoOutputWalk | ResourceWorld/Energy/Solar/SolarPanel.cs:127-134 | over ports none of which is Output, the loop changes neither the cargo nor any port |
| SolarPanels.Ticks | ResourceWorld/Energy/Solar/SolarPanel.cs:120-135 | repeated updates keep the panel's sides, the set of ports and every link pointing into the store |
| SolarPanels.SetPower | ResourceWorld/Energy/Solar/SolarPanel.cs:22 | the power state is set and nothing else of the panel changes |
| SolarPanels.UpdateTouchesOnly | ResourceWorld/Energy/Solar/SolarPanel.cs:127-134 | modes and links never change; only the buffers of Input partners of the panel's Output ports are written |
| SolarPanels.EmitsAtOutput | ResourceWorld/Energy/Solar/SolarPanel.cs:129-132 | at an Output port with enough cargo a 0.003 packet is sent, and the cargo is deducted whatever the send answers |
| SolarPanels.StarvedAtOutput | ResourceWorld/Energy/Solar/SolarPanel.cs:139-147 | with less than 0.003, nothing is made or sent and the cargo is unchanged |
| SolarPanels.FullStaysFullWalk | ResourceWorld/Energy/Solar/SolarPanel.cs:36-37 | a full panel stays full through the port loop, because each deduction is clamped back to 1000 |
| SolarPanels.HalfFullSnapsToMax | ResourceWorld/Energy/Solar/SolarPanel.cs:36-37 | a panel holding 500 or more is full after an update, so 1000 is a fixed point |
| SolarPanels.ProductionIsExact | ResourceWorld/Energy/Solar/SolarPanel.cs:125 | without Output ports, n ticks from empty give exactly n * 0.003, for n up to 166667, and no port changes |
| SolarPanels.ProductionIsExactFrom | ResourceWorld/Energy/Solar/SolarPanel.cs:125 | from k ticks' worth of cargo, n more ticks without Output ports give exactly (n + k) * 0.003, while n + k stays within 166667, and no port changes |
| SolarPanels.TenTicks | ResourceWorldTest/Energy/SolarPanelTest.cs:17-31 | ten ticks give exactly 0.03 |
| CargoTanks.NewCargoTank | ResourceWorld/Energy/Storage/CargoTank.cs:80-87 | a new tank is On (the enum default) and empty |
| CargoTanks.SetCargo | ResourceWorld/Energy/Storage/CargoTank.cs:15-32 | stores 10000 exactly when old plus new reaches 10000, and the new value otherwise; from non-negative inputs the result stays in [0, 10000] |
| CargoTanks.Update | ResourceWorld/Energy/Storage/CargoTank.cs:95-112 | Off leaves everything unchanged; the cargo bound [0, 10000] is preserved |
| CargoTanks.Walk | ResourceWorld/Energy/Storage/CargoTank.cs:100-111 | the port loop keeps the set of ports and keeps the cargo within [0, 10000] |
| CargoTanks.SetPower | ResourceWorld/Energy/Storage/CargoTank.cs:42 | the power state is set and nothing else of the tank changes |
| CargoTanks.Amount | ResourceWorld/Energy/Storage/CargoTank.cs:105 | a collected packet contributes exactly its cargo and nothing contributes 0 |
| CargoTanks.WalkPorts | ResourceWorld/Energy/Storage/CargoTank.cs:100-111 | the loop empties exactly the listed Input ports and leaves every other port as it was |
| CargoTanks.UpdatePorts | ResourceWorld/Energy/Storage/CargoTank.cs:100-111 | every Input port of the tank ends empty, and every other port, the tank's own Output and Closed ports included, is unchanged |
| CargoTanks.UpdateTouchesOnly | ResourceWorld/Energy/Storage/CargoTank.cs:95-112 | on or off, no mode or link changes, and only the tank's own Input buffers are written |
| CargoTanks.WalkConserves | ResourceWorld/Energy/Storage/CargoTank.cs:100-106 | below the clamping threshold, the cargo grows by exactly the cargo waiting at the Input ports |
| CargoTanks.FullStaysFull | ResourceWorld/Energy/Storage/CargoTank.cs:20-21 | a full tank stays full through the loop, whatever its ports hold |
| CargoTanks.HalfFullSnapsWalk | ResourceWorld/Energy/Storage/CargoTank.cs:20-21 | a tank at 5000 or more is full after a loop that meets at least one Input port |
| CargoTanks.HalfFullSnaps | ResourceWorld/Energy/Storage/CargoTank.cs:20-21 | a tank at 5000 or more with an Input port is full after an update, even when every port is empty |
| CargoTanks.NoInputsInert | ResourceWorld/Energy/Storage/CargoTank.cs:107-110 | without Input ports, the walk changes neither the cargo nor any port |
| Games.NewGame | ResourceWorld/Game.cs:56-59 | the board has exactly the 25 cells, all empty |
| Games.Spawn | ResourceWorld/Energy/Cables/Cable.cs:72-82 | a new object adds four new default ports and changes no cell |
| Connectables.AddPorts | ResourceWorld/Connection/EnergyPort.cs:42-45 | the four new ports enter the store as fresh Closed, unlinked, empty ports and no existing port changes |
| Games.BoundsCheckOffByOne | ResourceWorld/Game.cs:186-189 | the bounds check passes every cell of the array, and beyond the array exactly the column x = 5 and the row y = 5 |
| Games.IsCoordinateOutOfBounds | ResourceWorld/Game.cs:186-189 | never rejects a cell of the array; beyond the array it passes exactly the column x = 5 and the row y = 5 |
| Games.ObjectAtSpec | ResourceWorld/Game.cs:197-200 | answers exactly for the 25 cells; ArgumentOutOfRange where the bounds check rejects; IndexOutOfRange on the x = 5 and y = 5 edges |
| Games.ObjectAt | ResourceWorld/Game.cs:197-200 | every answer is the content of a cell of the board |
| Games.ConnectObjectSpec | ResourceWorld/Game.cs:157-177 | a probe the bounds check rejects or onto an empty cell does nothing; the x = 5 and y = 5 edges throw IndexOutOfRange; an occupied neighbour is linked when its facing port is free and throws InvalidOperation, changing nothing, when it is not; only the new object's port on that side and the facing port can change |
| Games.ConnectObject | ResourceWorld/Game.cs:157-177 | returned or thrown, the board and the objects are unchanged and ports differ only in their links |
| Games.ConnectAll | ResourceWorld/Game.cs:86-96 | the probes in order, stopping at the first throw, change only links |
| Games.ConnectAllAlone | ResourceWorld/Game.cs:86-96 | when no probe leaves the array without being caught by the bounds check and no probed cell is occupied, the probes change nothing |
| Games.ConnectAllKeepsSymmetry | ResourceWorld/Game.cs:86-96 | probes from an object whose probed ports are free, into a symmetric store, keep every link answered, whether they return or throw |
| Games.ConnectAllLinks | ResourceWorld/Game.cs:86-96 | after all probes return, each occupied neighbour's facing port, free before, is linked both ways with the matching side; a side without a neighbour is untouched |
| Games.ConnectAllFrame | ResourceWorld/Game.cs:86-96 | the probes change no port other than the new object's and the facing ports |
| Games.PlaceRejects | ResourceWorld/Game.cs:81-82 | an occupied cell throws "Spot not empty"; a cell off the array throws what ObjectAt throws; nothing changes |
| Games.PlaceObject | ResourceWorld/Game.cs:79-101 | returned or thrown, the board stays well formed, the objects are unchanged and ports differ only in their links; a throw leaves every cell as it was, because the cell is written only after all probes return |
| Games.PlaceStores | ResourceWorld/Game.cs:79-101 | a successful placement was onto an empty cell and writes exactly that cell |
| Games.PlaceNeverOnFarEdge | ResourceWorld/Game.cs:90-93 | no placement in column 4 or row 4 succeeds |
| Games.PlaceInLastColumnLeavesLink | ResourceWorld/Game.cs:87-90 | in column 4 below an occupied cell, the Top link is made, then IndexOutOfRange is thrown; the cell stays empty but the link stays |
| Games.PlaceAlone | ResourceWorld/Game.cs:79-101 | with no occupied neighbour and away from the far edges, placement writes only the cell |
| Games.PlaceLinks | ResourceWorld/Game.cs:86-96 | after a successful placement, each occupied neighbour is linked both ways through its formerly free facing port; a side without a neighbour is untouched |
| Games.PlacePartners | ResourceWorld/Game.cs:86-96 | after a placement that links the object in, the partners of its ports were free before, and no port other than its own and those partners changed |
| Games.PlaceKeepsSymmetry | ResourceWorld/Game.cs:79-101 | placing an object whose ports are free keeps every link answered, whether it succeeds or throws |
| Games.ScanOrderSpec | ResourceWorld/Game.cs:123-127 | the removal scan visits every cell once, rows outer and columns inner |
| Games.FindCell | ResourceWorld/Game.cs:123-143 | finds the first cell in the given order that holds the object, or reports that no cell does |
| Games.RemoveRejects | ResourceWorld/Game.cs:120-145 | null throws ArgumentNull; an object on no cell throws Argument; nothing changes |
| Games.RemoveFirst | ResourceWorld/Game.cs:123-140 | the first cell in scan order holding the object is cleared, only that one, and the object is returned |
| Games.RemoveAtRejects | ResourceWorld/Game.cs:108-111 | an empty cell hands null on, which throws ArgumentNull; a cell off the array throws what ObjectAt throws |
| Games.RemoveObject | ResourceWorld/Game.cs:118-146 | returned or thrown, only links change; a returned object is the argument, and all its ports end unlinked |
| Games.RemoveObjectAt | ResourceWorld/Game.cs:108-111 | returned or thrown, the objects are unchanged and ports differ only in their links |
| Games.DisconnectAllSpec | ResourceWorld/Game.cs:133-136 | disconnecting the four ports unlinks exactly them and their partners, and keeps every link answered |
| Games.DisconnectAll | ResourceWorld/Game.cs:130-137 | every listed port ends unlinked; any other link is kept or cleared, never redirected, and still names a port of the store |
| Games.DisconnectAllUnlinks | ResourceWorld/Game.cs:130-137 | all four ports of an object end unlinked |
| Games.PlaceRemoveRoundTrip | ResourceWorld/Game.cs:79-146 | placing an object whose ports are free and that is on no cell, then removing it, gives back the board it was placed on |
| Games.SweepOrderSpec | ResourceWorld/Game.cs:68 | the update sweep visits every cell once, x outer and y inner |
| Games.Update | ResourceWorld/Game.cs:66-70 | a tick keeps the grid and the objects; ports differ only in their buffers |
| Games.UpdateObject | ResourceWorld/Game.cs:69 | one object's update keeps the grid; ports differ only in their buffers |
| Games.Sweep | ResourceWorld/Game.cs:68-69 | a sweep over any cells keeps the grid; ports differ only in their buffers |
| Games.UpdateAll | ResourceWorld/Game.cs:68-69 | updating a list of objects keeps the grid; ports differ only in their buffers |
| Games.SweepIsUpdateAll | ResourceWorld/Game.cs:68-69 | a sweep updates the occupant of each occupied cell once per cell, in cell order, and skips empty cells |
| Games.UpdateAllAppend | ResourceWorld/Game.cs:68-69 | updating a concatenation of objects is updating each part in turn |
| Games.OccupantsAppend | ResourceWorld/Game.cs:68-69 | the occupants of two runs of cells are the occupants of the first run followed by those of the second |
| Games.OccupantsMembers | ResourceWorld/Game.cs:68-69 | the objects a sweep updates are exactly those on the swept cells |
| Games.UpdateEmptyBoard | ResourceWorld/Game.cs:66-70 | an empty board does not change |
| Games.UpdateSingle | ResourceWorld/Game.cs:66-70 | with one occupied cell, Update is one update of its object |
| Games.UpdateTwice | ResourceWorld/Game.cs:66-70 | an object on two cells is updated twice per tick |
| SlotSearch.IndexOf | ResourceWorld/Extensions.cs:40-53 | is -1 exactly when the value is absent; otherwise it is the lowest index holding it |
| SlotSearch.TryGetFirstFreeUpgradeSlotID | ResourceWorld/Extensions.cs:17-30 | answers true exactly when a slot is empty, with the lowest such index; otherwise false with -1 |
| SlotSearch.TryGetSlotIDOfUpgrade | ResourceWorld/Extensions.cs:40-53 | answers true exactly when a slot holds the upgrade, with the lowest such index; otherwise false with -1 |
| SlotSearch.NullSearchIsFreeSearch | ResourceWorld/Upgrades/UpgradeContainer.cs:95-131 | searching for null finds nothing exactly when every slot is filled |
| Upgrades.NewUpgradeContainer | ResourceWorld/Upgrades/UpgradeContainer.cs:37-41 | a null owner throws ArgumentNull; a negative count throws Overflow; otherwise there are exactly that many empty slots |
| Upgrades.InstallUpgrade | ResourceWorld/Upgrades/UpgradeContainer.cs:50-59 | always answers true; a compatible upgrade goes into the lowest free slot and nothing else changes; otherwise the slots are unchanged |
| Upgrades.RemoveUpgrade | ResourceWorld/Upgrades/UpgradeContainer.cs:66-75 | answers true exactly when a slot holds the upgrade, and empties the lowest such slot; otherwise nothing changes |
| Upgrades.ContainsUpdateOfType | ResourceWorld/Upgrades/UpgradeContainer.cs:83-86 | true exactly when some slot holds an upgrade of that kind |
| Upgrades.InstallRemoveRoundTrip | ResourceWorld/Upgrades/UpgradeContainer.cs:50-75 | installing a new upgrade into a free slot and removing it restores the container, and the removal answers true |
| Upgrades.InstallThenContains | ResourceWorld/Upgrades/UpgradeContainer.cs:50-86 | after installing into a free slot, the upgrade's kind is reported |
| Upgrades.InstallTwiceDuplicates | ResourceWorld/Upgrades/UpgradeContainer.cs:50-59 | with two free slots, installing the same upgrade twice fills two slots |
| Upgrades.RemoveNullMatchesFreeSlot | ResourceWorld/Upgrades/UpgradeContainer.cs:66-75 | removing null answers true exactly when a slot is empty, and changes nothing |
| Upgrades.InstallRejectedStillTrue | ResourceWorld/Upgrades/UpgradeContainer.cs:52-58 | an incompatible upgrade, or a full container, leaves the slots unchanged and still answers true |

## Left out

- The WPF user interface (ResourceWorldUI) and object names. They are display only.
- Floating point: cargo is a mathematical `real`. Rounding of the `double` sums is not modelled.
- `System.Windows.Point` has `double` coordinates, and the code casts them to `int`. The model uses integer coordinates, so the fractional cases are not modelled.
- Object references are modelled as ids, and a port's partner as a port id. Null references to objects are modelled where the code checks for them: `RemoveObject(null)` and a null owner.
- Every concrete resource object is connectable. The branches of `PlaceObject` and `RemoveObject` for non-connectable objects are left out, because no such object exists in the code.
- A port buffer holds only packets. `EnergyPort.Receive` is its only writer and admits nothing else, so the `(Packet)` casts in `Cable.Update` and `CargoTank.Update` cannot fail.
- `OverwriteMode` is declared but never used.
- `IUpgradeable.IsUpgradeCompatible` is the owning object's code and is not part of this model. `Upgrades.InstallUpgrade` takes its answer as a parameter.
- `IUpgrade.IsUnique` and `CombinePacketUpgrade` are never consulted by any update, so no upgrade changes behaviour.
- `Upgrades.NewUpgradeContainer`: slot counts are unbounded integers. The 32-bit `int` parameter and running out of memory on a huge array are not modelled.
- `Packets.Combine` returns a new value. Reference identity of the fresh packet is not modelled.
- The `Off` branch of `Cable.Update` is modelled, but no public setter can reach it.
- `SolarPanels.ProductionIsExact` is stated up to 166667 ticks. Beyond that, the old-plus-new comparison clamps to the maximum.
- `CargoTanks.WalkConserves` holds only while twice the final cargo stays below the maximum. Above that, the setter's old-plus-new comparison clamps.
