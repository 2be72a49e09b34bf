# Sim_LAN in Dafny

A model of a small teaching simulator of local area networks, with proofs about it. Hosts
with MAC addresses exchange packets in three settings:

- over a shared **bus**, where every connected host except the sender is offered each packet
  (`ee315_24_lib.py` with the hosts of `skeleton_bus.py`; `task_1_2/skeleton_bus.py` holds
  the same host class);
- through a **learning switch** on a **switch fabric** (`skeleton_switch.py` on
  `ee315_24_lib.py`; `task_1_2/skeleton_switch.py` holds the same Host and Switch classes).
  The switch learns a source's interface by searching its own interface table, forwards to a
  learned interface, and otherwise floods to every bound interface but the source's;
- through a **VLAN switch with a router** (`task3/src/Sim_LAN1225.py` with the bus, packet and
  fabric of `task3/src/lib_final.py`). The switch learns a source's ingress interface and
  VLAN on first sight. It delivers within a VLAN, hands traffic for another VLAN to a router
  that routes on the destination IP, and floods the broadcast address
  `FF:FF:FF:FF:FF:FF` within the packet's VLAN, one rewritten copy per recipient.

Every host validates its MAC address against `^([0-9A-Fa-f]{2}:){5}[0-9A-Fa-f]{2}$`, which
is written out here character by character (`mac_address.dfy`). Python's `$` also matches
before a final newline, so one trailing `"\n"` is accepted, and the model accepts it too.

## How the model is built

Each of the three networks is one Dafny class (`BusLan.BusNetwork`,
`LearningSwitch.SwitchedLan`, `VlanSwitch.VlanLan`, plus `VlanBus.VlanBusNetwork` for the
bus of `lib_final.py`). The fields of each class are the attributes the Python objects
update in place:

- the hosts' attributes and receive buffers;
- the switch's interface table and learning tables;
- the fabric's `interfaces` and `physical_map`;
- the router's tables;
- the bus's host list.

A Python host object is named by a `HostId`, a key into the host tables. The same host bound
at two interfaces, or connected twice to a bus, is therefore one id occurring twice, as in
Python, and it receives one copy per occurrence. The key order of each dict that the code
iterates over is kept as a sequence beside the map (`portOrder`, `physOrder`). A new key goes
last; an existing key keeps its place.

Each class has a `State()` function mapping its fields to a value of a `Net` datatype. Each
method that changes state is proved against a pure function on `Net`, with a postcondition of
the form `State() == F(old(State()))`, and keeps the class invariant `Valid()`. The pure
functions are where the properties are proved, as lemmas about them. The loops of the source
are kept as loops:

- the bus broadcast;
- the interface search of `get_interface_by_mac`;
- the physical-map search of `forward_to_switch`;
- the two flood loops;
- the removal loop of `update_mac_table`.

Each loop except the last is proved against a fold over the key order, or against the first
match in it. The removal loop of `update_mac_table` is proved instead against a shrinking set
of keys still to visit, in unspecified order (`VlanSwitch.PurgeStep`), because its result does
not depend on the order.

Files:

- `wrappers.dfy`: Option/Result and sequence helpers.
- `mac_address.dfy`: the MAC check.
- `lan_lib.dfy`: the packet records, the physical-map lookup, dict key order.
- `bus_lan.dfy`: bus and bus hosts.
- `learning_switch.dfy`: the switch without VLANs.
- `vlan_host.dfy`: the VLAN host.
- `vlan_bus.dfy`: the bus of `lib_final.py`.
- `vlan_switch.dfy`: the VLAN switch, router and fabrics.

Some definitions appear twice on purpose, once per library. `VlanBus.BroadcastTo` and
`VlanBus.BroadcastInbox` repeat the fold of `BusLan`, and `VlanSwitch.Forward` repeats
`LearningSwitch.Forward`. Each copy works on its own library's packet record, host record and
receive filter, so each module follows one source file.

The two copies of the bus host (`skeleton_bus.py`, `task_1_2/skeleton_bus.py` lines 4-33)
are one model, and so are the two copies of the switch (`skeleton_switch.py`,
`task_1_2/skeleton_switch.py` lines 4-71). The second switch builds its interface dict with
a `for` loop (`task_1_2/skeleton_switch.py:38-39`) instead of a comprehension, with the same
result. The rows below cite the first copy.

## Model

| member | source | states |
|---|---|---|
| `MacAddress.RenderedIsValid` | skeleton_bus.py:12-13 | six groups of two hex digits joined by colons always pass the address check |
| `MacAddress.ValidMac` | skeleton_bus.py:12-13 | a string is accepted exactly when it is the colon-joined rendering of six two-hex-digit groups, bare or followed by one newline |
| `MacAddress.ValidIsRendered` | skeleton_bus.py:12-13 | every string passing the check without a newline is exactly such a rendering, each group two hex digits |
| `MacAddress.OctetsOfRender` | skeleton_bus.py:12-13 | reading the six groups back from a rendering gives the groups (round trip with `ValidIsRendered`) |
| `MacAddress.BroadcastIsValid` | task3/src/Sim_LAN1225.py:27 | the broadcast sentinel `FF:FF:FF:FF:FF:FF` is itself a valid host address |
| `MacAddress.CheckExamples` | skeleton_switch.py:13-14 | one trailing newline is accepted (Python's `$`), lower-case digits are accepted, a short group or `-` separators are refused |
| `LanLib.PacketDefaults` | task3/src/lib_final.py:25-41 | documents the constructor's default: a packet built without a VLAN is in VLAN 1, other fields as given |
| `LanLib.FirstKeyOf` | ee315_24_lib.py:141-144 | the result is the first key in dict order whose MAC matches, and is None exactly when no key matches |
| `LanLib.FindFirstKey` | ee315_24_lib.py:141-144 | the search loop returns exactly that first matching key |
| `LanLib.SourceInterface` | ee315_24_lib.py:138-148 | `forward_to_switch` returns either the default 0 or an interface mapped to the source MAC, the latter only when the destination MAC is mapped; 0 whenever the destination is not mapped |
| `LanLib.SourceInterfaceCases` | ee315_24_lib.py:138-148 | `forward_to_switch` gives 0 when the destination is not a mapped MAC or the source is not mapped; when both are mapped it gives the first interface mapped to the source |
| `LanLib.ListsKeysAfterSet` | ee315_24_lib.py:102-104 | after `d[i] = v` the key order still lists every key exactly once |
| `LanLib.RangeListsKeys` | skeleton_switch.py:48 | `{i: None for i in range(n)}` has keys 0..n-1 in order, each once |
| `BusLan.NewHost` | skeleton_bus.py:12-15 | construction succeeds exactly when the address passes the check and keeps it unchanged; otherwise the ValueError |
| `BusLan.Receive` | skeleton_bus.py:37-39 | the buffer gains the packet at its end exactly when the destination equals the host's MAC; no other buffer changes |
| `BusLan.Accepts` | skeleton_bus.py:37 | a frame addressed to another MAC is refused; a bus host has no broadcast address, so `FF:FF:FF:FF:FF:FF` reaches only a host whose own MAC it is |
| `BusLan.Connect` | ee315_24_lib.py:34 | the host is appended; earlier entries and their order are untouched |
| `BusLan.BroadcastTo` | ee315_24_lib.py:45-47 | the loop over any prefix of the host list changes only buffers: MACs and the host list stay |
| `BusLan.BusBroadcast` | ee315_24_lib.py:38-47 | only buffers change; each host gains one copy per list entry for it when its MAC is not the source's and is the destination, and nothing otherwise |
| `BusLan.BroadcastInbox` | ee315_24_lib.py:45-47 | after a broadcast a host's buffer is its old buffer plus one copy per list entry for it, when its MAC differs from the source and equals the destination, else unchanged |
| `BusLan.Send` | skeleton_bus.py:26-28 | the sender's buffer never changes, nor does that of any host sharing its MAC or whose MAC is not the destination; MACs and the host list stay |
| `BusLan.SendDelivers` | skeleton_bus.py:26-28 | sending never changes the sender's buffer (nor that of any host sharing its MAC); another host whose MAC is the destination gains one copy per bus entry for it, so none if it is not connected; every other host gains nothing |
| `BusLan.ThreeHosts` | skeleton_bus.py:43-55 | three connected hosts with distinct MACs: a send from the first to the second's MAC leaves exactly one copy with the second and nothing with the other two |
| `BusLan.ThreeHostExample` | skeleton_bus.py:43-55 | in the three-host example only host 2 receives host 1's packet, exactly once |
| `BusLan.BusNetwork.constructor` | ee315_24_lib.py:5-7 | a new bus has no hosts |
| `BusLan.BusNetwork.NewBusHost` | skeleton_bus.py:5-15 | a new host id with the MAC and an empty buffer, or the ValueError and no change |
| `BusLan.BusNetwork.ConnectHost` | ee315_24_lib.py:28-35 | the state becomes `Connect` of the old state |
| `BusLan.BusNetwork.ReceivePacket` | skeleton_bus.py:30-39 | the state becomes `Receive` of the old state |
| `BusLan.BusNetwork.Broadcast` | ee315_24_lib.py:38-47 | the loop over the host list leaves exactly the fold `BusBroadcast` |
| `BusLan.BusNetwork.SendPacket` | skeleton_bus.py:17-28 | one packet from the host's MAC goes to the broadcast |
| `LearningSwitch.Initial` | skeleton_switch.py:47-49 | a new switch has interfaces 0..n-1, all unbound, and an empty MAC table |
| `LearningSwitch.NewHost` | skeleton_switch.py:13-17 | construction succeeds exactly for a valid MAC and keeps MAC and interface unchanged |
| `LearningSwitch.Receive` | skeleton_switch.py:36-37 | the buffer gains the packet exactly when the destination equals the host's MAC; other buffers and all tables are unchanged |
| `LearningSwitch.Forward` | ee315_24_lib.py:114-118 | only buffers change, and nothing at all for an interface the fabric does not bind |
| `LearningSwitch.PortOf` | skeleton_switch.py:80-83 | the first interface in dict order bound to a host with that MAC; None exactly when there is none |
| `LearningSwitch.Learn` | skeleton_switch.py:59-60 | only the MAC table changes; it gains at most the source, existing entries are kept, and a new source is learned as `PortOf` its MAC |
| `LearningSwitch.Handle` | skeleton_switch.py:52-70 | interface bindings never change; the MAC table gains at most the source, existing entries are kept, and a new source is learned as `PortOf` its MAC |
| `LearningSwitch.Connect` | ee315_24_lib.py:102-104 | the host is bound at its interface in the switch's interfaces, the fabric's interfaces and `physical_map`, and nothing else changes |
| `LearningSwitch.Send` | skeleton_switch.py:27-28 | the bindings stay; afterwards the sender's MAC is in the MAC table, learned as `PortOf` it when it was new |
| `LearningSwitch.FloodTargetsExact` | skeleton_switch.py:68-70 | the flood list holds exactly the bound interfaces whose host's interface differs from the source's bound interface, each once |
| `LearningSwitch.FloodTargets` | skeleton_switch.py:68-70 | every flood target is a bound interface of the order that passes the filter, and there are no more targets than interfaces |
| `LearningSwitch.ForwardAll` | skeleton_switch.py:68-70 | forwarding to each interface of a list in turn changes buffers only |
| `LearningSwitch.ForwardAllInbox` | ee315_24_lib.py:114-118 | forwarding to a list of interfaces leaves a host its old buffer plus one copy per listed interface bound to it, if addressed to it |
| `LearningSwitch.CountTo` | skeleton_switch.py:68-70 | a host gets copies exactly when some listed interface is bound to it |
| `LearningSwitch.HandleKnown` | skeleton_switch.py:63-65 | a destination learned with an interface is delivered only there, and only to the host bound there |
| `LearningSwitch.HandleFloodIs` | skeleton_switch.py:59-70 | with the destination unknown, handling is learning followed by the flood loop over the original interfaces |
| `LearningSwitch.FloodNeverReaches` | skeleton_switch.py:69 | a host whose own interface is the source's bound interface is never flooded |
| `LearningSwitch.HandleFlood` | skeleton_switch.py:66-70 | an unknown destination reaches exactly the filtered interfaces, each once; each host gains one copy per such interface bound to it, and the sender's interface gets nothing |
| `LearningSwitch.SwitchedLan.constructor` | skeleton_switch.py:40-50 | the state is `Initial(num_interfaces)`, with 8 interfaces by default |
| `LearningSwitch.SwitchedLan.NewSwitchHost` | skeleton_switch.py:5-17 | a new host id with MAC, interface and an empty buffer, or the ValueError and no change |
| `LearningSwitch.SwitchedLan.ConnectHostToSwitch` | ee315_24_lib.py:95-104 | the state becomes `Connect` of the old state |
| `LearningSwitch.SwitchedLan.ReceivePacket` | skeleton_switch.py:30-37 | the state becomes `Receive` of the old state |
| `LearningSwitch.SwitchedLan.ForwardToInterface` | ee315_24_lib.py:107-118 | the state becomes `Forward` of the old state |
| `LearningSwitch.SwitchedLan.GetInterfaceByMac` | skeleton_switch.py:72-83 | the search loop returns `PortOf` the MAC and changes nothing |
| `LearningSwitch.SwitchedLan.ForwardToSwitch` | ee315_24_lib.py:121-148 | returns the packet unchanged and the interface `forward_to_switch` computes, changing nothing |
| `LearningSwitch.SwitchedLan.FloodFrame` | skeleton_switch.py:66-70 | the flood loop leaves exactly the fold over the flood list |
| `LearningSwitch.SwitchedLan.HandlePacket` | skeleton_switch.py:52-70 | the state becomes `Handle` of the old state |
| `LearningSwitch.SwitchedLan.SendPacket` | skeleton_switch.py:19-28 | a packet from the host's MAC is handled by the switch |
| `VlanHost.NewHost` | task3/src/Sim_LAN1225.py:6-13 | construction succeeds exactly for a valid MAC and keeps MAC, interface, VLAN and IP unchanged |
| `VlanHost.NewHostDefaults` | task3/src/Sim_LAN1225.py:6 | documents the constructor's defaults: VLAN 1 and address 0.0.0.0 |
| `VlanHost.Deliver` | task3/src/Sim_LAN1225.py:26-28 | the buffer keeps its contents and gains exactly the packet at its end iff the filter admits it |
| `VlanHost.Accepts` | task3/src/Sim_LAN1225.py:27 | another VLAN is always refused; the sentinel is admitted by every host of the packet's VLAN; otherwise only an exact MAC match |
| `VlanBus.Receive` | task3/src/Sim_LAN1225.py:26-28 | only the receiving host's buffer changes, by the filter |
| `VlanBus.Connect` | task3/src/lib_final.py:15 | the host is appended; earlier entries are untouched |
| `VlanBus.BroadcastTo` | task3/src/lib_final.py:20-22 | the loop over any prefix of the host list changes only buffers: hosts and the host list stay |
| `VlanBus.BusBroadcast` | task3/src/lib_final.py:18-22 | only buffers change; each host gains one copy per list entry for it when its MAC is not the source's and its VLAN filter admits the packet, and nothing otherwise |
| `VlanBus.BroadcastInbox` | task3/src/lib_final.py:20-22 | a host's buffer gains one copy per list entry for it when its MAC differs from the source and its VLAN filter admits the packet |
| `VlanBus.VlanBusNetwork.constructor` | task3/src/lib_final.py:3-4 | a new bus has no hosts |
| `VlanBus.VlanBusNetwork.NewBusHost` | task3/src/Sim_LAN1225.py:6-13 | a new host id with the four attributes and an empty buffer, or the ValueError and no change |
| `VlanBus.VlanBusNetwork.ConnectHost` | task3/src/lib_final.py:14-16 | the state becomes `Connect` of the old state |
| `VlanBus.VlanBusNetwork.ReceivePacket` | task3/src/Sim_LAN1225.py:26-28 | the state becomes `Receive` of the old state |
| `VlanBus.VlanBusNetwork.Broadcast` | task3/src/lib_final.py:18-22 | the loop leaves exactly the fold over the host list |
| `VlanSwitch.Initial` | task3/src/Sim_LAN1225.py:77-83 | interfaces 0..n-1 all unbound; empty MAC, VLAN, router-interface and route tables |
| `VlanSwitch.Receive` | task3/src/Sim_LAN1225.py:26-28 | only the host's buffer changes, by the VLAN filter |
| `VlanSwitch.Forward` | task3/src/Sim_LAN1225.py:68-74 | only buffers change, and nothing for an unbound interface |
| `VlanSwitch.RoutePacket` | task3/src/Sim_LAN1225.py:41-51 | routing changes buffers only |
| `VlanSwitch.Learn` | task3/src/Sim_LAN1225.py:87-89 | learning keeps the MAC and VLAN tables' keys equal |
| `VlanSwitch.FloodCopy` | task3/src/Sim_LAN1225.py:132-139 | the copy is addressed to the recipient's MAC and IP and keeps source, source IP, payload and VLAN |
| `VlanSwitch.Flood` | task3/src/Sim_LAN1225.py:129-142 | flooding changes buffers only |
| `VlanSwitch.FloodCount` | task3/src/Sim_LAN1225.py:130-131 | a host is reached exactly when it is in the VLAN and bound at some interface other than the ingress |
| `VlanSwitch.FloodCountCard` | task3/src/Sim_LAN1225.py:129-131 | over an order listing each interface once, the count is the number of its interfaces, other than the ingress, bound to the host while the host is in the VLAN |
| `VlanSwitch.FloodCountOfInterfaces` | task3/src/Sim_LAN1225.py:129-131 | a flood over the switch's interfaces gives a host one copy for each interface of the switch, other than the ingress, bound to it, if it is in the VLAN |
| `VlanSwitch.Handle` | task3/src/Sim_LAN1225.py:85-112 | bindings and router are unchanged; the tables gain at most the source, existing entries keep interface and VLAN, a new source gets the ingress and the packet's VLAN |
| `VlanSwitch.Send` | task3/src/Sim_LAN1225.py:15-24 | bindings and router stay; afterwards the sender's MAC is in the tables, learned at the sender's own interface and VLAN when it was new |
| `VlanSwitch.UpdateMacTable` | task3/src/Sim_LAN1225.py:117-126 | only the two learning tables change, and they keep equal keys |
| `VlanSwitch.KeptEntries` | task3/src/Sim_LAN1225.py:119-121 | the entries the removal loop keeps: none maps to the host's interface, every entry on another interface is kept with its value, nothing is added |
| `VlanSwitch.PurgeStep` | task3/src/Sim_LAN1225.py:119-122 | one iteration of the removal loop deletes the visited MAC exactly when it maps to the host's interface and leaves every other entry as it was |
| `VlanSwitch.PurgeBounds` | task3/src/Sim_LAN1225.py:119-122 | the loop starts, with every key still to visit, from the whole table, and ends, with none left, at exactly the entries on other interfaces |
| `VlanSwitch.ConnectFixed` | task3/src/Sim_LAN1225.py:145-149 | the host is bound at its interface in the switch and the fabric, and its MAC is recorded with that interface and its VLAN |
| `VlanSwitch.ConnectPlain` | task3/src/lib_final.py:61-64 | the host is bound at its interface in the switch, the fabric and `physical_map`; the learning tables are untouched |
| `VlanSwitch.AddInterface` | task3/src/Sim_LAN1225.py:35-36 | only the router's interface table changes, at that VLAN |
| `VlanSwitch.AddRoute` | task3/src/Sim_LAN1225.py:38-39 | only the route table changes; a later route for a destination replaces the earlier one |
| `VlanSwitch.UpdateMacTableSpec` | task3/src/Sim_LAN1225.py:117-126 | afterwards the host's MAC maps to its interface and VLAN, no other MAC maps to that interface, entries on other interfaces are kept, nothing else is added |
| `VlanSwitch.UpdateMacTableKeepsStaleEntry` | task3/src/Sim_LAN1225.py:119-121 | a host moved from interface 0 to 2 under a new MAC evicts the MAC learned on 2, while its old MAC still resolves to 0 |
| `VlanSwitch.ForwardInbox` | task3/src/Sim_LAN1225.py:68-71 | forwarding reaches only the host bound at the interface, through its filter |
| `VlanSwitch.FloodInbox` | task3/src/Sim_LAN1225.py:129-142 | a flood leaves a host its old buffer plus one copy addressed to it per flooded interface bound to it; every such copy passes its filter |
| `VlanSwitch.HandleSameVlan` | task3/src/Sim_LAN1225.py:93-101 | a known destination in the packet's VLAN is delivered only at its learned interface; the router is not involved |
| `VlanSwitch.HandleOtherVlan` | task3/src/Sim_LAN1225.py:102-105 | a known destination in another VLAN is not forwarded by the switch; only a host named by a route for the destination IP gains the packet, retagged with its VLAN |
| `VlanSwitch.HandleNoRoute` | task3/src/Sim_LAN1225.py:43-51 | with no route, or a next-hop-only route, nothing is delivered |
| `VlanSwitch.HandleBroadcast` | task3/src/Sim_LAN1225.py:106-110 | an unlearned broadcast reaches exactly the hosts of its VLAN bound away from the ingress, one rewritten copy per such interface |
| `VlanSwitch.HandleUnknownUnicast` | task3/src/Sim_LAN1225.py:111-112 | an unknown non-broadcast destination is dropped: only learning happens |
| `VlanSwitch.SendBroadcastSparesSender` | task3/src/Sim_LAN1225.py:15-24 | a host bound only at its own interface does not receive its own broadcast, provided the sentinel has not been learned and is not the host's own MAC |
| `VlanSwitch.VlanLan.constructor` | task3/src/Sim_LAN1225.py:77-83 | the state is `Initial(num_interfaces)`, with 8 interfaces by default |
| `VlanSwitch.VlanLan.NewVlanHost` | task3/src/Sim_LAN1225.py:6-13 | a new host id with its four attributes and an empty buffer, or the ValueError and no change |
| `VlanSwitch.VlanLan.ReceivePacket` | task3/src/Sim_LAN1225.py:26-28 | the state becomes `Receive` of the old state |
| `VlanSwitch.VlanLan.ForwardToInterface` | task3/src/Sim_LAN1225.py:68-74 | the state becomes `Forward` of the old state |
| `VlanSwitch.VlanLan.RoutePacketMethod` | task3/src/Sim_LAN1225.py:41-51 | the state becomes `RoutePacket` of the old state |
| `VlanSwitch.VlanLan.AddRouterInterface` | task3/src/Sim_LAN1225.py:35-36 | the state becomes `AddInterface` of the old state |
| `VlanSwitch.VlanLan.AddRouterRoute` | task3/src/Sim_LAN1225.py:38-39 | the state becomes `AddRoute` of the old state; next hop and interface default to None |
| `VlanSwitch.VlanLan.GetInterfaceByMac` | task3/src/Sim_LAN1225.py:114-115 | the learned interface of the MAC, None exactly when the MAC is not in mac_table (never learned, or removed by `update_mac_table`) |
| `VlanSwitch.VlanLan.FloodPacket` | task3/src/Sim_LAN1225.py:129-142 | the loop over the interfaces leaves exactly `Flood` of the old state |
| `VlanSwitch.VlanLan.HandlePacket` | task3/src/Sim_LAN1225.py:85-112 | the state becomes `Handle` of the old state |
| `VlanSwitch.VlanLan.SendPacket` | task3/src/Sim_LAN1225.py:15-24 | a packet with the host's MAC, IP and VLAN is handled at the host's interface |
| `VlanSwitch.VlanLan.UpdateMacTableMethod` | task3/src/Sim_LAN1225.py:117-126 | the removal loop and the insertion leave exactly `UpdateMacTable` of the old state |
| `VlanSwitch.VlanLan.ConnectHostFixed` | task3/src/Sim_LAN1225.py:145-149 | the state becomes `ConnectFixed` of the old state |
| `VlanSwitch.VlanLan.ConnectHostToSwitch` | task3/src/lib_final.py:61-64 | the state becomes `ConnectPlain` of the old state |
| `VlanSwitch.VlanLan.ForwardToSwitch` | task3/src/lib_final.py:73-88 | returns the packet unchanged and the interface `forward_to_switch` computes, changing nothing |

## Left out

- Logging: `log_event`, `log_packet`, and the log files the bus and fabric constructors
  create. These are file writes with no effect on delivery.
- Console output: the `print` calls of the router and the switch.
- Unused fields: the `Queue` and `vlan_map` fields of the fabrics are never read.
- Packet rendering: the `__str__` methods of the packets.
- Driver scripts: the module-level example code and `__main__` blocks. The three-host bus
  example is stated as `BusLan.ThreeHostExample`.
- Stubs: `EE315-24-Proj-main/skeleton_switch.py` and
  `EE315-24-Task-description/skeleton_bus.py` hold only `pass` bodies and a copy of the MAC
  check.
- The test driver `task3/src/test1225.py` is not modelled as code. Its expectations appear
  as lemmas: `HandleSameVlan`, `HandleOtherVlan`, `HandleBroadcast`,
  `SendBroadcastSparesSender` and `UpdateMacTableKeepsStaleEntry`.
- Opaque values: IP addresses, payloads and MAC strings are compared only for equality. The
  regular-expression engine is replaced by the hand-written check of `mac_address.dfy`.
- Object identity:
  - A host object is a `HostId`; a router entry holding a host object or None is an
    `Option<HostId>`.
  - Reassigning `switch.router` to another `Router` object is not modelled; the switch's
    router tables are fields of the network.
  - A fabric shared between several switches is not modelled: each network has one switch
    and one fabric.
- Direct attribute assignment: a driver may assign a host's attributes (`host.mac = ...`)
  after construction. The model does not do this. `VlanSwitch.UpdateMacTable` takes the
  host's current attributes as a value, and the class method reads them from the host
  table.
- `VlanSwitch.RoutePacket`: the router sets `vlan_id` on the caller's packet object. That
  object is the one appended to the buffer. The model delivers a retagged copy, so the
  change is not visible through other references to the same object. The VLAN argument
  `route_packet` receives is unused in the source and is only passed through by
  `RoutePacketMethod`.
- `forward_to_switch` also computes a destination interface. That value only feeds the log
  message, so only the returned source interface is modelled.
- `LearningSwitch.SwitchedLan.FloodFrame`: the source calls `get_interface_by_mac(src)`
  afresh for every interface of the flood loop. The model looks it up once before the loop.
  This gives the same value, because nothing in the loop changes the interface table.
- `VlanSwitch.VlanLan.UpdateMacTableMethod`: the removal loop runs over local copies of the
  two tables that are stored back before the insertion. Python deletes from the attributes
  directly, with the same final tables. The loop visits the keys in an unspecified order, as
  the result does not depend on the order.
