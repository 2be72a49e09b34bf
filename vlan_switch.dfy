/**
 * The VLAN learning switch and its router (task3/src/Sim_LAN1225.py) on a switch fabric
 * that is either the FixedSwitchFabric of that file or the SwitchFabric of
 * task3/src/lib_final.py. Both deliver alike. FixedSwitchFabric extends the SwitchFabric
 * that Sim_LAN1225.py redefines, which has neither physical_map nor forward_to_switch; so
 * those two, and the connect that writes physical_map, belong to lib_final.py's fabric only.
 *
 * Host objects are named by HostId. Their attributes and buffers, Switch.interfaces (with
 * its key order), Switch.mac_table and Switch.vlan_table, the fabric's interfaces and
 * physical_map (with its key order), and the router's two tables are the fields of one
 * VlanLan object.
 */
module VlanSwitch {
  import opened Wrappers
  import opened Seqs
  import opened MacAddress
  import opened LanLib
  import opened VlanHost

  /** A route_table entry: the next hop, and the host the router delivers to (None: not set). */
  datatype Route = Route(nextHop: Option<string>, out: Option<HostId>)

  datatype Net = Net(
    hosts: map<HostId, HostInfo>,
    buffers: map<HostId, seq<Packet>>,
    ports: map<int, Option<HostId>>,         // Switch.interfaces (None: unbound)
    portOrder: seq<int>,                     // its key order
    fabric: map<int, HostId>,                // SwitchFabric.interfaces
    physicalMap: map<int, string>,           // SwitchFabric.physical_map (lib_final only)
    physOrder: seq<int>,                     // its key order
    macTable: map<string, int>,              // Switch.mac_table
    vlanTable: map<string, int>,             // Switch.vlan_table
    routerIfaces: map<int, Option<HostId>>,  // Router.interfaces, keyed by VLAN
    routes: map<string, Route>)              // Router.route_table, keyed by destination IP

  /**
   * The shape every reachable state has: buffers for exactly the hosts, every host the
   * tables name exists, the fabric binds exactly what the switch binds, the key orders
   * list the keys once, and mac_table and vlan_table have the same keys.
   */
  predicate WellFormed(n: Net) {
    && n.hosts.Keys == n.buffers.Keys
    && (forall i :: i in n.ports && n.ports[i].Some? ==> n.ports[i].value in n.hosts)
    && (forall i :: i in n.fabric ==> i in n.ports && n.ports[i] == Some(n.fabric[i]))
    && (forall i :: i in n.ports && n.ports[i].Some? ==> i in n.fabric)
    && ListsKeys(n.ports, n.portOrder)
    && ListsKeys(n.physicalMap, n.physOrder)
    && n.macTable.Keys == n.vlanTable.Keys
    && (forall v :: v in n.routerIfaces && n.routerIfaces[v].Some? ==> n.routerIfaces[v].value in n.hosts)
    && (forall d :: d in n.routes && n.routes[d].out.Some? ==> n.routes[d].out.value in n.hosts)
  }

  /** Everything but the host buffers is the same. */
  predicate OnlyBuffersChange(n: Net, n': Net) {
    n' == n.(buffers := n'.buffers) && n'.buffers.Keys == n.buffers.Keys
  }

  /** A fabric, then Switch(fabric, num_interfaces) with its own new Router. */
  function Initial(numInterfaces: int): (n: Net)
    ensures WellFormed(n)
    ensures forall i :: i in n.ports <==> 0 <= i < numInterfaces
    ensures forall i :: i in n.ports ==> n.ports[i] == None
    ensures n.macTable == map[] && n.vlanTable == map[] && n.fabric == map[] && n.hosts == map[]
    ensures n.routerIfaces == map[] && n.routes == map[]
  {
    RangeListsKeys<HostId>(numInterfaces);
    Net(map[], map[], NoneFor(Range(0, numInterfaces)), Range(0, numInterfaces),
        map[], map[], [], map[], map[], map[], map[])
  }

  /** Host.receive_packet. */
  function Receive(n: Net, h: HostId, p: Packet): (n': Net)
    requires WellFormed(n) && h in n.hosts
    ensures WellFormed(n') && OnlyBuffersChange(n, n')
    ensures n'.buffers == n.buffers[h := Deliver(n.buffers[h], n.hosts[h], p)]
  {
    n.(buffers := n.buffers[h := Deliver(n.buffers[h], n.hosts[h], p)])
  }

  /** SwitchFabric.forward_to_interface: deliver to the bound host; an unknown interface only logs. */
  function Forward(n: Net, i: int, p: Packet): (n': Net)
    requires WellFormed(n)
    ensures WellFormed(n') && OnlyBuffersChange(n, n')
    ensures i !in n.fabric ==> n' == n
  {
    if i in n.fabric then Receive(n, n.fabric[i], p) else n
  }

  /**
   * Router.route_packet: a destination IP with a route whose interface is set is delivered
   * to that host, retagged with the host's VLAN; an unknown destination or a next-hop-only
   * route delivers nothing.
   */
  function RoutePacket(n: Net, p: Packet): (n': Net)
    requires WellFormed(n)
    ensures WellFormed(n') && OnlyBuffersChange(n, n')
  {
    if p.dstIp in n.routes && n.routes[p.dstIp].out.Some? then
      var h := n.routes[p.dstIp].out.value;
      Receive(n, h, p.(vlan := n.hosts[h].vlan))
    else n
  }

  /** The learning step: an unknown source is recorded with the ingress interface and the packet's VLAN. */
  function Learn(n: Net, p: Packet, ingress: int): (n': Net)
    requires WellFormed(n)
    ensures WellFormed(n')
  {
    if p.src in n.macTable then n
    else n.(macTable := n.macTable[p.src := ingress], vlanTable := n.vlanTable[p.src := p.vlan])
  }

  /** The flood filter: a bound interface whose host is in VLAN `vlan`, other than the ingress. */
  predicate Flooded(n: Net, i: int, vlan: int, ingress: int)
    requires WellFormed(n) && i in n.ports
  {
    n.ports[i].Some? && n.hosts[n.ports[i].value].vlan == vlan && i != ingress
  }

  /** The copy flood_packet makes for one recipient: its MAC and IP as destination, the rest kept. */
  function FloodCopy(p: Packet, h: HostInfo): (q: Packet)
    ensures q.dst == h.mac && q.dstIp == h.ip
    ensures q.src == p.src && q.srcIp == p.srcIp && q.payload == p.payload && q.vlan == p.vlan
  {
    Packet(p.src, h.mac, p.srcIp, h.ip, p.payload, p.vlan)
  }

  /** Switch.flood_packet over the interfaces in `order`, one forward_to_interface per flooded interface. */
  function Flood(n: Net, order: seq<int>, p: Packet, ingress: int): (n': Net)
    requires WellFormed(n)
    requires forall j :: 0 <= j < |order| ==> order[j] in n.ports
    ensures WellFormed(n') && OnlyBuffersChange(n, n')
    decreases |order|
  {
    if order == [] then n
    else
      var rest := Flood(n, order[..|order| - 1], p, ingress);
      var i := order[|order| - 1];
      if Flooded(n, i, p.vlan, ingress) then Forward(rest, i, FloodCopy(p, n.hosts[n.ports[i].value]))
      else rest
  }

  /** How many interfaces of `order` the flood reaches that are bound to host `h`. */
  function FloodCount(n: Net, order: seq<int>, vlan: int, ingress: int, h: HostId): (c: nat)
    requires WellFormed(n)
    requires forall j :: 0 <= j < |order| ==> order[j] in n.ports
    ensures c <= |order|
    ensures c > 0 <==> exists j :: 0 <= j < |order| && order[j] != ingress && n.ports[order[j]] == Some(h) &&
                                   n.hosts[h].vlan == vlan
    decreases |order|
  {
    if order == [] then 0
    else
      var init := order[..|order| - 1];
      var i := order[|order| - 1];
      var c := FloodCount(n, init, vlan, ingress, h);
      assert forall j :: 0 <= j < |order| - 1 ==> init[j] == order[j];
      c + (if Flooded(n, i, vlan, ingress) && n.ports[i] == Some(h) then 1 else 0)
  }

  /**
   * Switch.handle_packet: learn the source on first sight; a known destination in the same
   * VLAN goes to its learned interface, one in another VLAN to the router; an unknown
   * broadcast is flooded in the packet's VLAN; an unknown unicast is dropped. Only the two
   * learning tables and the buffers change; the tables gain at most the source.
   */
  function Handle(n: Net, p: Packet, ingress: int): (n': Net)
    requires WellFormed(n)
    ensures WellFormed(n')
    ensures n'.hosts == n.hosts && n'.ports == n.ports && n'.portOrder == n.portOrder && n'.fabric == n.fabric
    ensures n'.physicalMap == n.physicalMap && n'.physOrder == n.physOrder
    ensures n'.routerIfaces == n.routerIfaces && n'.routes == n.routes
    ensures n'.buffers.Keys == n.buffers.Keys
    ensures n'.macTable.Keys == n.macTable.Keys + {p.src}
    ensures forall m :: m in n.macTable ==> n'.macTable[m] == n.macTable[m] && n'.vlanTable[m] == n.vlanTable[m]
    ensures p.src !in n.macTable ==> n'.macTable[p.src] == ingress && n'.vlanTable[p.src] == p.vlan
  {
    var n1 := Learn(n, p, ingress);
    if p.dst in n1.macTable then
      var dstVlan := if p.dst in n1.vlanTable then Some(n1.vlanTable[p.dst]) else None;
      if dstVlan == Some(p.vlan) then Forward(n1, n1.macTable[p.dst], p)
      else RoutePacket(n1, p)
    else if p.dst == BroadcastMac then Flood(n1, n1.portOrder, p, ingress)
    else n1
  }

  /**
   * Host.send_packet: a packet from the host's MAC, IP and VLAN, handed to the switch at its
   * interface. Bindings and router stay; the sender's MAC is known afterwards, and if it was
   * new it is learned at the sender's own interface and VLAN.
   */
  function Send(n: Net, h: HostId, dst: string, payload: string, dstIp: string): (n': Net)
    requires WellFormed(n) && h in n.hosts
    ensures WellFormed(n') && n'.hosts == n.hosts && n'.ports == n.ports && n'.fabric == n.fabric
    ensures n'.routerIfaces == n.routerIfaces && n'.routes == n.routes
    ensures n'.macTable.Keys == n.macTable.Keys + {n.hosts[h].mac}
    ensures n.hosts[h].mac !in n.macTable ==>
      n'.macTable[n.hosts[h].mac] == n.hosts[h].iface && n'.vlanTable[n.hosts[h].mac] == n.hosts[h].vlan
  {
    var host := n.hosts[h];
    Handle(n, Packet(host.mac, dst, host.ip, dstIp, payload, host.vlan), host.iface)
  }

  /** The entries of mac_table that survive the removal loop of update_mac_table. */
  function KeptEntries(m: map<string, int>, iface: int): (r: map<string, int>)
    ensures r.Keys <= m.Keys
    ensures forall k :: k in r ==> r[k] == m[k] && r[k] != iface
    ensures forall k :: k in m && m[k] != iface ==> k in r
  {
    map k | k in m && m[k] != iface :: m[k]
  }

  /** The entries of `m` left once the removal loop has visited every key but those in `pending`. */
  function PurgedExcept(m: map<string, int>, iface: int, pending: set<string>): map<string, int> {
    map k | k in m && (k in pending || m[k] != iface) :: m[k]
  }

  /**
   * One iteration of update_mac_table's removal loop: visiting a pending key deletes it
   * exactly when it maps to the interface, and leaves every other entry as it was.
   */
  lemma PurgeStep(m: map<string, int>, iface: int, pending: set<string>, k: string)
    requires k in pending && k in m
    ensures var cur := PurgedExcept(m, iface, pending);
      k in cur && cur[k] == m[k] &&
      (if cur[k] == iface then cur - {k} else cur) == PurgedExcept(m, iface, pending - {k})
  {
  }

  /** The removal loop starts, with every key pending, from the whole table, and ends, with
      none pending, at the entries on other interfaces. */
  lemma PurgeBounds(m: map<string, int>, iface: int)
    ensures PurgedExcept(m, iface, m.Keys) == m
    ensures PurgedExcept(m, iface, {}) == KeptEntries(m, iface)
  {
  }

  /**
   * Switch.update_mac_table: every MAC learned on the host's current interface is removed
   * from both tables, then the host's MAC is recorded with that interface and its VLAN.
   */
  function UpdateMacTable(n: Net, host: HostInfo): (n': Net)
    requires WellFormed(n)
    ensures WellFormed(n')
    ensures n' == n.(macTable := n'.macTable, vlanTable := n'.vlanTable)
  {
    var kept := KeptEntries(n.macTable, host.iface);
    var keptVlans := map k | k in n.vlanTable && k in kept :: n.vlanTable[k];
    n.(macTable := kept[host.mac := host.iface], vlanTable := keptVlans[host.mac := host.vlan])
  }

  /** FixedSwitchFabric.connect_host_to_switch: bind at the host's interface and record its MAC and VLAN. */
  function ConnectFixed(n: Net, h: HostId): (n': Net)
    requires WellFormed(n) && h in n.hosts
    ensures WellFormed(n')
    ensures var host := n.hosts[h];
      && n'.ports == n.ports[host.iface := Some(h)] && n'.fabric == n.fabric[host.iface := h]
      && n'.macTable == n.macTable[host.mac := host.iface] && n'.vlanTable == n.vlanTable[host.mac := host.vlan]
    ensures n'.hosts == n.hosts && n'.buffers == n.buffers && n'.physicalMap == n.physicalMap
    ensures n'.routerIfaces == n.routerIfaces && n'.routes == n.routes
  {
    var host := n.hosts[h];
    ListsKeysAfterSet(n.ports, n.portOrder, host.iface, Some(h));
    n.(ports := n.ports[host.iface := Some(h)], portOrder := OrderAfterSet(n.ports, n.portOrder, host.iface),
       macTable := n.macTable[host.mac := host.iface], vlanTable := n.vlanTable[host.mac := host.vlan],
       fabric := n.fabric[host.iface := h])
  }

  /** lib_final's SwitchFabric.connect_host_to_switch: bind at the host's interface in the three interface maps. */
  function ConnectPlain(n: Net, h: HostId): (n': Net)
    requires WellFormed(n) && h in n.hosts
    ensures WellFormed(n')
    ensures var host := n.hosts[h];
      && n'.ports == n.ports[host.iface := Some(h)] && n'.fabric == n.fabric[host.iface := h]
      && n'.physicalMap == n.physicalMap[host.iface := host.mac]
    ensures n'.hosts == n.hosts && n'.buffers == n.buffers
    ensures n'.macTable == n.macTable && n'.vlanTable == n.vlanTable
    ensures n'.routerIfaces == n.routerIfaces && n'.routes == n.routes
  {
    var host := n.hosts[h];
    ListsKeysAfterSet(n.ports, n.portOrder, host.iface, Some(h));
    ListsKeysAfterSet(n.physicalMap, n.physOrder, host.iface, host.mac);
    n.(ports := n.ports[host.iface := Some(h)], portOrder := OrderAfterSet(n.ports, n.portOrder, host.iface),
       fabric := n.fabric[host.iface := h],
       physicalMap := n.physicalMap[host.iface := host.mac],
       physOrder := OrderAfterSet(n.physicalMap, n.physOrder, host.iface))
  }

  /** Router.add_interface. */
  function AddInterface(n: Net, vlan: int, out: Option<HostId>): (n': Net)
    requires WellFormed(n) && (out.Some? ==> out.value in n.hosts)
    ensures WellFormed(n') && n' == n.(routerIfaces := n'.routerIfaces)
    ensures n'.routerIfaces == n.routerIfaces[vlan := out]
  {
    n.(routerIfaces := n.routerIfaces[vlan := out])
  }

  /** Router.add_route: a later route for the same destination replaces the earlier one. */
  function AddRoute(n: Net, dest: string, nextHop: Option<string>, out: Option<HostId>): (n': Net)
    requires WellFormed(n) && (out.Some? ==> out.value in n.hosts)
    ensures WellFormed(n') && n' == n.(routes := n'.routes)
    ensures n'.routes == n.routes[dest := Route(nextHop, out)]
  {
    n.(routes := n.routes[dest := Route(nextHop, out)])
  }

  // ---------------------------------------------------------------------------------------
  // Properties
  // ---------------------------------------------------------------------------------------

  /**
   * After update_mac_table(host): the host's MAC maps to its interface and VLAN; no other MAC
   * maps to that interface; every entry on another interface is kept; nothing else is added;
   * and the two tables still have the same keys.
   */
  lemma UpdateMacTableSpec(n: Net, host: HostInfo)
    requires WellFormed(n)
    ensures var n' := UpdateMacTable(n, host);
      && n'.macTable[host.mac] == host.iface && n'.vlanTable[host.mac] == host.vlan
      && (forall m :: m in n'.macTable && m != host.mac ==> n'.macTable[m] != host.iface)
      && (forall m :: m in n.macTable && n.macTable[m] != host.iface && m != host.mac ==>
            m in n'.macTable && n'.macTable[m] == n.macTable[m] && n'.vlanTable[m] == n.vlanTable[m])
      && (forall m :: m in n'.macTable ==> m == host.mac || (m in n.macTable && n.macTable[m] != host.iface))
      && n'.macTable.Keys == n'.vlanTable.Keys
  {
  }

  /**
   * The removal keys on the host's new interface, not on where its MAC was learned: a host
   * that moves from interface 0 to 2 under a new MAC evicts whatever was learned on 2 and
   * leaves its own old MAC resolving to 0.
   */
  lemma UpdateMacTableKeepsStaleEntry(n: Net)
    requires WellFormed(n)
    requires n.macTable == map["00:00:00:00:00:01" := 0, "00:00:00:00:00:02" := 1,
                               "00:00:00:00:00:03" := 2, "00:00:00:00:00:04" := 3]
    ensures var n' := UpdateMacTable(n, HostInfo("00:00:00:00:00:FF", 2, 10, "192.168.10.1"));
      && n'.macTable["00:00:00:00:00:FF"] == 2
      && n'.macTable["00:00:00:00:00:01"] == 0
      && "00:00:00:00:00:03" !in n'.macTable
  {
    var host := HostInfo("00:00:00:00:00:FF", 2, 10, "192.168.10.1");
    UpdateMacTableSpec(n, host);
    var n' := UpdateMacTable(n, host);
    assert n.macTable["00:00:00:00:00:03"] == 2;
    assert "00:00:00:00:00:01" != "00:00:00:00:00:FF" by {
      assert "00:00:00:00:00:01"[16] != "00:00:00:00:00:FF"[16];
    }
    assert "00:00:00:00:00:03" != "00:00:00:00:00:FF" by {
      assert "00:00:00:00:00:03"[16] != "00:00:00:00:00:FF"[16];
    }
  }

  /** What forwarding through the fabric leaves in one host's buffer. */
  lemma ForwardInbox(n: Net, i: int, p: Packet, h: HostId)
    requires WellFormed(n) && h in n.hosts
    ensures Forward(n, i, p).buffers[h] ==
      if i in n.fabric && n.fabric[i] == h then Deliver(n.buffers[h], n.hosts[h], p) else n.buffers[h]
  {
  }

  /**
   * What a flood leaves in one host's buffer: one copy addressed to the host's MAC and IP
   * per flooded interface bound to it; each copy passes the host's filter.
   */
  lemma {:induction false} FloodInbox(n: Net, order: seq<int>, p: Packet, ingress: int, h: HostId)
    requires WellFormed(n) && h in n.hosts
    requires forall j :: 0 <= j < |order| ==> order[j] in n.ports
    ensures Flood(n, order, p, ingress).buffers[h] ==
      n.buffers[h] + Repeat(FloodCopy(p, n.hosts[h]), FloodCount(n, order, p.vlan, ingress, h))
    decreases |order|
  {
    if order != [] {
      var init := order[..|order| - 1];
      var i := order[|order| - 1];
      FloodInbox(n, init, p, ingress, h);
      var rest := Flood(n, init, p, ingress);
      if Flooded(n, i, p.vlan, ingress) {
        var g := n.ports[i].value;
        var q := FloodCopy(p, n.hosts[g]);
        assert rest.fabric[i] == g && rest.hosts[g] == n.hosts[g];
        assert Accepts(n.hosts[g], q);
        ForwardInbox(rest, i, q, h);
      }
    }
  }

  /** A known destination in the packet's VLAN: at most the host bound at its learned interface gains the packet. */
  lemma HandleSameVlan(n: Net, p: Packet, ingress: int, h: HostId)
    requires WellFormed(n) && h in n.hosts
    requires var n1 := Learn(n, p, ingress); p.dst in n1.macTable && n1.vlanTable[p.dst] == p.vlan
    ensures var i := Learn(n, p, ingress).macTable[p.dst];
      Handle(n, p, ingress).buffers[h] ==
        if i in n.fabric && n.fabric[i] == h then Deliver(n.buffers[h], n.hosts[h], p) else n.buffers[h]
  {
    var n1 := Learn(n, p, ingress);
    ForwardInbox(n1, n1.macTable[p.dst], p, h);
  }

  /**
   * A known destination in another VLAN: the switch forwards nothing itself; a host gains the
   * packet, retagged with its VLAN, exactly when a route for the destination IP names it and
   * the packet is addressed to its MAC or to the sentinel; every other buffer is unchanged.
   */
  lemma HandleOtherVlan(n: Net, p: Packet, ingress: int, h: HostId)
    requires WellFormed(n) && h in n.hosts
    requires var n1 := Learn(n, p, ingress); p.dst in n1.macTable && n1.vlanTable[p.dst] != p.vlan
    ensures Handle(n, p, ingress).buffers[h] ==
      if p.dstIp in n.routes && n.routes[p.dstIp].out == Some(h) && (p.dst == n.hosts[h].mac || p.dst == BroadcastMac)
      then n.buffers[h] + [p.(vlan := n.hosts[h].vlan)]
      else n.buffers[h]
  {
  }

  /** Without a usable route, a packet for another VLAN is delivered nowhere. */
  lemma HandleNoRoute(n: Net, p: Packet, ingress: int)
    requires WellFormed(n)
    requires var n1 := Learn(n, p, ingress); p.dst in n1.macTable && n1.vlanTable[p.dst] != p.vlan
    requires p.dstIp !in n.routes || n.routes[p.dstIp].out.None?
    ensures Handle(n, p, ingress).buffers == n.buffers
  {
  }

  /**
   * An unlearned broadcast: every host gains one copy, addressed to its own MAC and IP, per
   * interface bound to it that is not the ingress, when it is in the packet's VLAN; hosts of
   * other VLANs and a host bound only at the ingress gain nothing.
   */
  lemma HandleBroadcast(n: Net, p: Packet, ingress: int, h: HostId)
    requires WellFormed(n) && h in n.hosts
    requires p.dst == BroadcastMac && p.dst !in Learn(n, p, ingress).macTable
    ensures var c := FloodCount(n, n.portOrder, p.vlan, ingress, h);
      && Handle(n, p, ingress).buffers[h] == n.buffers[h] + Repeat(FloodCopy(p, n.hosts[h]), c)
      && (c > 0 <==> n.hosts[h].vlan == p.vlan && exists i :: i in n.ports && i != ingress && n.ports[i] == Some(h))
  {
    var n1 := Learn(n, p, ingress);
    FloodInbox(n1, n1.portOrder, p, ingress, h);
    FloodCountSameBindings(n, n1, n.portOrder, p.vlan, ingress, h);
    var c := FloodCount(n, n.portOrder, p.vlan, ingress, h);
    if n.hosts[h].vlan == p.vlan && exists i :: i in n.ports && i != ingress && n.ports[i] == Some(h) {
      var i :| i in n.ports && i != ingress && n.ports[i] == Some(h);
      var j :| 0 <= j < |n.portOrder| && n.portOrder[j] == i;
    }
  }

  /** An unknown destination other than the sentinel is dropped: only learning happens. */
  lemma HandleUnknownUnicast(n: Net, p: Packet, ingress: int)
    requires WellFormed(n)
    requires p.dst != BroadcastMac && p.dst !in Learn(n, p, ingress).macTable
    ensures Handle(n, p, ingress) == Learn(n, p, ingress)
    ensures Handle(n, p, ingress).buffers == n.buffers
  {
  }

  /** Interface `i` is flooded in the VLAN and bound to host `h`. */
  predicate FloodsTo(n: Net, i: int, vlan: int, ingress: int, h: HostId)
    requires WellFormed(n)
  {
    i in n.ports && Flooded(n, i, vlan, ingress) && n.ports[i] == Some(h)
  }

  /**
   * FloodCount in closed form: over an order that lists each interface once, it is the
   * number of interfaces in it that are flooded in the VLAN and bound to `h`.
   */
  lemma {:induction false} FloodCountCard(n: Net, order: seq<int>, vlan: int, ingress: int, h: HostId)
    requires WellFormed(n) && Distinct(order)
    requires forall j :: 0 <= j < |order| ==> order[j] in n.ports
    ensures FloodCount(n, order, vlan, ingress, h) == |set i | i in order && FloodsTo(n, i, vlan, ingress, h)|
    decreases |order|
  {
    if order != [] {
      var init, last := order[..|order| - 1], order[|order| - 1];
      assert order == init + [last];
      assert Distinct(init) by {
        forall a, b | 0 <= a < b < |init|
          ensures init[a] != init[b]
        {
          assert init[a] == order[a] && init[b] == order[b];
        }
      }
      assert last !in init by {
        forall a | 0 <= a < |init|
          ensures init[a] != last
        {
          assert init[a] == order[a];
        }
      }
      FloodCountCard(n, init, vlan, ingress, h);
      var all := set i | i in order && FloodsTo(n, i, vlan, ingress, h);
      var before := set i | i in init && FloodsTo(n, i, vlan, ingress, h);
      if FloodsTo(n, last, vlan, ingress, h) {
        assert all == before + {last};
      } else {
        assert all == before;
      }
    }
  }

  /**
   * The copies a host receives from a flood over the switch's interface order: one for each
   * interface of the switch, other than the ingress, bound to it, when it is in the VLAN.
   */
  lemma FloodCountOfInterfaces(n: Net, vlan: int, ingress: int, h: HostId)
    requires WellFormed(n)
    ensures FloodCount(n, n.portOrder, vlan, ingress, h) ==
      |set i | i in n.ports && i != ingress && n.ports[i] == Some(h) && n.hosts[h].vlan == vlan|
  {
    FloodCountCard(n, n.portOrder, vlan, ingress, h);
    assert (set i | i in n.portOrder && FloodsTo(n, i, vlan, ingress, h))
        == (set i | i in n.ports && i != ingress && n.ports[i] == Some(h) && n.hosts[h].vlan == vlan);
  }

  /** Learning does not touch the bindings, so the flood count is the same before and after it. */
  lemma {:induction false} FloodCountSameBindings(n: Net, n1: Net, order: seq<int>, vlan: int, ingress: int, h: HostId)
    requires WellFormed(n) && WellFormed(n1)
    requires n1.ports == n.ports && n1.hosts == n.hosts
    requires forall j :: 0 <= j < |order| ==> order[j] in n.ports
    ensures FloodCount(n1, order, vlan, ingress, h) == FloodCount(n, order, vlan, ingress, h)
    decreases |order|
  {
    if order != [] {
      FloodCountSameBindings(n, n1, order[..|order| - 1], vlan, ingress, h);
    }
  }

  /**
   * A host that is bound only at its own interface does not receive its own broadcast, as
   * long as the sentinel has not been learned and is not the host's own MAC (a host whose
   * MAC is the sentinel gets its packet back from its own interface).
   */
  lemma SendBroadcastSparesSender(n: Net, h: HostId, payload: string, dstIp: string)
    requires WellFormed(n) && h in n.hosts
    requires forall i :: i in n.ports && n.ports[i] == Some(h) ==> i == n.hosts[h].iface
    requires BroadcastMac !in n.macTable && n.hosts[h].mac != BroadcastMac
    ensures Send(n, h, BroadcastMac, payload, dstIp).buffers[h] == n.buffers[h]
  {
    var host := n.hosts[h];
    HandleBroadcast(n, Packet(host.mac, BroadcastMac, host.ip, dstIp, payload, host.vlan), host.iface, h);
  }

  // ---------------------------------------------------------------------------------------
  // The objects
  // ---------------------------------------------------------------------------------------

  /** The switch, its router, its fabric, its hosts and their buffers. */
  class VlanLan {
    var hosts: map<HostId, HostInfo>
    var buffers: map<HostId, seq<Packet>>
    var ports: map<int, Option<HostId>>
    var portOrder: seq<int>
    var fabric: map<int, HostId>
    var physicalMap: map<int, string>
    var physOrder: seq<int>
    var macTable: map<string, int>
    var vlanTable: map<string, int>
    var routerIfaces: map<int, Option<HostId>>
    var routes: map<string, Route>
    var nextId: HostId

    function State(): Net
      reads this
    {
      Net(hosts, buffers, ports, portOrder, fabric, physicalMap, physOrder, macTable, vlanTable,
          routerIfaces, routes)
    }

    predicate Valid()
      reads this
    {
      WellFormed(State()) && forall h :: h in hosts ==> h < nextId
    }

    /** A fabric, then Switch(fabric, num_interfaces). */
    constructor (numInterfaces: int := 8)
      ensures Valid() && State() == Initial(numInterfaces)
    {
      hosts, buffers := map[], map[];
      ports := NoneFor(Range(0, numInterfaces));
      portOrder := Range(0, numInterfaces);
      fabric, physicalMap, physOrder := map[], map[], [];
      macTable, vlanTable := map[], map[];
      routerIfaces, routes := map[], map[];
      nextId := 0;
      RangeListsKeys<HostId>(numInterfaces);
    }

    /** Host(mac, interface, vlan_id, ip_address): a fresh host with an empty buffer, or the ValueError. */
    method NewVlanHost(mac: string, iface: int, vlan: int := 1, ip: string := "0.0.0.0")
      returns (r: Result<HostId, MacError>)
      requires Valid()
      modifies this
      ensures Valid()
      ensures r.Success? <==> NewHost(mac, iface, vlan, ip).Success?
      ensures r.Failure? ==> State() == old(State())
      ensures r.Success? ==> r.value !in old(hosts)
      ensures r.Success? ==> State() == old(State()).(hosts := old(hosts)[r.value := HostInfo(mac, iface, vlan, ip)],
                                                      buffers := old(buffers)[r.value := []])
    {
      var checked := NewHost(mac, iface, vlan, ip);
      if checked.Failure? {
        return Failure(checked.error);
      }
      var h := nextId;
      hosts := hosts[h := checked.value];
      buffers := buffers[h := []];
      nextId := nextId + 1;
      return Success(h);
    }

    method ReceivePacket(h: HostId, p: Packet)
      requires Valid() && h in hosts
      modifies this
      ensures Valid() && State() == Receive(old(State()), h, p)
    {
      var host := hosts[h];
      if (p.dst == host.mac || p.dst == BroadcastMac) && p.vlan == host.vlan {
        buffers := buffers[h := buffers[h] + [p]];
      }
    }

    method ForwardToInterface(p: Packet, i: int)
      requires Valid()
      modifies this
      ensures Valid() && State() == Forward(old(State()), i, p)
    {
      if i in fabric {
        ReceivePacket(fabric[i], p);
      }
    }

    /** Router.route_packet; the source VLAN it is given is not used. */
    method RoutePacketMethod(p: Packet, srcVlan: int)
      requires Valid()
      modifies this
      ensures Valid() && State() == RoutePacket(old(State()), p)
    {
      if p.dstIp in routes {
        var route := routes[p.dstIp];
        if route.out.Some? {
          var h := route.out.value;
          ReceivePacket(h, p.(vlan := hosts[h].vlan));
        }
      }
    }

    method AddRouterInterface(vlan: int, out: Option<HostId>)
      requires Valid() && (out.Some? ==> out.value in hosts)
      modifies this
      ensures Valid() && State() == AddInterface(old(State()), vlan, out)
    {
      routerIfaces := routerIfaces[vlan := out];
    }

    method AddRouterRoute(dest: string, nextHop: Option<string> := None, out: Option<HostId> := None)
      requires Valid() && (out.Some? ==> out.value in hosts)
      modifies this
      ensures Valid() && State() == AddRoute(old(State()), dest, nextHop, out)
    {
      routes := routes[dest := Route(nextHop, out)];
    }

    /** Switch.get_interface_by_mac: mac_table.get(mac). */
    method GetInterfaceByMac(mac: string) returns (r: Option<int>)
      requires Valid()
      ensures r.Some? <==> mac in macTable
      ensures r.Some? ==> r.value == macTable[mac]
    {
      r := if mac in macTable then Some(macTable[mac]) else None;
    }

    /** Switch.flood_packet. */
    method FloodPacket(p: Packet, ingress: int)
      requires Valid()
      modifies this
      ensures Valid() && State() == Flood(old(State()), old(portOrder), p, ingress)
    {
      ghost var n0 := State();
      var k := 0;
      while k < |portOrder|
        invariant 0 <= k <= |portOrder|
        invariant Valid() && OnlyBuffersChange(n0, State())
        invariant State() == Flood(n0, n0.portOrder[..k], p, ingress)
      {
        var i := portOrder[k];
        assert n0.portOrder[..k + 1] == n0.portOrder[..k] + [i];
        var slot := ports[i];
        if slot.Some? && hosts[slot.value].vlan == p.vlan && i != ingress {
          var host := hosts[slot.value];
          var copy := Packet(p.src, host.mac, p.srcIp, host.ip, p.payload, p.vlan);
          ForwardToInterface(copy, i);
        }
        k := k + 1;
      }
      assert n0.portOrder[..k] == n0.portOrder;
    }

    method HandlePacket(p: Packet, ingress: int)
      requires Valid()
      modifies this
      ensures Valid() && State() == Handle(old(State()), p, ingress)
    {
      if p.src !in macTable {
        macTable := macTable[p.src := ingress];
        vlanTable := vlanTable[p.src := p.vlan];
      }
      if p.dst in macTable {
        var dstIface := macTable[p.dst];
        var dstVlan := if p.dst in vlanTable then Some(vlanTable[p.dst]) else None;
        if dstVlan == Some(p.vlan) {
          ForwardToInterface(p, dstIface);
        } else {
          RoutePacketMethod(p, p.vlan);
        }
      } else if p.dst == BroadcastMac {
        FloodPacket(p, ingress);
      }
    }

    method SendPacket(h: HostId, dst: string, payload: string, dstIp: string)
      requires Valid() && h in hosts
      modifies this
      ensures Valid() && State() == Send(old(State()), h, dst, payload, dstIp)
    {
      var host := hosts[h];
      HandlePacket(Packet(host.mac, dst, host.ip, dstIp, payload, host.vlan), host.iface);
    }

    /**
     * Switch.update_mac_table(host): the removal loop walks a snapshot of mac_table's keys
     * (any order gives the same tables), then the host's entry is written. The loop works
     * on the two tables as locals, which are stored back before the insertion.
     */
    method UpdateMacTableMethod(h: HostId)
      requires Valid() && h in hosts
      modifies this
      ensures Valid() && State() == UpdateMacTable(old(State()), old(hosts[h]))
    {
      var host := hosts[h];
      var macs, vlans := macTable, vlanTable;
      var pending := macs.Keys;
      PurgeBounds(macTable, host.iface);
      while pending != {}
        invariant pending <= macs.Keys
        invariant macs == PurgedExcept(macTable, host.iface, pending)
        invariant vlans == map k | k in vlanTable && k in macs :: vlanTable[k]
        modifies {}
        decreases pending
      {
        var m :| m in pending;
        PurgeStep(macTable, host.iface, pending, m);
        if macs[m] == host.iface {
          macs := macs - {m};
          vlans := vlans - {m};
        }
        pending := pending - {m};
      }
      assert macs == KeptEntries(macTable, host.iface);
      macTable := macs[host.mac := host.iface];
      vlanTable := vlans[host.mac := host.vlan];
    }

    /** FixedSwitchFabric.connect_host_to_switch. */
    method ConnectHostFixed(h: HostId)
      requires Valid() && h in hosts
      modifies this
      ensures Valid() && State() == ConnectFixed(old(State()), h)
    {
      var host := hosts[h];
      ListsKeysAfterSet(ports, portOrder, host.iface, Some(h));
      portOrder := OrderAfterSet(ports, portOrder, host.iface);
      ports := ports[host.iface := Some(h)];
      macTable := macTable[host.mac := host.iface];
      vlanTable := vlanTable[host.mac := host.vlan];
      fabric := fabric[host.iface := h];
    }

    /** lib_final's SwitchFabric.connect_host_to_switch. */
    method ConnectHostToSwitch(h: HostId)
      requires Valid() && h in hosts
      modifies this
      ensures Valid() && State() == ConnectPlain(old(State()), h)
    {
      var host := hosts[h];
      ListsKeysAfterSet(ports, portOrder, host.iface, Some(h));
      ListsKeysAfterSet(physicalMap, physOrder, host.iface, host.mac);
      portOrder := OrderAfterSet(ports, portOrder, host.iface);
      ports := ports[host.iface := Some(h)];
      physOrder := OrderAfterSet(physicalMap, physOrder, host.iface);
      physicalMap := physicalMap[host.iface := host.mac];
      fabric := fabric[host.iface := h];
    }

    /** lib_final's SwitchFabric.forward_to_switch: a read-only lookup returning (src_interface, packet). */
    method ForwardToSwitch(p: Packet) returns (srcIface: int, out: Packet)
      requires Valid()
      ensures out == p
      ensures srcIface == SourceInterface(physicalMap, physOrder, p.src, p.dst)
    {
      out := p;
      srcIface := 0;
      if exists k :: k in physicalMap && physicalMap[k] == p.dst {
        var found := FindFirstKey(physicalMap, physOrder, p.src);
        if found.Some? {
          srcIface := found.value;
        }
      }
    }
  }
}
