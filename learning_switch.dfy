/**
 * The learning switch without VLANs (skeleton_switch.py; task_1_2/skeleton_switch.py has
 * the same Host and Switch) on the switch fabric of ee315_24_lib.py.
 *
 * Host objects are named by HostId. Their attributes and buffers, Switch.interfaces
 * (with its key order), Switch.mac_table, SwitchFabric.interfaces and
 * SwitchFabric.physical_map (with its key order) are the fields of one SwitchedLan object.
 */
module LearningSwitch {
  import opened Wrappers
  import opened Seqs
  import opened MacAddress
  import opened LanLib

  /** A host's attributes: its MAC and the interface number it was created with. */
  datatype HostInfo = HostInfo(mac: string, iface: int)

  datatype Net = Net(
    hosts: map<HostId, HostInfo>,
    buffers: map<HostId, seq<Frame>>,
    ports: map<int, Option<HostId>>,       // Switch.interfaces (None: unbound)
    portOrder: seq<int>,                   // its key order
    fabric: map<int, HostId>,              // SwitchFabric.interfaces
    physicalMap: map<int, string>,         // SwitchFabric.physical_map
    physOrder: seq<int>,                   // its key order
    macTable: map<string, Option<int>>)    // Switch.mac_table (a learned value may be None)

  /**
   * The shape every reachable state has: buffers for exactly the hosts, bound hosts exist,
   * the fabric binds exactly what the switch binds, and the key orders list the keys once.
   */
  predicate WellFormed(n: Net) {
    && n.hosts.Keys == n.buffers.Keys
    && (forall i :: i in n.ports && n.ports[i].Some? ==> n.ports[i].value in n.hosts)
    && (forall i :: i in n.fabric ==> i in n.ports && n.ports[i] == Some(n.fabric[i]))
    && (forall i :: i in n.ports && n.ports[i].Some? ==> i in n.fabric)
    && ListsKeys(n.ports, n.portOrder)
    && ListsKeys(n.physicalMap, n.physOrder)
  }

  /** Everything but the host buffers is the same. */
  predicate OnlyBuffersChange(n: Net, n': Net) {
    n' == n.(buffers := n'.buffers) && n'.buffers.Keys == n.buffers.Keys
  }

  /** Switch(fabric, num_interfaces) on a new fabric: interfaces 0..num_interfaces-1, all unbound. */
  function Initial(numInterfaces: int): (n: Net)
    ensures WellFormed(n)
    ensures forall i :: i in n.ports <==> 0 <= i < numInterfaces
    ensures forall i :: i in n.ports ==> n.ports[i] == None
    ensures n.macTable == map[] && n.fabric == map[] && n.physicalMap == map[] && n.hosts == map[]
  {
    RangeListsKeys<HostId>(numInterfaces);
    Net(map[], map[], NoneFor(Range(0, numInterfaces)), Range(0, numInterfaces),
        map[], map[], [], map[])
  }

  /** Host(mac, interface): the MAC is checked, then both attributes are stored unchanged. */
  function NewHost(mac: string, iface: int): (r: Result<HostInfo, MacError>)
    ensures r.Success? <==> ValidMac(mac)
    ensures r.Success? ==> r.value.mac == mac && r.value.iface == iface
    ensures r.Failure? ==> r.error == InvalidMacAddressFormat
  {
    if ValidMac(mac) then Success(HostInfo(mac, iface)) else Failure(InvalidMacAddressFormat)
  }

  /** Host.receive_packet: keep a frame only when it is addressed exactly to this host. */
  function Receive(n: Net, h: HostId, f: Frame): (n': Net)
    requires WellFormed(n) && h in n.hosts
    ensures WellFormed(n') && OnlyBuffersChange(n, n')
    ensures n'.buffers[h] == if f.dst == n.hosts[h].mac then n.buffers[h] + [f] else n.buffers[h]
    ensures forall g :: g in n.buffers && g != h ==> n'.buffers[g] == n.buffers[g]
  {
    if f.dst == n.hosts[h].mac then n.(buffers := n.buffers[h := n.buffers[h] + [f]]) else n
  }

  /** SwitchFabric.forward_to_interface: deliver to the bound host; an unknown interface only logs. */
  function Forward(n: Net, i: int, f: Frame): (n': Net)
    requires WellFormed(n)
    ensures WellFormed(n') && OnlyBuffersChange(n, n')
    ensures i !in n.fabric ==> n' == n
  {
    if i in n.fabric then Receive(n, n.fabric[i], f) else n
  }

  /** Interface `i` is bound to a host whose MAC is `mac`. */
  predicate BoundTo(n: Net, i: int, mac: string)
    requires WellFormed(n) && i in n.ports
  {
    n.ports[i].Some? && n.hosts[n.ports[i].value].mac == mac
  }

  /** Switch.get_interface_by_mac over the interfaces in `order`: the first bound one whose host has `mac`. */
  function PortOf(n: Net, order: seq<int>, mac: string): (r: Option<int>)
    requires WellFormed(n)
    requires forall j :: 0 <= j < |order| ==> order[j] in n.ports
    ensures r.Some? ==> r.value in n.ports && BoundTo(n, r.value, mac)
    ensures r.Some? ==> exists j :: 0 <= j < |order| && order[j] == r.value &&
                                    forall i :: 0 <= i < j ==> !BoundTo(n, order[i], mac)
    ensures r.None? <==> forall j :: 0 <= j < |order| ==> !BoundTo(n, order[j], mac)
    decreases |order|
  {
    if order == [] then None
    else if BoundTo(n, order[0], mac) then Some(order[0])
    else
      var r := PortOf(n, order[1..], mac);
      if r.Some? then
        ghost var j :| 0 <= j < |order[1..]| && order[1..][j] == r.value &&
                       forall i :: 0 <= i < j ==> !BoundTo(n, order[1..][i], mac);
        assert order[j + 1] == r.value && forall i :: 0 <= i < j + 1 ==> !BoundTo(n, order[i], mac);
        r
      else r
  }

  /** The learning step: an unknown source is recorded with get_interface_by_mac(src), possibly None. */
  function Learn(n: Net, f: Frame): (n': Net)
    requires WellFormed(n)
    ensures WellFormed(n') && n' == n.(macTable := n'.macTable)
    ensures n'.macTable.Keys == n.macTable.Keys + {f.src}
    ensures forall m :: m in n.macTable ==> n'.macTable[m] == n.macTable[m]
    ensures f.src !in n.macTable ==> n'.macTable[f.src] == PortOf(n, n.portOrder, f.src)
  {
    if f.src in n.macTable then n
    else n.(macTable := n.macTable[f.src := PortOf(n, n.portOrder, f.src)])
  }

  /** The flood filter: a bound interface whose host's own interface is not the source's. */
  predicate Flooded(n: Net, i: int, srcPort: Option<int>)
    requires WellFormed(n) && i in n.ports
  {
    n.ports[i].Some? && Some(n.hosts[n.ports[i].value].iface) != srcPort
  }

  /** The interfaces the flood loop forwards to, in interface order. */
  function FloodTargets(n: Net, order: seq<int>, srcPort: Option<int>): (ts: seq<int>)
    requires WellFormed(n)
    requires forall j :: 0 <= j < |order| ==> order[j] in n.ports
    ensures |ts| <= |order|
    ensures forall k :: 0 <= k < |ts| ==> ts[k] in order && ts[k] in n.ports && Flooded(n, ts[k], srcPort)
    decreases |order|
  {
    if order == [] then []
    else
      var rest := FloodTargets(n, order[..|order| - 1], srcPort);
      var i := order[|order| - 1];
      if Flooded(n, i, srcPort) then rest + [i] else rest
  }

  /** forward_to_interface for each interface of `ts` in turn. */
  function ForwardAll(n: Net, ts: seq<int>, f: Frame): (n': Net)
    requires WellFormed(n)
    ensures WellFormed(n') && OnlyBuffersChange(n, n')
    decreases |ts|
  {
    if ts == [] then n else Forward(ForwardAll(n, ts[..|ts| - 1], f), ts[|ts| - 1], f)
  }

  /** How many entries of `ts` the fabric binds to host `h`. */
  function CountTo(n: Net, ts: seq<int>, h: HostId): (c: nat)
    ensures c > 0 <==> exists k :: 0 <= k < |ts| && ts[k] in n.fabric && n.fabric[ts[k]] == h
    decreases |ts|
  {
    if ts == [] then 0
    else
      var last := ts[|ts| - 1];
      var c := CountTo(n, ts[..|ts| - 1], h);
      assert forall k :: 0 <= k < |ts| - 1 ==> ts[..|ts| - 1][k] == ts[k];
      c + (if last in n.fabric && n.fabric[last] == h then 1 else 0)
  }

  /**
   * Switch.handle_packet: learn the source on first sight; a destination learned with an
   * interface is forwarded there only; otherwise the frame goes to every bound interface
   * whose host's interface differs from the source's bound interface. Only mac_table and
   * the buffers change, and mac_table gains at most the source.
   */
  function Handle(n: Net, f: Frame): (n': Net)
    requires WellFormed(n)
    ensures WellFormed(n')
    ensures n'.hosts == n.hosts && n'.ports == n.ports && n'.portOrder == n.portOrder
    ensures n'.fabric == n.fabric && n'.physicalMap == n.physicalMap && n'.physOrder == n.physOrder
    ensures n'.buffers.Keys == n.buffers.Keys
    ensures n'.macTable.Keys == n.macTable.Keys + {f.src}
    ensures forall m :: m in n.macTable ==> n'.macTable[m] == n.macTable[m]
    ensures f.src !in n.macTable ==> n'.macTable[f.src] == PortOf(n, n.portOrder, f.src)
  {
    var n1 := Learn(n, f);
    var dstPort := if f.dst in n1.macTable then n1.macTable[f.dst] else None;
    if dstPort.Some? then Forward(n1, dstPort.value, f)
    else ForwardAll(n1, FloodTargets(n1, n1.portOrder, PortOf(n1, n1.portOrder, f.src)), f)
  }

  /**
   * Host.send_packet: a frame from the host's own MAC, handed to the switch. The bindings
   * stay; the sender's MAC is known to the switch afterwards, learned as PortOf it if new.
   */
  function Send(n: Net, h: HostId, dst: string, payload: string): (n': Net)
    requires WellFormed(n) && h in n.hosts
    ensures WellFormed(n') && n'.hosts == n.hosts && n'.ports == n.ports && n'.fabric == n.fabric
    ensures n'.macTable.Keys == n.macTable.Keys + {n.hosts[h].mac}
    ensures n.hosts[h].mac !in n.macTable ==> n'.macTable[n.hosts[h].mac] == PortOf(n, n.portOrder, n.hosts[h].mac)
  {
    Handle(n, Frame(n.hosts[h].mac, dst, payload))
  }

  /** SwitchFabric.connect_host_to_switch: bind at the host's interface in all three tables. */
  function Connect(n: Net, h: HostId): (n': Net)
    requires WellFormed(n) && h in n.hosts
    ensures WellFormed(n')
    ensures var i := n.hosts[h].iface;
      && n'.ports == n.ports[i := Some(h)] && n'.fabric == n.fabric[i := h]
      && n'.physicalMap == n.physicalMap[i := n.hosts[h].mac]
    ensures n'.hosts == n.hosts && n'.buffers == n.buffers && n'.macTable == n.macTable
  {
    var i := n.hosts[h].iface;
    ListsKeysAfterSet(n.ports, n.portOrder, i, Some(h));
    ListsKeysAfterSet(n.physicalMap, n.physOrder, i, n.hosts[h].mac);
    n.(ports := n.ports[i := Some(h)], portOrder := OrderAfterSet(n.ports, n.portOrder, i),
       fabric := n.fabric[i := h],
       physicalMap := n.physicalMap[i := n.hosts[h].mac],
       physOrder := OrderAfterSet(n.physicalMap, n.physOrder, i))
  }

  /** The flood reaches exactly the interfaces of `order` that pass the filter, each once. */
  lemma {:induction false} FloodTargetsExact(n: Net, order: seq<int>, srcPort: Option<int>, i: int)
    requires WellFormed(n)
    requires forall j :: 0 <= j < |order| ==> order[j] in n.ports
    ensures i in FloodTargets(n, order, srcPort) <==> i in order && Flooded(n, i, srcPort)
    ensures Distinct(order) ==> Distinct(FloodTargets(n, order, srcPort))
    decreases |order|
  {
    if order != [] {
      var init := order[..|order| - 1];
      var last := order[|order| - 1];
      assert order == init + [last];
      FloodTargetsExact(n, init, srcPort, i);
      if Distinct(order) {
        assert Distinct(init);
        if Flooded(n, last, srcPort) {
          FloodTargetsExact(n, init, srcPort, last);
          DistinctAppend(FloodTargets(n, init, srcPort), last);
        }
      }
    }
  }

  /** What forwarding one frame to the interfaces `ts` leaves in one host's buffer. */
  lemma {:induction false} ForwardAllInbox(n: Net, ts: seq<int>, f: Frame, h: HostId)
    requires WellFormed(n) && h in n.hosts
    ensures ForwardAll(n, ts, f).buffers[h] ==
      n.buffers[h] + (if f.dst == n.hosts[h].mac then Repeat(f, CountTo(n, ts, h)) else [])
    decreases |ts|
  {
    if ts != [] {
      ForwardAllInbox(n, ts[..|ts| - 1], f, h);
    }
  }

  /** A destination learned with an interface: at most the host bound there gains the frame. */
  lemma HandleKnown(n: Net, f: Frame, h: HostId)
    requires WellFormed(n) && h in n.hosts
    requires var n1 := Learn(n, f); f.dst in n1.macTable && n1.macTable[f.dst].Some?
    ensures var i := Learn(n, f).macTable[f.dst].value;
      Handle(n, f).buffers[h] ==
        if i in n.fabric && n.fabric[i] == h && f.dst == n.hosts[h].mac
        then n.buffers[h] + [f] else n.buffers[h]
  {
  }

  /** In the flood case, handle_packet is the learning step followed by the flood loop. */
  lemma HandleFloodIs(n: Net, f: Frame)
    requires WellFormed(n)
    requires var n1 := Learn(n, f); f.dst !in n1.macTable || n1.macTable[f.dst].None?
    ensures Handle(n, f) ==
      ForwardAll(Learn(n, f), FloodTargets(n, n.portOrder, PortOf(n, n.portOrder, f.src)), f)
  {
    var n1 := Learn(n, f);
    PortOfSameBindings(n, n1, n.portOrder, f.src);
    FloodTargetsSameBindings(n, n1, n.portOrder, PortOf(n, n.portOrder, f.src));
  }

  /** Every entry of the flood list is a flooded interface, so a host never flooded is not reached. */
  lemma FloodNeverReaches(n: Net, srcPort: Option<int>, h: HostId)
    requires WellFormed(n) && h in n.hosts
    requires Some(n.hosts[h].iface) == srcPort
    ensures CountTo(n, FloodTargets(n, n.portOrder, srcPort), h) == 0
  {
    var ts := FloodTargets(n, n.portOrder, srcPort);
    forall k | 0 <= k < |ts| && ts[k] in n.fabric
      ensures n.fabric[ts[k]] != h
    {
      FloodTargetsExact(n, n.portOrder, srcPort, ts[k]);
    }
  }

  /**
   * An unknown destination (or one learned as None): the frame goes to exactly the bound
   * interfaces whose host's interface is not the source's, each once; every host gains one
   * copy per such interface bound to it when the frame is addressed to it; and a host whose
   * own interface is the source's bound interface is never flooded.
   */
  lemma HandleFlood(n: Net, f: Frame, h: HostId)
    requires WellFormed(n) && h in n.hosts
    requires var n1 := Learn(n, f); f.dst !in n1.macTable || n1.macTable[f.dst].None?
    ensures var srcPort := PortOf(n, n.portOrder, f.src);
      var ts := FloodTargets(n, n.portOrder, srcPort);
      && (forall i :: i in ts <==> i in n.ports && Flooded(n, i, srcPort))
      && Distinct(ts)
      && Handle(n, f).buffers[h] ==
           n.buffers[h] + (if f.dst == n.hosts[h].mac then Repeat(f, CountTo(n, ts, h)) else [])
      && (Some(n.hosts[h].iface) == srcPort ==> Handle(n, f).buffers[h] == n.buffers[h])
  {
    var n1 := Learn(n, f);
    var srcPort := PortOf(n, n.portOrder, f.src);
    var ts := FloodTargets(n, n.portOrder, srcPort);
    HandleFloodIs(n, f);
    forall i
      ensures i in ts <==> i in n.ports && Flooded(n, i, srcPort)
    {
      FloodTargetsExact(n, n.portOrder, srcPort, i);
    }
    FloodTargetsExact(n, n.portOrder, srcPort, 0);
    ForwardAllInbox(n1, ts, f, h);
    assert CountTo(n1, ts, h) == CountTo(n, ts, h) by {
      CountToSameFabric(n, n1, ts, h);
    }
    if Some(n.hosts[h].iface) == srcPort {
      FloodNeverReaches(n, srcPort, h);
    }
  }

  lemma {:induction false} CountToSameFabric(n: Net, n1: Net, ts: seq<int>, h: HostId)
    requires n1.fabric == n.fabric
    ensures CountTo(n1, ts, h) == CountTo(n, ts, h)
    decreases |ts|
  {
    if ts != [] {
      CountToSameFabric(n, n1, ts[..|ts| - 1], h);
    }
  }

  /** Learning does not touch the bindings, so the lookup gives the same answer. */
  lemma {:induction false} PortOfSameBindings(n: Net, n1: Net, order: seq<int>, mac: string)
    requires WellFormed(n) && WellFormed(n1)
    requires n1.ports == n.ports && n1.hosts == n.hosts
    requires forall j :: 0 <= j < |order| ==> order[j] in n.ports
    ensures PortOf(n1, order, mac) == PortOf(n, order, mac)
    decreases |order|
  {
    if order != [] {
      PortOfSameBindings(n, n1, order[1..], mac);
    }
  }

  lemma {:induction false} FloodTargetsSameBindings(n: Net, n1: Net, order: seq<int>, srcPort: Option<int>)
    requires WellFormed(n) && WellFormed(n1)
    requires n1.ports == n.ports && n1.hosts == n.hosts
    requires forall j :: 0 <= j < |order| ==> order[j] in n.ports
    ensures FloodTargets(n1, order, srcPort) == FloodTargets(n, order, srcPort)
    decreases |order|
  {
    if order != [] {
      FloodTargetsSameBindings(n, n1, order[..|order| - 1], srcPort);
    }
  }

  /** The switch, its fabric, its hosts and their buffers. */
  class SwitchedLan {
    var hosts: map<HostId, HostInfo>
    var buffers: map<HostId, seq<Frame>>
    var ports: map<int, Option<HostId>>
    var portOrder: seq<int>
    var fabric: map<int, HostId>
    var physicalMap: map<int, string>
    var physOrder: seq<int>
    var macTable: map<string, Option<int>>
    var nextId: HostId

    function State(): Net
      reads this
    {
      Net(hosts, buffers, ports, portOrder, fabric, physicalMap, physOrder, macTable)
    }

    predicate Valid()
      reads this
    {
      WellFormed(State()) && forall h :: h in hosts ==> h < nextId
    }

    /** SwitchFabric() followed by Switch(fabric, num_interfaces). */
    constructor (numInterfaces: int := 8)
      ensures Valid() && State() == Initial(numInterfaces)
    {
      hosts, buffers := map[], map[];
      ports := NoneFor(Range(0, numInterfaces));
      portOrder := Range(0, numInterfaces);
      fabric, physicalMap, physOrder, macTable := map[], map[], [], map[];
      nextId := 0;
      RangeListsKeys<HostId>(numInterfaces);
    }

    /** Host(mac, interface): a fresh host with an empty buffer, or the ValueError. */
    method NewSwitchHost(mac: string, iface: int) returns (r: Result<HostId, MacError>)
      requires Valid()
      modifies this
      ensures Valid()
      ensures r.Success? <==> NewHost(mac, iface).Success?
      ensures r.Failure? ==> State() == old(State())
      ensures r.Success? ==> r.value !in old(hosts)
      ensures r.Success? ==> State() == old(State()).(hosts := old(hosts)[r.value := HostInfo(mac, iface)],
                                                      buffers := old(buffers)[r.value := []])
    {
      var checked := NewHost(mac, iface);
      if checked.Failure? {
        return Failure(checked.error);
      }
      var h := nextId;
      hosts := hosts[h := checked.value];
      buffers := buffers[h := []];
      nextId := nextId + 1;
      return Success(h);
    }

    method ConnectHostToSwitch(h: HostId)
      requires Valid() && h in hosts
      modifies this
      ensures Valid() && State() == Connect(old(State()), h)
    {
      var i := hosts[h].iface;
      ListsKeysAfterSet(ports, portOrder, i, Some(h));
      ListsKeysAfterSet(physicalMap, physOrder, i, hosts[h].mac);
      portOrder := OrderAfterSet(ports, portOrder, i);
      ports := ports[i := Some(h)];
      physOrder := OrderAfterSet(physicalMap, physOrder, i);
      physicalMap := physicalMap[i := hosts[h].mac];
      fabric := fabric[i := h];
    }

    method ReceivePacket(h: HostId, f: Frame)
      requires Valid() && h in hosts
      modifies this
      ensures Valid() && State() == Receive(old(State()), h, f)
    {
      if f.dst == hosts[h].mac {
        buffers := buffers[h := buffers[h] + [f]];
      }
    }

    method ForwardToInterface(f: Frame, i: int)
      requires Valid()
      modifies this
      ensures Valid() && State() == Forward(old(State()), i, f)
    {
      if i in fabric {
        ReceivePacket(fabric[i], f);
      }
    }

    /** The linear search of Switch.get_interface_by_mac. */
    method GetInterfaceByMac(mac: string) returns (r: Option<int>)
      requires Valid()
      ensures r == PortOf(State(), portOrder, mac)
    {
      var n := State();
      var j := 0;
      while j < |portOrder|
        invariant 0 <= j <= |portOrder|
        invariant PortOf(n, portOrder, mac) == PortOf(n, portOrder[j..], mac)
      {
        var i := portOrder[j];
        var slot := ports[i];
        if slot.Some? && hosts[slot.value].mac == mac {
          return Some(i);
        }
        assert portOrder[j..][1..] == portOrder[j + 1..];
        j := j + 1;
      }
      return None;
    }

    /** SwitchFabric.forward_to_switch: a read-only lookup returning (src_interface, packet). */
    method ForwardToSwitch(f: Frame) returns (srcIface: int, out: Frame)
      requires Valid()
      ensures out == f
      ensures srcIface == SourceInterface(physicalMap, physOrder, f.src, f.dst)
    {
      out := f;
      srcIface := 0;
      if exists k :: k in physicalMap && physicalMap[k] == f.dst {
        var found := FindFirstKey(physicalMap, physOrder, f.src);
        if found.Some? {
          srcIface := found.value;
        }
      }
    }

    /**
     * The flood loop of handle_packet. The source re-evaluates get_interface_by_mac(src) for
     * every interface; the bindings do not change inside the loop, so it is passed in once.
     */
    method FloodFrame(f: Frame, srcPort: Option<int>)
      requires Valid()
      modifies this
      ensures Valid() && State() == ForwardAll(old(State()), FloodTargets(old(State()), old(portOrder), srcPort), f)
    {
      ghost var n0 := State();
      var k := 0;
      while k < |portOrder|
        invariant 0 <= k <= |portOrder|
        invariant Valid() && OnlyBuffersChange(n0, State())
        invariant State() == ForwardAll(n0, FloodTargets(n0, n0.portOrder[..k], srcPort), f)
      {
        var i := portOrder[k];
        assert n0.portOrder[..k + 1] == n0.portOrder[..k] + [i];
        var slot := ports[i];
        if slot.Some? && Some(hosts[slot.value].iface) != srcPort {
          ForwardToInterface(f, i);
        }
        k := k + 1;
      }
      assert n0.portOrder[..k] == n0.portOrder;
    }

    method HandlePacket(f: Frame)
      requires Valid()
      modifies this
      ensures Valid() && State() == Handle(old(State()), f)
    {
      if f.src !in macTable {
        var learned := GetInterfaceByMac(f.src);
        macTable := macTable[f.src := learned];
      }
      var dstPort := if f.dst in macTable then macTable[f.dst] else None;
      if dstPort.Some? {
        ForwardToInterface(f, dstPort.value);
      } else {
        var srcPort := GetInterfaceByMac(f.src);
        FloodFrame(f, srcPort);
      }
    }

    method SendPacket(h: HostId, dst: string, payload: string)
      requires Valid() && h in hosts
      modifies this
      ensures Valid() && State() == Send(old(State()), h, dst, payload)
    {
      HandlePacket(Frame(hosts[h].mac, dst, payload));
    }
  }
}
