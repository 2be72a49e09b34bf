/**
 * The bus of task3/src/lib_final.py carrying VLAN-tagged packets to the hosts of
 * task3/src/Sim_LAN1225.py. It fans out like the bus of ee315_24_lib.py, but each
 * host applies the VLAN receive filter.
 */
module VlanBus {
  import opened Wrappers
  import opened Seqs
  import opened LanLib
  import opened VlanHost

  /** Every host's attributes and buffer, and Bus.hosts in connection order. */
  datatype Net = Net(hosts: map<HostId, HostInfo>, buffers: map<HostId, seq<Packet>>, members: seq<HostId>)

  predicate WellFormed(n: Net) {
    && n.hosts.Keys == n.buffers.Keys
    && forall j :: 0 <= j < |n.members| ==> n.members[j] in n.hosts
  }

  /** Host.receive_packet. */
  function Receive(n: Net, h: HostId, p: Packet): (n': Net)
    requires WellFormed(n) && h in n.hosts
    ensures WellFormed(n') && n'.hosts == n.hosts && n'.members == n.members
    ensures n'.buffers == n.buffers[h := Deliver(n.buffers[h], n.hosts[h], p)]
  {
    n.(buffers := n.buffers[h := Deliver(n.buffers[h], n.hosts[h], p)])
  }

  /** Bus.connect_host: append to the member list. */
  function Connect(n: Net, h: HostId): (n': Net)
    requires WellFormed(n) && h in n.hosts
    ensures WellFormed(n')
    ensures |n'.members| == |n.members| + 1 && n'.members[..|n.members|] == n.members
    ensures n'.members[|n.members|] == h
    ensures n'.hosts == n.hosts && n'.buffers == n.buffers
  {
    n.(members := n.members + [h])
  }

  /** Bus.broadcast over the first members `ms`: every entry whose MAC is not the source's gets the packet. */
  function BroadcastTo(n: Net, ms: seq<HostId>, p: Packet): (n': Net)
    requires WellFormed(n)
    requires forall j :: 0 <= j < |ms| ==> ms[j] in n.hosts
    ensures WellFormed(n') && n'.hosts == n.hosts && n'.members == n.members
    ensures n'.buffers.Keys == n.buffers.Keys
    decreases |ms|
  {
    if ms == [] then n
    else
      var rest := BroadcastTo(n, ms[..|ms| - 1], p);
      var h := ms[|ms| - 1];
      if rest.hosts[h].mac != p.src then Receive(rest, h, p) else rest
  }

  /**
   * Bus.broadcast over the whole member list: only buffers change, and each host gains one
   * copy per entry for it in the list when its MAC is not the source's and its filter admits
   * the packet.
   */
  function BusBroadcast(n: Net, p: Packet): (n': Net)
    requires WellFormed(n)
    ensures WellFormed(n') && n'.hosts == n.hosts && n'.members == n.members
    ensures n'.buffers.Keys == n.buffers.Keys
    ensures forall h {:trigger n'.buffers[h]} :: h in n.hosts ==>
      n'.buffers[h] == n.buffers[h] +
        (if n.hosts[h].mac != p.src && Accepts(n.hosts[h], p) then Repeat(p, Count(n.members, h)) else [])
  {
    BroadcastInboxAll(n, n.members, p);
    BroadcastTo(n, n.members, p)
  }

  /**
   * What a broadcast leaves in one host's buffer: one copy per occurrence of the host in
   * the member list when its MAC is not the source's and its filter admits the packet.
   */
  lemma {:induction false} BroadcastInbox(n: Net, ms: seq<HostId>, p: Packet, h: HostId)
    requires WellFormed(n) && h in n.hosts
    requires forall j :: 0 <= j < |ms| ==> ms[j] in n.hosts
    ensures BroadcastTo(n, ms, p).buffers[h] ==
      n.buffers[h] + (if n.hosts[h].mac != p.src && Accepts(n.hosts[h], p) then Repeat(p, Count(ms, h)) else [])
    decreases |ms|
  {
    if ms != [] {
      var init := ms[..|ms| - 1];
      BroadcastInbox(n, init, p, h);
      assert ms == init + [ms[|ms| - 1]];
    }
  }

  /** BroadcastInbox for every host at once. */
  lemma BroadcastInboxAll(n: Net, ms: seq<HostId>, p: Packet)
    requires WellFormed(n)
    requires forall j :: 0 <= j < |ms| ==> ms[j] in n.hosts
    ensures forall h :: h in n.hosts ==>
      BroadcastTo(n, ms, p).buffers[h] == n.buffers[h] +
        (if n.hosts[h].mac != p.src && Accepts(n.hosts[h], p) then Repeat(p, Count(ms, h)) else [])
  {
    forall h | h in n.hosts
      ensures BroadcastTo(n, ms, p).buffers[h] == n.buffers[h] +
        (if n.hosts[h].mac != p.src && Accepts(n.hosts[h], p) then Repeat(p, Count(ms, h)) else [])
    {
      BroadcastInbox(n, ms, p, h);
    }
  }

  /** The bus, the hosts on it and their buffers. */
  class VlanBusNetwork {
    var hosts: map<HostId, HostInfo>
    var buffers: map<HostId, seq<Packet>>
    var members: seq<HostId>
    var nextId: HostId

    function State(): Net
      reads this
    {
      Net(hosts, buffers, members)
    }

    predicate Valid()
      reads this
    {
      WellFormed(State()) && forall h :: h in hosts ==> h < nextId
    }

    /** Bus.__init__: no hosts connected. */
    constructor ()
      ensures Valid() && State() == Net(map[], map[], [])
    {
      hosts, buffers, members, nextId := map[], map[], [], 0;
    }

    /** Host(mac, interface, vlan_id, ip_address): a fresh host with an empty buffer, or the ValueError. */
    method NewBusHost(mac: string, iface: int, vlan: int := 1, ip: string := "0.0.0.0")
      returns (r: Result<HostId, MacError>)
      requires Valid()
      modifies this
      ensures Valid()
      ensures r.Success? <==> NewHost(mac, iface, vlan, ip).Success?
      ensures r.Failure? ==> State() == old(State())
      ensures r.Success? ==> r.value !in old(hosts)
      ensures r.Success? ==> State() == old(State()).(hosts := old(hosts)[r.value := HostInfo(mac, iface, vlan, ip)],
                                                      buffers := old(buffers)[r.value := []])
    {
      var checked := NewHost(mac, iface, vlan, ip);
      if checked.Failure? {
        return Failure(checked.error);
      }
      var h := nextId;
      hosts := hosts[h := checked.value];
      buffers := buffers[h := []];
      nextId := nextId + 1;
      return Success(h);
    }

    method ConnectHost(h: HostId)
      requires Valid() && h in hosts
      modifies this
      ensures Valid() && State() == Connect(old(State()), h)
    {
      members := members + [h];
    }

    method ReceivePacket(h: HostId, p: Packet)
      requires Valid() && h in hosts
      modifies this
      ensures Valid() && State() == Receive(old(State()), h, p)
    {
      var host := hosts[h];
      if (p.dst == host.mac || p.dst == MacAddress.BroadcastMac) && p.vlan == host.vlan {
        buffers := buffers[h := buffers[h] + [p]];
      }
    }

    method Broadcast(p: Packet)
      requires Valid()
      modifies this
      ensures Valid() && State() == BusBroadcast(old(State()), p)
    {
      ghost var n0 := State();
      var k := 0;
      while k < |members|
        invariant 0 <= k <= |members| && members == n0.members
        invariant Valid() && State() == BroadcastTo(n0, n0.members[..k], p)
      {
        var h := members[k];
        assert n0.members[..k + 1] == n0.members[..k] + [h];
        if hosts[h].mac != p.src {
          ReceivePacket(h, p);
        }
        k := k + 1;
      }
      assert n0.members[..k] == n0.members;
    }
  }
}
