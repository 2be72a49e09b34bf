/**
 * A shared broadcast bus (ee315_24_lib.Bus) with the hosts of skeleton_bus.py
 * (the same Host class appears again in task_1_2/skeleton_bus.py).
 *
 * Host objects are named by HostId; their MACs and receive buffers are kept in
 * tables of the one BusNetwork object, so a host connected twice is one HostId
 * that occurs twice in the member list, as in Python.
 */
module BusLan {
  import opened Wrappers
  import opened Seqs
  import opened MacAddress
  import opened LanLib

  /** The whole simulation: every host's MAC and buffer, and Bus.hosts in connection order. */
  datatype Net = Net(macs: map<HostId, string>, buffers: map<HostId, seq<Frame>>, members: seq<HostId>)

  predicate WellFormed(n: Net) {
    && n.macs.Keys == n.buffers.Keys
    && forall j :: 0 <= j < |n.members| ==> n.members[j] in n.macs
  }

  /** Host.__init__: the MAC is checked, then stored unchanged. */
  function NewHost(mac: string): (r: Result<string, MacError>)
    ensures r.Success? <==> ValidMac(mac)
    ensures r.Success? ==> r.value == mac
    ensures r.Failure? ==> r.error == InvalidMacAddressFormat
  {
    if ValidMac(mac) then Success(mac) else Failure(InvalidMacAddressFormat)
  }

  /**
   * The receive filter: only frames addressed exactly to the host's MAC. Unlike the VLAN
   * host, a bus host has no broadcast address: the sentinel reaches only a host that has it
   * as its own MAC.
   */
  predicate Accepts(mac: string, f: Frame)
    ensures f.dst == BroadcastMac ==> (Accepts(mac, f) <==> mac == BroadcastMac)
    ensures mac != f.dst ==> !Accepts(mac, f)
  {
    f.dst == mac
  }

  /** Host.receive_packet. */
  function Receive(n: Net, h: HostId, f: Frame): (n': Net)
    requires WellFormed(n) && h in n.macs
    ensures WellFormed(n') && n'.macs == n.macs && n'.members == n.members
    ensures n'.buffers.Keys == n.buffers.Keys
    ensures n'.buffers[h] == if Accepts(n.macs[h], f) then n.buffers[h] + [f] else n.buffers[h]
    ensures forall g :: g in n.buffers && g != h ==> n'.buffers[g] == n.buffers[g]
  {
    if Accepts(n.macs[h], f) then n.(buffers := n.buffers[h := n.buffers[h] + [f]]) else n
  }

  /** Bus.connect_host: append to the member list. */
  function Connect(n: Net, h: HostId): (n': Net)
    requires WellFormed(n) && h in n.macs
    ensures WellFormed(n')
    ensures |n'.members| == |n.members| + 1 && n'.members[..|n.members|] == n.members
    ensures n'.members[|n.members|] == h
    ensures n'.macs == n.macs && n'.buffers == n.buffers
  {
    n.(members := n.members + [h])
  }

  /** Bus.broadcast over the first members `ms`: every entry whose MAC is not the source's gets the frame. */
  function BroadcastTo(n: Net, ms: seq<HostId>, f: Frame): (n': Net)
    requires WellFormed(n)
    requires forall j :: 0 <= j < |ms| ==> ms[j] in n.macs
    ensures WellFormed(n') && n'.macs == n.macs && n'.members == n.members
    ensures n'.buffers.Keys == n.buffers.Keys
    decreases |ms|
  {
    if ms == [] then n
    else
      var rest := BroadcastTo(n, ms[..|ms| - 1], f);
      var h := ms[|ms| - 1];
      if rest.macs[h] != f.src then Receive(rest, h, f) else rest
  }

  /**
   * Bus.broadcast over the whole member list: only buffers change, and each host gains one
   * copy per entry for it in the list when its MAC is not the source's and is the destination.
   */
  function BusBroadcast(n: Net, f: Frame): (n': Net)
    requires WellFormed(n)
    ensures WellFormed(n') && n'.macs == n.macs && n'.members == n.members
    ensures n'.buffers.Keys == n.buffers.Keys
    ensures forall h {:trigger n'.buffers[h]} :: h in n.macs ==>
      n'.buffers[h] == n.buffers[h] +
        (if n.macs[h] != f.src && Accepts(n.macs[h], f) then Repeat(f, Count(n.members, h)) else [])
  {
    BroadcastInboxAll(n, n.members, f);
    BroadcastTo(n, n.members, f)
  }

  /**
   * Host.send_packet: a frame from the host's own MAC, handed once to the bus. The sender
   * never hears itself, and no host whose MAC is not the destination gains anything.
   */
  function Send(n: Net, h: HostId, dst: string, payload: string): (n': Net)
    requires WellFormed(n) && h in n.macs
    ensures WellFormed(n') && n'.macs == n.macs && n'.members == n.members
    ensures n'.buffers[h] == n.buffers[h]
    ensures forall g {:trigger n'.buffers[g]} :: g in n.macs && (n.macs[g] == n.macs[h] || n.macs[g] != dst) ==> n'.buffers[g] == n.buffers[g]
  {
    BusBroadcast(n, Frame(n.macs[h], dst, payload))
  }

  /**
   * What a broadcast leaves in one host's buffer: one copy per occurrence of the host
   * in the member list, when its MAC is not the source's and is exactly the destination;
   * otherwise nothing.
   */
  lemma {:induction false} BroadcastInbox(n: Net, ms: seq<HostId>, f: Frame, h: HostId)
    requires WellFormed(n) && h in n.macs
    requires forall j :: 0 <= j < |ms| ==> ms[j] in n.macs
    ensures BroadcastTo(n, ms, f).buffers[h] ==
      n.buffers[h] + (if n.macs[h] != f.src && Accepts(n.macs[h], f) then Repeat(f, Count(ms, h)) else [])
    decreases |ms|
  {
    if ms != [] {
      var init := ms[..|ms| - 1];
      BroadcastInbox(n, init, f, h);
      assert ms == init + [ms[|ms| - 1]];
    }
  }

  /** BroadcastInbox for every host at once. */
  lemma BroadcastInboxAll(n: Net, ms: seq<HostId>, f: Frame)
    requires WellFormed(n)
    requires forall j :: 0 <= j < |ms| ==> ms[j] in n.macs
    ensures forall h :: h in n.macs ==>
      BroadcastTo(n, ms, f).buffers[h] == n.buffers[h] +
        (if n.macs[h] != f.src && Accepts(n.macs[h], f) then Repeat(f, Count(ms, h)) else [])
  {
    forall h | h in n.macs
      ensures BroadcastTo(n, ms, f).buffers[h] ==
        n.buffers[h] + (if n.macs[h] != f.src && Accepts(n.macs[h], f) then Repeat(f, Count(ms, h)) else [])
    {
      BroadcastInbox(n, ms, f, h);
    }
  }

  /**
   * Sending over the bus: the sender, and every host sharing its MAC, keeps its buffer;
   * a host with another MAC whose MAC is the destination gains one copy per bus entry for it
   * (none if it is not connected), and every other host gains nothing.
   */
  lemma SendDelivers(n: Net, s: HostId, dst: string, payload: string, h: HostId)
    requires WellFormed(n) && s in n.macs && h in n.macs
    ensures var f := Frame(n.macs[s], dst, payload);
      var b := Send(n, s, dst, payload).buffers[h];
      && (n.macs[h] == n.macs[s] ==> b == n.buffers[h])
      && (n.macs[h] != n.macs[s] && dst == n.macs[h] ==> b == n.buffers[h] + Repeat(f, Count(n.members, h)))
      && (dst != n.macs[h] ==> b == n.buffers[h])
  {
    BroadcastInbox(n, n.members, Frame(n.macs[s], dst, payload), h);
  }

  /** Three hosts with distinct MACs on a bus, in connection order; the first sends to the second. */
  lemma ThreeHosts(x: HostId, y: HostId, z: HostId, a: string, b: string, c: string, payload: string)
    requires x != y && y != z && x != z && a != b && b != c && a != c
    ensures var n := Net(map[x := a, y := b, z := c], map[x := [], y := [], z := []], [x, y, z]);
      var bufs := Send(n, x, b, payload).buffers;
      bufs.Keys == {x, y, z} && bufs[x] == [] && bufs[y] == [Frame(a, b, payload)] && bufs[z] == []
  {
    var n := Net(map[x := a, y := b, z := c], map[x := [], y := [], z := []], [x, y, z]);
    assert Count(n.members, y) == 1 by {
      assert n.members[..2] == [x, y] && [x, y][..1] == [x];
    }
  }

  /** The example of skeleton_bus.py: only host 2 receives host 1's packet, exactly once. */
  lemma ThreeHostExample()
    ensures var a, b, c := "00:00:00:00:00:01", "00:00:00:00:00:02", "00:00:00:00:00:03";
      var n := Net(map[1 := a, 2 := b, 3 := c], map[1 := [], 2 := [], 3 := []], [1, 2, 3]);
      var n' := Send(n, 1, b, "Hello from host1");
      n'.buffers == map[1 := [], 2 := [Frame(a, b, "Hello from host1")], 3 := []]
  {
    var a, b, c := "00:00:00:00:00:01", "00:00:00:00:00:02", "00:00:00:00:00:03";
    assert a[16] != b[16] && b[16] != c[16] && a[16] != c[16];
    ThreeHosts(1, 2, 3, a, b, c, "Hello from host1");
  }

  /** The bus, its hosts and their buffers. */
  class BusNetwork {
    var macs: map<HostId, string>
    var buffers: map<HostId, seq<Frame>>
    var members: seq<HostId>
    var nextId: HostId

    function State(): Net
      reads this
    {
      Net(macs, buffers, members)
    }

    predicate Valid()
      reads this
    {
      WellFormed(State()) && forall h :: h in macs ==> h < nextId
    }

    /** Bus.__init__: no hosts connected (and none created yet). */
    constructor ()
      ensures Valid() && State() == Net(map[], map[], [])
    {
      macs, buffers, members, nextId := map[], map[], [], 0;
    }

    /** Host(mac): a fresh host with an empty buffer, or the ValueError. */
    method NewBusHost(mac: string) returns (r: Result<HostId, MacError>)
      requires Valid()
      modifies this
      ensures Valid()
      ensures r.Success? <==> NewHost(mac).Success?
      ensures r.Failure? ==> State() == old(State())
      ensures r.Success? ==> r.value !in old(macs)
      ensures r.Success? ==>
        State() == old(State()).(macs := old(macs)[r.value := mac], buffers := old(buffers)[r.value := []])
    {
      var checked := NewHost(mac);
      if checked.Failure? {
        return Failure(checked.error);
      }
      var h := nextId;
      macs := macs[h := checked.value];
      buffers := buffers[h := []];
      nextId := nextId + 1;
      return Success(h);
    }

    method ConnectHost(h: HostId)
      requires Valid() && h in macs
      modifies this
      ensures Valid() && State() == Connect(old(State()), h)
    {
      members := members + [h];
    }

    method ReceivePacket(h: HostId, f: Frame)
      requires Valid() && h in macs
      modifies this
      ensures Valid() && State() == Receive(old(State()), h, f)
    {
      if f.dst == macs[h] {
        buffers := buffers[h := buffers[h] + [f]];
      }
    }

    method Broadcast(f: Frame)
      requires Valid()
      modifies this
      ensures Valid() && State() == BusBroadcast(old(State()), f)
    {
      ghost var n0 := State();
      var k := 0;
      while k < |members|
        invariant 0 <= k <= |members| && members == n0.members
        invariant Valid() && State() == BroadcastTo(n0, n0.members[..k], f)
      {
        var h := members[k];
        assert n0.members[..k + 1] == n0.members[..k] + [h];
        if macs[h] != f.src {
          ReceivePacket(h, f);
        }
        k := k + 1;
      }
      assert n0.members[..k] == n0.members;
    }

    method SendPacket(h: HostId, dst: string, payload: string)
      requires Valid() && h in macs
      modifies this
      ensures Valid() && State() == Send(old(State()), h, dst, payload)
    {
      var f := Frame(macs[h], dst, payload);
      Broadcast(f);
    }
  }
}
