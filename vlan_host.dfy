/**
 * The VLAN-aware host of task3/src/Sim_LAN1225.py: a MAC, an interface number, a VLAN
 * and an IP address, and a receive filter that also admits the broadcast sentinel.
 */
module VlanHost {
  import opened Wrappers
  import opened MacAddress
  import opened LanLib

  /** A host's attributes. */
  datatype HostInfo = HostInfo(mac: string, iface: int, vlan: int, ip: string)

  /** Host(mac, interface, vlan_id=1, ip_address="0.0.0.0"). */
  function NewHost(mac: string, iface: int, vlan: int := 1, ip: string := "0.0.0.0"): (r: Result<HostInfo, MacError>)
    ensures r.Success? <==> ValidMac(mac)
    ensures r.Success? ==> r.value.mac == mac && r.value.iface == iface && r.value.vlan == vlan && r.value.ip == ip
    ensures r.Failure? ==> r.error == InvalidMacAddressFormat
  {
    if ValidMac(mac) then Success(HostInfo(mac, iface, vlan, ip)) else Failure(InvalidMacAddressFormat)
  }

  /** A host created without a VLAN or an address is in VLAN 1 with address 0.0.0.0. */
  lemma NewHostDefaults(mac: string, iface: int)
    requires ValidMac(mac)
    ensures NewHost(mac, iface) == Success(HostInfo(mac, iface, 1, "0.0.0.0"))
  {
  }

  /**
   * The receive filter: addressed to the host or to the sentinel, and tagged with the host's
   * VLAN. A packet tagged with another VLAN is refused whatever its address; the sentinel is
   * admitted by every host of the packet's VLAN, whatever its own MAC.
   */
  predicate Accepts(h: HostInfo, p: Packet)
    ensures p.vlan != h.vlan ==> !Accepts(h, p)
    ensures p.vlan == h.vlan && p.dst == BroadcastMac ==> Accepts(h, p)
    ensures p.vlan == h.vlan && p.dst != BroadcastMac ==> (Accepts(h, p) <==> p.dst == h.mac)
  {
    (p.dst == h.mac || p.dst == BroadcastMac) && p.vlan == h.vlan
  }

  /** Host.receive_packet on one buffer: append the packet when the filter admits it. */
  function Deliver(buffer: seq<Packet>, h: HostInfo, p: Packet): (b: seq<Packet>)
    ensures |buffer| <= |b| <= |buffer| + 1 && b[..|buffer|] == buffer
    ensures |b| == |buffer| + 1 <==> Accepts(h, p)
    ensures |b| == |buffer| + 1 ==> b[|buffer|] == p
  {
    if Accepts(h, p) then buffer + [p] else buffer
  }
}
