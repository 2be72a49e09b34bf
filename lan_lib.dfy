/**
 * The packet records and the read-only fabric lookup shared by the two support
 * libraries (ee315_24_lib.py and task3/src/lib_final.py).
 */
module LanLib {
  import opened Wrappers
  import opened Seqs

  /** A host object, named by a key into the host tables of a network. */
  type HostId = nat

  /** The ValueError raised by every host constructor on a malformed MAC. */
  datatype MacError = InvalidMacAddressFormat

  /** ee315_24_lib.Packet: source MAC, destination MAC and an opaque payload. */
  datatype Frame = Frame(src: string, dst: string, payload: string)

  /**
   * lib_final.Packet: the same plus the IP addresses and a VLAN tag that defaults to 1.
   * IP addresses and payloads are opaque strings.
   */
  datatype Packet = Packet(src: string, dst: string, srcIp: string, dstIp: string,
                           payload: string, vlan: int := 1)

  /** A packet built without a VLAN tag belongs to VLAN 1; the other fields are kept as given. */
  lemma PacketDefaults(src: string, dst: string, srcIp: string, dstIp: string, payload: string)
    ensures var p := Packet(src, dst, srcIp, dstIp, payload);
      p.vlan == 1 && p.src == src && p.dst == dst && p.srcIp == srcIp &&
      p.dstIp == dstIp && p.payload == payload
  {
  }

  /**
   * The first key, in iteration order `order`, whose value in `m` is `mac`:
   * the `for interface, mac in physical_map.items(): if mac == ...: break` search.
   */
  function FirstKeyOf(m: map<int, string>, order: seq<int>, mac: string): (r: Option<int>)
    requires forall j :: 0 <= j < |order| ==> order[j] in m
    ensures r.Some? ==> r.value in order && m[r.value] == mac
    ensures r.Some? ==> exists j :: 0 <= j < |order| && order[j] == r.value &&
                                    forall i :: 0 <= i < j ==> m[order[i]] != mac
    ensures r.None? <==> forall j :: 0 <= j < |order| ==> m[order[j]] != mac
    decreases |order|
  {
    if order == [] then None
    else if m[order[0]] == mac then Some(order[0])
    else
      var r := FirstKeyOf(m, order[1..], mac);
      if r.Some? then
        ghost var j :| 0 <= j < |order[1..]| && order[1..][j] == r.value &&
                       forall i :: 0 <= i < j ==> m[order[1..][i]] != mac;
        assert order[j + 1] == r.value && forall i :: 0 <= i < j + 1 ==> m[order[i]] != mac;
        r
      else r
  }

  /** The loop of the search, proved against FirstKeyOf. */
  method FindFirstKey(m: map<int, string>, order: seq<int>, mac: string) returns (r: Option<int>)
    requires forall j :: 0 <= j < |order| ==> order[j] in m
    ensures r == FirstKeyOf(m, order, mac)
  {
    var j := 0;
    while j < |order|
      invariant 0 <= j <= |order|
      invariant FirstKeyOf(m, order, mac) == FirstKeyOf(m, order[j..], mac)
    {
      if m[order[j]] == mac {
        return Some(order[j]);
      }
      assert order[j..][1..] == order[j + 1..];
      j := j + 1;
    }
    return None;
  }

  /** `v in m.values()`. */
  predicate HasValue(m: map<int, string>, v: string) {
    exists k :: k in m && m[k] == v
  }

  /**
   * The interface `forward_to_switch` returns: the first interface mapped to `src`,
   * but only when `dst` is one of the mapped MACs; 0 otherwise.
   */
  function SourceInterface(m: map<int, string>, order: seq<int>, src: string, dst: string): (r: int)
    requires forall j :: 0 <= j < |order| ==> order[j] in m
    ensures r == 0 || (r in m && m[r] == src && HasValue(m, dst))
    ensures !HasValue(m, dst) ==> r == 0
  {
    if HasValue(m, dst) then FirstKeyOf(m, order, src).GetOr(0) else 0
  }

  /** forward_to_switch's result, for a physical map whose iteration order is `order`. */
  lemma SourceInterfaceCases(m: map<int, string>, order: seq<int>, src: string, dst: string)
    requires forall j :: 0 <= j < |order| ==> order[j] in m
    requires forall k :: k in m ==> k in order
    ensures !HasValue(m, dst) ==> SourceInterface(m, order, src, dst) == 0
    ensures (forall k :: k in m ==> m[k] != src) ==> SourceInterface(m, order, src, dst) == 0
    ensures HasValue(m, dst) && HasValue(m, src) ==>
      var r := SourceInterface(m, order, src, dst);
      r in m && m[r] == src &&
      exists j :: 0 <= j < |order| && order[j] == r && forall i :: 0 <= i < j ==> m[order[i]] != src
  {
    if HasValue(m, dst) && HasValue(m, src) {
      var k :| k in m && m[k] == src;
      assert k in order;
    }
  }

  /** `order` is the iteration order of a dict with the keys of `m`: each key once. */
  predicate ListsKeys<V>(m: map<int, V>, order: seq<int>) {
    && Distinct(order)
    && (forall j :: 0 <= j < |order| ==> order[j] in m)
    && (forall i :: i in m ==> i in order)
  }

  /** Key order after `d[i] = v`: an existing key keeps its place, a new key goes last. */
  function OrderAfterSet<V>(m: map<int, V>, order: seq<int>, i: int): seq<int> {
    if i in m then order else order + [i]
  }

  lemma ListsKeysAfterSet<V>(m: map<int, V>, order: seq<int>, i: int, v: V)
    requires ListsKeys(m, order)
    ensures ListsKeys(m[i := v], OrderAfterSet(m, order, i))
  {
    if i !in m {
      DistinctAppend(order, i);
    }
  }

  /** `{i: None for i in keys}`. */
  function NoneFor<T>(keys: seq<int>): (m: map<int, Option<T>>)
    ensures forall i :: i in m <==> i in keys
    ensures forall i :: i in m ==> m[i] == None
  {
    if keys == [] then map[] else NoneFor(keys[1..])[keys[0] := None]
  }

  /** The switch's initial interface dict `{i: None for i in range(count)}` and its key order. */
  lemma RangeListsKeys<T>(count: int)
    ensures ListsKeys(NoneFor<T>(Range(0, count)), Range(0, count))
  {
  }
}
