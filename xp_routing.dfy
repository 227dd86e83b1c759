/** The L3 manager of the XPliant plugin: host entries with their id free
    list, next-hop groups, the route-action dispatch and the ECMP hash
    mask. SDK calls are oracle parameters. */
module XpRouting {
  import opened Common
  import XpUtil

  // ---------------------------------------------------------------------
  // ECMP hashing.

  /** The four ECMP hash selectors of the switch daemon. */
  datatype EcmpField = SrcPort | DstPort | SrcIp | DstIp

  /** Header fields handed to xpsL3SetHashFields. */
  datatype XpHashField =
    | STagTpid | STagVid
    | UdpSrcPort | TcpSrcPort | UdpDstPort | TcpDstPort
    | Ipv4SrcIp | Ipv4DstIp

  const ALL_ECMP_FIELDS: set<EcmpField> := {SrcPort, DstPort, SrcIp, DstIp}

  /** What `ops_xp_routing_ecmp_hash_set` does before the SDK call: it
      refuses to disable a port selector, or both IP selectors in one call,
      with EFAULT; otherwise the mask gains or loses the requested
      selectors. */
  function EcmpUpdate(mask: set<EcmpField>, h: set<EcmpField>, enable: bool): (r: (int, set<EcmpField>))
    ensures r.0 == OK || r.0 == EFAULT
    ensures r.0 == EFAULT <==> !enable && (SrcPort in h || DstPort in h || (SrcIp in h && DstIp in h))
    ensures r.0 == EFAULT ==> r.1 == mask
    ensures r.0 == OK ==> forall f :: f in r.1 <==> (if enable then f in mask || f in h else f in mask && f !in h)
  {
    if !enable && (SrcPort in h || DstPort in h) then (EFAULT, mask)
    else if !enable && SrcIp in h && DstIp in h then (EFAULT, mask)
    else (OK, if enable then mask + h else mask - h)
  }

  /** No call can stop hashing on the L4 ports once they are in the mask. */
  lemma PortsStayHashed(mask: set<EcmpField>, h: set<EcmpField>, enable: bool)
    requires SrcPort in mask && DstPort in mask
    ensures SrcPort in EcmpUpdate(mask, h, enable).1 && DstPort in EcmpUpdate(mask, h, enable).1
  {
  }

  /** The both-IPs check is per call: disabling SrcIp and then DstIp in
      two calls leaves no IP selector. */
  lemma IpsCanBeDisabledInTwoCalls()
    ensures var m1 := EcmpUpdate(ALL_ECMP_FIELDS, {SrcIp}, false);
            var m2 := EcmpUpdate(m1.1, {DstIp}, false);
            m1.0 == OK && m2.0 == OK && SrcIp !in m2.1 && DstIp !in m2.1
  {
  }

  /** The field list built for a mask: the two S-tag fields first, then the
      UDP/TCP ports and IPv4 addresses the mask selects. */
  function HashFieldsFor(mask: set<EcmpField>): (r: seq<XpHashField>)
    ensures |r| >= 2 && r[0] == STagTpid && r[1] == STagVid
    ensures (UdpSrcPort in r <==> SrcPort in mask) && (TcpSrcPort in r <==> SrcPort in mask)
    ensures (UdpDstPort in r <==> DstPort in mask) && (TcpDstPort in r <==> DstPort in mask)
    ensures (Ipv4SrcIp in r <==> SrcIp in mask) && (Ipv4DstIp in r <==> DstIp in mask)
    ensures |r| <= 8
  {
    [STagTpid, STagVid] + PortHashFields(mask) + IpHashFields(mask)
  }

  /** The UDP and TCP port fields the mask selects. */
  function PortHashFields(mask: set<EcmpField>): (r: seq<XpHashField>)
    ensures (UdpSrcPort in r <==> SrcPort in mask) && (TcpSrcPort in r <==> SrcPort in mask)
    ensures (UdpDstPort in r <==> DstPort in mask) && (TcpDstPort in r <==> DstPort in mask)
    ensures STagTpid !in r && STagVid !in r && Ipv4SrcIp !in r && Ipv4DstIp !in r
    ensures |r| <= 4
  {
    (if SrcPort in mask then [UdpSrcPort, TcpSrcPort] else [])
    + (if DstPort in mask then [UdpDstPort, TcpDstPort] else [])
  }

  /** The IPv4 address fields the mask selects. */
  function IpHashFields(mask: set<EcmpField>): (r: seq<XpHashField>)
    ensures (Ipv4SrcIp in r <==> SrcIp in mask) && (Ipv4DstIp in r <==> DstIp in mask)
    ensures STagTpid !in r && STagVid !in r
    ensures UdpSrcPort !in r && TcpSrcPort !in r && UdpDstPort !in r && TcpDstPort !in r
    ensures |r| <= 2
  {
    (if SrcIp in mask then [Ipv4SrcIp] else []) + (if DstIp in mask then [Ipv4DstIp] else [])
  }

  // ---------------------------------------------------------------------
  // Next-hop groups.

  /** One next hop of a group: its name and its hardware next-hop id. */
  datatype NhEntry = NhEntry(id: string, xpNhId: nat, isPort: bool)

  /** A next-hop group: a block of hardware next hops starting at `nhId`. */
  class NhGroup {
    const nhId: nat
    var size: nat
    var nhs: seq<NhEntry>

    /** Member k of the group has hardware id nhId + k. */
    ghost predicate Valid()
      reads this
    {
      |nhs| <= size && forall k :: 0 <= k < |nhs| ==> nhs[k].xpNhId == nhId + k
    }

    constructor (id: nat, n: nat)
      ensures Valid() && nhId == id && size == n && nhs == []
    {
      nhId := id;
      size := n;
      nhs := [];
    }

    /** `nh_insert`: the next hop receives hardware id nhId plus the number
        of members already present, and the size grows to cover the count. */
    method Insert(nh: NhEntry)
      requires Valid()
      modifies this
      ensures Valid()
      ensures nhs == old(nhs) + [nh.(xpNhId := nhId + |old(nhs)|)]
      ensures size == if |old(nhs)| + 1 > old(size) then |old(nhs)| + 1 else old(size)
    {
      var inserted := nh.(xpNhId := nhId + |nhs|);
      nhs := nhs + [inserted];
      if |nhs| > size {
        size := |nhs|;
      }
    }
  }

  /** In a valid group the hardware ids are pairwise distinct and lie in
      the block [nhId, nhId + size). */
  lemma GroupIdsDistinct(g: NhGroup)
    requires g.Valid()
    ensures forall i, j :: 0 <= i < j < |g.nhs| ==> g.nhs[i].xpNhId != g.nhs[j].xpNhId
    ensures forall i :: 0 <= i < |g.nhs| ==> g.nhId <= g.nhs[i].xpNhId < g.nhId + g.size
  {
  }

  /** `nh_group_alloc`: no group for a size above the per-route maximum
      (OFPROTO_MAX_NH_PER_ROUTE, a parameter here) or when the SDK refuses
      to allocate a block; otherwise an empty group on the SDK's block. */
  method NhGroupAlloc(size: nat, maxNhPerRoute: nat, hwOk: bool, hwNhId: nat) returns (g: NhGroup?)
    ensures (size > maxNhPerRoute || !hwOk) <==> g == null
    ensures g != null ==> fresh(g) && g.Valid() && g.size == size && g.nhId == hwNhId && g.nhs == []
  {
    if size > maxNhPerRoute {
      return null;
    }
    if !hwOk {
      return null;
    }
    g := new NhGroup(hwNhId, size);
  }

  // ---------------------------------------------------------------------
  // Routes.

  datatype RouteAction = RouteAdd | RouteDelete | RouteDeleteNh | RouteUnknown

  /** A next hop of a switch-daemon route, with the status fields the
      plugin writes back: `rc` and the errno `err_str` describes. */
  datatype RouteNexthop = RouteNexthop(id: string, rc: int, errStr: Option<int>)

  /** `update_nexthop_error`: stamps every next hop with the code. */
  method UpdateNexthopError(retCode: int, nexthops: array<RouteNexthop>)
    modifies nexthops
    ensures forall i :: 0 <= i < nexthops.Length ==>
              nexthops[i] == old(nexthops[i]).(rc := retCode, errStr := Some(retCode))
  {
    var i := 0;
    while i < nexthops.Length
      invariant 0 <= i <= nexthops.Length
      invariant forall k :: 0 <= k < i ==> nexthops[k] == old(nexthops[k]).(rc := retCode, errStr := Some(retCode))
      invariant forall k :: i <= k < nexthops.Length ==> nexthops[k] == old(nexthops[k])
    {
      nexthops[i] := nexthops[i].(rc := retCode, errStr := Some(retCode));
      i := i + 1;
    }
  }

  // ---------------------------------------------------------------------
  // Host entries.

  /** An L3 host entry: its immutable id, its hardware index, and what the
      next hop is (the MAC in the SDK's reversed order; zeros when the MAC
      text did not parse or the host is local). */
  datatype HostEntry = HostEntry(id: nat, index: nat, isIpv6: bool, local: bool,
                                 l3Intf: int, egressIntf: int, vid: int, macDa: seq<byte>)

  const ZERO_MAC: seq<byte> := [0, 0, 0, 0, 0, 0]

  class L3Mgr {
    /** `dummy_host_list`: recycled entries, front first, by id. */
    var freeList: seq<nat>
    var nextHostId: nat
    /** `host_map`: hardware index to host id. */
    var hostMap: map<nat, nat>
    /** `host_id_map`: host id to entry. */
    var hosts: map<nat, HostEntry>
    /** `route_map`: prefix to reference count. */
    var routes: map<string, nat>
    var ecmpHash: set<EcmpField>

    /** Every host id ever handed out is below `next_host_id`, and each is
        either live or waiting in the free list, never both, never twice. */
    ghost predicate Valid()
      reads this
    {
      && Distinct(freeList)
      && (forall k :: 0 <= k < |freeList| ==> freeList[k] < nextHostId && freeList[k] !in hosts)
      && (forall id :: id in hosts ==> id < nextHostId && hosts[id].id == id)
      && (forall p :: p in routes ==> routes[p] >= 1)
    }

    /** `ops_xp_l3_mgr_create`. */
    constructor ()
      ensures Valid()
      ensures freeList == [] && nextHostId == 0 && hostMap == map[] && hosts == map[] && routes == map[]
      ensures ecmpHash == ALL_ECMP_FIELDS
    {
      freeList := [];
      nextHostId := 0;
      hostMap := map[];
      hosts := map[];
      routes := map[];
      ecmpHash := {SrcPort, DstPort, SrcIp, DstIp};
    }

    /** The id `host_entry_alloc` hands out next. */
    function NextId(): nat
      reads this
    {
      if freeList == [] then nextHostId else freeList[0]
    }

    /** `host_entry_alloc`: the head of the free list, or a fresh id. */
    method HostEntryAlloc() returns (id: nat)
      requires Valid()
      modifies `freeList, `nextHostId
      ensures id == old(NextId())
      ensures old(freeList) == [] ==> freeList == [] && nextHostId == old(nextHostId) + 1
      ensures old(freeList) != [] ==> freeList == old(freeList[1..]) && nextHostId == old(nextHostId)
      ensures id < nextHostId && id !in hosts && id !in freeList
      ensures Distinct(freeList) && forall k :: 0 <= k < |freeList| ==> freeList[k] < nextHostId && freeList[k] !in hosts
    {
      if freeList == [] {
        id := nextHostId;
        nextHostId := nextHostId + 1;
      } else {
        id := freeList[0];
        freeList := freeList[1..];
      }
    }

    /** `host_entry_free`: the id goes back to the front of the free list. */
    method HostEntryFree(id: nat)
      modifies `freeList
      ensures freeList == [id] + old(freeList)
    {
      freeList := [id] + freeList;
    }

    /** `ops_xp_routing_add_host_entry`. `addrOk` is the verdict of the
        address parser on `ip`, `hwOk` that of the SDK add, which reports
        the index `hash` and, if it relocated an entry, `rehash`;
        `nhMac` is the parsed next-hop MAC when it parsed. */
    method AddHostEntry(portIntf: int, isIpv6: bool, ip: string, nhMac: Option<seq<byte>>,
                        l3Intf: int, vid: int, local: bool, addrOk: bool, hwOk: bool,
                        hash: nat, rehash: nat) returns (rc: int, egressId: int)
      requires Valid()
      requires nhMac.Some? ==> |nhMac.value| == 6
      modifies this
      ensures Valid()
      ensures var family := if isIpv6 then XpUtil.AF_INET6 else XpUtil.AF_INET;
              && (rc == EPFNOSUPPORT <==> XpUtil.StringToPrefix(family, ip, addrOk).0 != OK)
              && (rc == EAGAIN <==> XpUtil.StringToPrefix(family, ip, addrOk).0 == OK && !hwOk)
              && (rc == OK || rc == EPFNOSUPPORT || rc == EAGAIN)
      ensures rc != OK ==>
                && hosts == old(hosts) && hostMap == old(hostMap)
                && freeList == [old(NextId())] + old(if freeList == [] then [] else freeList[1..])
                && nextHostId == old(if freeList == [] then nextHostId + 1 else nextHostId)
      ensures rc == OK ==>
                && egressId == old(NextId()) && old(NextId()) !in old(hosts)
                && hosts.Keys == old(hosts.Keys) + {egressId as nat}
                && hosts[egressId as nat].index == hash
                && (forall id :: id in old(hosts) && id != egressId ==>
                      hosts[id] == (if hash != rehash && hash in old(hostMap) && old(hostMap)[hash] == id
                                    then old(hosts)[id].(index := rehash) else old(hosts)[id]))
                && hash in hostMap && hostMap[hash] == egressId
                && freeList == old(if freeList == [] then [] else freeList[1..])
      ensures routes == old(routes) && ecmpHash == old(ecmpHash)
    {
      var id := HostEntryAlloc();
      var macDa := ZERO_MAC;
      if !local && nhMac.Some? {
        macDa := Reverse(nhMac.value);
      }
      var family := if isIpv6 then XpUtil.AF_INET6 else XpUtil.AF_INET;
      var parsed := XpUtil.StringToPrefix(family, ip, addrOk);
      if parsed.0 != OK || !hwOk {
        // Both failures free the id: EPFNOSUPPORT for a bad address, EAGAIN for the SDK.
        HostEntryFree(id);
        return if parsed.0 != OK then EPFNOSUPPORT else EAGAIN, 0;
      }
      egressId := id;
      InstallHost(HostEntry(id, hash, isIpv6, local,
                            if local then 0 else l3Intf, if local then 0 else portIntf,
                            if local then 0 else vid, macDa), rehash);
      rc := OK;
    }

    /** The table updates of a successful SDK add: the entry the SDK
        relocated from `entry.index` moves to `rehash`, and the new entry
        takes `entry.index`. */
    method InstallHost(entry: HostEntry, rehash: nat)
      requires Valid()
      requires entry.id < nextHostId && entry.id !in hosts && entry.id !in freeList
      modifies `hosts, `hostMap
      ensures Valid()
      ensures hosts.Keys == old(hosts.Keys) + {entry.id} && hosts[entry.id] == entry
      ensures forall id :: id in old(hosts) ==>
                hosts[id] == (if entry.index != rehash && entry.index in old(hostMap) && old(hostMap)[entry.index] == id
                              then old(hosts)[id].(index := rehash) else old(hosts)[id])
      ensures entry.index in hostMap && hostMap[entry.index] == entry.id
    {
      var hash := entry.index;
      if hash != rehash && hash in hostMap {
        var movedId := hostMap[hash];
        hostMap := hostMap - {hash};
        hostMap := hostMap[rehash := movedId];
        if movedId in hosts {
          hosts := hosts[movedId := hosts[movedId].(index := rehash)];
        }
      }
      hostMap := hostMap[hash := entry.id];
      hosts := hosts[entry.id := entry];
    }

    /** `ops_xp_routing_delete_host_entry`: an unknown id is ignored with
        0; a known id leaves both maps and is recycled, and EHOSTDOWN
        reports a failed hardware removal. */
    method DeleteHostEntry(id: nat, hwOk: bool) returns (rc: int)
      requires Valid()
      modifies this
      ensures Valid()
      ensures id !in old(hosts) ==>
                rc == OK && hosts == old(hosts) && hostMap == old(hostMap) && freeList == old(freeList)
      ensures id in old(hosts) ==>
                && rc == (if hwOk then OK else EHOSTDOWN)
                && hosts == old(hosts) - {id}
                && hostMap == (if old(hosts)[id].index in old(hostMap) && old(hostMap)[old(hosts)[id].index] == id
                               then old(hostMap) - {old(hosts)[id].index} else old(hostMap))
                && freeList == [id] + old(freeList)
      ensures nextHostId == old(nextHostId) && routes == old(routes) && ecmpHash == old(ecmpHash)
    {
      if id !in hosts {
        return OK;
      }
      var e := hosts[id];
      hosts := hosts - {id};
      if e.index in hostMap && hostMap[e.index] == id {
        hostMap := hostMap - {e.index};
      }
      HostEntryFree(id);
      rc := if hwOk then OK else EHOSTDOWN;
    }

    /** `delete_route_entry`: EFAULT for an unknown prefix; otherwise the
        route loses its reference and is removed with its last one. */
    method DeleteRouteEntry(prefix: string) returns (rc: int)
      requires Valid()
      modifies `routes
      ensures Valid()
      ensures prefix !in old(routes) ==> rc == EFAULT && routes == old(routes)
      ensures prefix in old(routes) ==>
                rc == OK && routes == (if old(routes)[prefix] == 1 then old(routes) - {prefix}
                                       else old(routes)[prefix := old(routes)[prefix] - 1])
    {
      if prefix !in routes {
        return EFAULT;
      }
      if routes[prefix] == 1 {
        routes := routes - {prefix};
      } else {
        routes := routes[prefix := routes[prefix] - 1];
      }
      rc := OK;
    }

    /** `ops_xp_routing_route_entry_action`. `addRc` is the outcome of
        `add_route_entry` and `deleteNhRc` that of `delete_nh_entry`,
        whose next-hop group rebuilding is not part of this model; a
        successful add of a new prefix enters the route map with one
        reference. */
    method RouteEntryAction(action: RouteAction, prefix: string, nexthops: array<RouteNexthop>,
                            addRc: int, deleteNhRc: int) returns (rc: int)
      requires Valid()
      modifies this, nexthops
      ensures Valid()
      ensures nexthops.Length == 0 ==> rc == EINVAL && routes == old(routes) && nexthops[..] == old(nexthops[..])
      ensures nexthops.Length > 0 ==> match action
                case RouteAdd =>
                  && rc == addRc
                  && routes == (if addRc == OK && prefix !in old(routes) then old(routes)[prefix := 1] else old(routes))
                case RouteDelete =>
                  && (prefix !in old(routes) ==> rc == EFAULT && routes == old(routes))
                  && (prefix in old(routes) ==>
                        rc == OK && routes == (if old(routes)[prefix] == 1 then old(routes) - {prefix}
                                               else old(routes)[prefix := old(routes)[prefix] - 1]))
                case RouteDeleteNh => rc == deleteNhRc && routes == old(routes)
                case RouteUnknown => rc == EINVAL && routes == old(routes)
      ensures action == RouteAdd && rc != OK && nexthops.Length > 0 ==>
                forall i :: 0 <= i < nexthops.Length ==> nexthops[i] == old(nexthops[i]).(rc := rc, errStr := Some(rc))
      ensures !(action == RouteAdd && rc != OK) ==> nexthops[..] == old(nexthops[..])
      ensures hosts == old(hosts) && hostMap == old(hostMap) && freeList == old(freeList)
      ensures nextHostId == old(nextHostId) && ecmpHash == old(ecmpHash)
    {
      if nexthops.Length == 0 {
        return EINVAL;
      }
      match action {
        case RouteAdd =>
          rc := addRc;
          if addRc == OK && prefix !in routes {
            routes := routes[prefix := 1];
          }
        case RouteDelete =>
          rc := DeleteRouteEntry(prefix);
        case RouteDeleteNh =>
          rc := deleteNhRc;
        case RouteUnknown =>
          rc := EINVAL;
      }
      if action == RouteAdd && rc != OK {
        UpdateNexthopError(rc, nexthops);
      }
    }

    /** `ops_xp_routing_ecmp_hash_set`: the mask is stored before the SDK
        is told, so a failing SDK call (EFAULT) keeps the new mask.
        `fields` is what the SDK is given. */
    method EcmpHashSet(h: set<EcmpField>, enable: bool, hwOk: bool) returns (rc: int, fields: seq<XpHashField>)
      modifies `ecmpHash
      ensures EcmpUpdate(old(ecmpHash), h, enable).0 == EFAULT ==>
                rc == EFAULT && ecmpHash == old(ecmpHash) && fields == []
      ensures EcmpUpdate(old(ecmpHash), h, enable).0 == OK ==>
                && ecmpHash == EcmpUpdate(old(ecmpHash), h, enable).1
                && fields == HashFieldsFor(ecmpHash)
                && rc == (if hwOk then OK else EFAULT)
    {
      if !enable && (SrcPort in h || DstPort in h) {
        return EFAULT, [];
      }
      if !enable && SrcIp in h && DstIp in h {
        return EFAULT, [];
      }
      ecmpHash := if enable then ecmpHash + h else ecmpHash - h;
      fields := HashFieldsFor(ecmpHash);
      rc := if hwOk then OK else EFAULT;
    }
  }
}
