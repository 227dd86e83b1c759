/** The bundle layer of the XPliant ofproto provider: port naming rules,
    the VLAN mode and trunk set of a bundle, the tagging rule of its
    members, its floodable flag, its port list, the decision to create or
    destroy a hardware LAG, and the reconciliation of secondary IP
    addresses. VLAN bitmaps are modelled as sets of VLAN ids. */
module XpOfproto {
  import opened Common
  import opened XpVlan

  /** XP_DEFAULT_VLAN_ID. */
  const DEFAULT_VLAN_ID: int := 1

  /** `dp_port_get`: `portNum` is the port number of the netdev of that
      name, None when no netdev has the name. The CPU port maps to the
      local datapath port, any other port to its number plus one. */
  function DpPortGet(portNum: Option<int>, cpuPort: int, odppLocal: int): (r: (int, int))
    ensures portNum.None? <==> r.0 == EINVAL
    ensures portNum.Some? ==> r.0 == OK && (r.1 == odppLocal <== portNum.value == cpuPort)
    ensures portNum.Some? && portNum.value != cpuPort ==> r.1 - 1 == portNum.value
  {
    match portNum
    case None => (EINVAL, 0)
    case Some(n) => if n == cpuPort then (OK, odppLocal) else (OK, n + 1)
  }

  /** Two distinct non-CPU ports never share a datapath port number. */
  lemma DpPortGetInjective(a: int, b: int, cpuPort: int, odppLocal: int)
    requires a != cpuPort && b != cpuPort && a != b
    ensures DpPortGet(Some(a), cpuPort, odppLocal).1 != DpPortGet(Some(b), cpuPort, odppLocal).1
  {
  }

  const TYPE_INTERNAL: string := "internal"
  const TYPE_VLANSUBINT: string := "vlansubint"
  const TYPE_LOOPBACK: string := "loopback"
  const TYPE_SYSTEM: string := "system"

  predicate KeepsOwnType(portType: Option<string>)
  {
    portType == Some(TYPE_INTERNAL) || portType == Some(TYPE_VLANSUBINT) || portType == Some(TYPE_LOOPBACK)
  }

  /** `ofproto_xpliant_port_open_type`: internal, vlansubint and loopback
      ports open with their own type; any other type, NULL included,
      opens as a system port. */
  function PortOpenType(portType: Option<string>): (r: string)
    ensures KeepsOwnType(portType) ==> Some(r) == portType
    ensures !KeepsOwnType(portType) ==> r == TYPE_SYSTEM
  {
    if KeepsOwnType(portType) then portType.value else TYPE_SYSTEM
  }

  /** Opening a port under the type it opened with changes nothing. */
  lemma PortOpenTypeIdempotent(portType: Option<string>)
    ensures PortOpenType(Some(PortOpenType(portType))) == PortOpenType(portType)
  {
    if !KeepsOwnType(portType) {
      assert TYPE_SYSTEM != TYPE_INTERNAL && TYPE_SYSTEM != TYPE_VLANSUBINT && TYPE_SYSTEM != TYPE_LOOPBACK;
    }
  }

  /** `enum port_vlan_mode`. */
  datatype VlanMode = VlanAccess | VlanTrunk | VlanNativeTagged | VlanNativeUntagged

  /** The VLAN a bundle is placed in: the default VLAN in trunk mode,
      otherwise the configured VLAN when its `xpsVlan_t` cast is a valid
      id. The result is held in an `xpsVlan_t`, so it is the cast id. */
  function BundleVlan(mode: VlanMode, sVlan: int): (v: int)
    ensures IsVlanIdValid(v)
    ensures mode.VlanTrunk? ==> v == DEFAULT_VLAN_ID
    ensures !mode.VlanTrunk? && IsVlanIdValid(VlanCast(sVlan)) ==> v == VlanCast(sVlan)
    ensures !mode.VlanTrunk? && !IsVlanIdValid(VlanCast(sVlan)) ==> v == DEFAULT_VLAN_ID
    ensures !mode.VlanTrunk? && IsVlanIdValid(sVlan) ==> v == sVlan
  {
    if mode.VlanTrunk? then DEFAULT_VLAN_ID
    else if IsVlanIdValid(VlanCast(sVlan)) then VlanCast(sVlan)
    else DEFAULT_VLAN_ID
  }

  /** Through the cast an access bundle configured with VLAN 65538 is
      placed in VLAN 2, while 4098 falls back to the default VLAN. */
  lemma BundleVlanWrapsId()
    ensures BundleVlan(VlanAccess, 0x1_0000 + 2) == 2
    ensures BundleVlan(VlanAccess, 4098) == DEFAULT_VLAN_ID
  {
    assert VlanCast(0x1_0000 + 2) == 2;
  }

  /** The trunked VLANs a bundle asks for: its VLAN alone in access mode,
      the configured trunks (none when NULL) in trunk mode, and the
      configured trunks with its VLAN forced in for the native modes. */
  function TrunkSet(mode: VlanMode, vlan: int, sTrunks: Option<set<int>>): (t: set<int>)
    ensures mode.VlanAccess? ==> t == {vlan}
    ensures mode.VlanTrunk? ==> t == (if sTrunks.Some? then sTrunks.value else {})
    ensures (mode.VlanNativeTagged? || mode.VlanNativeUntagged?) ==>
              vlan in t && t - {vlan} == (if sTrunks.Some? then sTrunks.value else {}) - {vlan}
  {
    var configured := if sTrunks.Some? then sTrunks.value else {};
    match mode
    case VlanAccess => {vlan}
    case VlanTrunk => configured
    case _ => configured + {vlan}
  }

  /** The encapsulation of a bundle in VLAN `vid`: tagged unless `vid` is
      the bundle's own VLAN and the mode is not native-tagged. */
  predicate IsTagged(vlan: int, mode: VlanMode, vid: int)
  {
    vlan != vid || mode.VlanNativeTagged?
  }

  /** Only the native VLAN of an access, trunk or native-untagged bundle
      is untagged: every other member VLAN of the trunk set is tagged. */
  lemma UntaggedOnlyOnNativeVlan(mode: VlanMode, sVlan: int, sTrunks: Option<set<int>>, vid: int)
    requires vid in TrunkSet(mode, BundleVlan(mode, sVlan), sTrunks)
    ensures !IsTagged(BundleVlan(mode, sVlan), mode, vid) <==>
              vid == BundleVlan(mode, sVlan) && !mode.VlanNativeTagged?
    ensures mode.VlanAccess? ==> !IsTagged(BundleVlan(mode, sVlan), mode, vid)
  {
  }

  /** A bundle member port: its OpenFlow number, whether it has
      OFPUTIL_PC_NO_FLOOD set, and whether its STP state forwards. */
  datatype OfPort = OfPort(ofpPort: nat, noFlood: bool, stpForward: bool)

  predicate PortFloods(p: OfPort)
  {
    !p.noFlood && p.stpForward
  }

  /** A bundle is floodable when every port floods. */
  predicate AllFlood(ports: seq<OfPort>)
  {
    forall i :: 0 <= i < |ports| ==> PortFloods(ports[i])
  }

  /** The flag `bundle_add_port` keeps up to date by clearing it for a
      port that does not flood agrees with recomputing it. */
  lemma AllFloodAppend(ports: seq<OfPort>, p: OfPort)
    ensures AllFlood(ports + [p]) <==> AllFlood(ports) && PortFloods(p)
  {
    if AllFlood(ports) && PortFloods(p) {
      forall i | 0 <= i < |ports + [p]|
        ensures PortFloods((ports + [p])[i])
      {
        if i < |ports| {
          assert (ports + [p])[i] == ports[i];
        }
      }
    }
    if AllFlood(ports + [p]) {
      assert (ports + [p])[|ports|] == p;
      forall i | 0 <= i < |ports|
        ensures PortFloods(ports[i])
      {
        assert (ports + [p])[i] == ports[i];
      }
    }
  }

  /** True if some port of `ports` has OpenFlow number `n`. */
  predicate HasPort(ports: seq<OfPort>, n: nat)
  {
    exists i :: 0 <= i < |ports| && ports[i].ofpPort == n
  }

  /** No two ports with the same OpenFlow number. */
  predicate DistinctPorts(ports: seq<OfPort>)
  {
    forall i, j :: 0 <= i < j < |ports| ==> ports[i].ofpPort != ports[j].ofpPort
  }

  /** The ports of `ports` that `slaves` still names, in order. */
  function KeptPorts(ports: seq<OfPort>, slaves: seq<nat>): seq<OfPort>
  {
    if ports == [] then []
    else if ports[0].ofpPort in slaves then [ports[0]] + KeptPorts(ports[1..], slaves)
    else KeptPorts(ports[1..], slaves)
  }

  /** The port list after adding the slaves in order: a slave with a
      port that is not yet in the list is appended. */
  function AddedPorts(ports: seq<OfPort>, slaves: seq<nat>, lookup: map<nat, OfPort>): seq<OfPort>
    decreases |slaves|
  {
    if slaves == [] then ports
    else if slaves[0] in lookup && !HasPort(ports, slaves[0]) then
      AddedPorts(ports + [lookup[slaves[0]]], slaves[1..], lookup)
    else AddedPorts(ports, slaves[1..], lookup)
  }

  /** Every kept port is named by a slave, and keeping preserves
      distinctness. */
  lemma {:induction false} KeptPortsNamed(ports: seq<OfPort>, slaves: seq<nat>)
    ensures forall i :: 0 <= i < |KeptPorts(ports, slaves)| ==> KeptPorts(ports, slaves)[i].ofpPort in slaves
    ensures forall n :: HasPort(KeptPorts(ports, slaves), n) ==> HasPort(ports, n)
    ensures DistinctPorts(ports) ==> DistinctPorts(KeptPorts(ports, slaves))
  {
    if ports != [] {
      KeptPortsNamed(ports[1..], slaves);
      var rest := KeptPorts(ports[1..], slaves);
      forall n | HasPort(rest, n)
        ensures HasPort(ports, n)
      {
        var i :| 0 <= i < |rest| && rest[i].ofpPort == n;
        assert HasPort(ports[1..], n);
        var j :| 0 <= j < |ports[1..]| && ports[1..][j].ofpPort == n;
        assert ports[j + 1].ofpPort == n;
      }
      if ports[0].ofpPort in slaves {
        var r := [ports[0]] + rest;
        forall n | HasPort(r, n)
          ensures HasPort(ports, n)
        {
          var i :| 0 <= i < |r| && r[i].ofpPort == n;
          if i == 0 {
            assert ports[0].ofpPort == n;
          } else {
            assert rest[i - 1].ofpPort == n;
            assert HasPort(rest, n);
          }
        }
        if DistinctPorts(ports) {
          assert DistinctPorts(ports[1..]);
          forall j | 0 <= j < |rest|
            ensures rest[j].ofpPort != ports[0].ofpPort
          {
            assert HasPort(rest, rest[j].ofpPort);
            assert HasPort(ports[1..], rest[j].ofpPort);
            var k :| 0 <= k < |ports[1..]| && ports[1..][k].ofpPort == rest[j].ofpPort;
            assert ports[k + 1].ofpPort == rest[j].ofpPort;
          }
          forall a, b | 0 <= a < b < |r|
            ensures r[a].ofpPort != r[b].ofpPort
          {
            if a == 0 {
              assert r[b] == rest[b - 1];
            } else {
              assert r[a] == rest[a - 1] && r[b] == rest[b - 1];
            }
          }
        }
      } else {
        if DistinctPorts(ports) {
          assert DistinctPorts(ports[1..]);
        }
      }
    }
  }

  /** The lookup table maps each OpenFlow number to the port of that number. */
  predicate LookupConsistent(lookup: map<nat, OfPort>)
  {
    forall n :: n in lookup ==> lookup[n].ofpPort == n
  }

  lemma HasPortAppend(ports: seq<OfPort>, p: OfPort, n: nat)
    ensures HasPort(ports + [p], n) <==> HasPort(ports, n) || p.ofpPort == n
  {
    if HasPort(ports, n) {
      var i :| 0 <= i < |ports| && ports[i].ofpPort == n;
      assert (ports + [p])[i] == ports[i];
    }
    if p.ofpPort == n {
      assert (ports + [p])[|ports|] == p;
    }
    if HasPort(ports + [p], n) {
      var i :| 0 <= i < |ports + [p]| && (ports + [p])[i].ofpPort == n;
      if i < |ports| {
        assert (ports + [p])[i] == ports[i];
      }
    }
  }

  /** After adding, the list holds every slave that has a port, holds
      only slaves or ports it already had, and stays distinct. */
  lemma {:induction false} AddedPortsComplete(ports: seq<OfPort>, slaves: seq<nat>, lookup: map<nat, OfPort>)
    requires LookupConsistent(lookup)
    ensures forall n :: n in slaves && n in lookup ==> HasPort(AddedPorts(ports, slaves, lookup), n)
    ensures forall n :: HasPort(AddedPorts(ports, slaves, lookup), n) ==> HasPort(ports, n) || n in slaves
    ensures forall n :: HasPort(ports, n) ==> HasPort(AddedPorts(ports, slaves, lookup), n)
    ensures DistinctPorts(ports) ==> DistinctPorts(AddedPorts(ports, slaves, lookup))
    ensures AllFlood(AddedPorts(ports, slaves, lookup)) ==> AllFlood(ports)
    decreases |slaves|
  {
    if slaves != [] {
      var s := slaves[0];
      if s in lookup && !HasPort(ports, s) {
        var p := lookup[s];
        var next := ports + [p];
        AddedPortsComplete(next, slaves[1..], lookup);
        forall n ensures HasPort(next, n) <==> HasPort(ports, n) || p.ofpPort == n {
          HasPortAppend(ports, p, n);
        }
        if DistinctPorts(ports) {
          forall a, b | 0 <= a < b < |next|
            ensures next[a].ofpPort != next[b].ofpPort
          {
            if b == |ports| {
              assert next[a] == ports[a];
              assert HasPort(ports, ports[a].ofpPort);
            } else {
              assert next[a] == ports[a] && next[b] == ports[b];
            }
          }
        }
        AllFloodAppend(ports, p);
        forall n | n in slaves && n in lookup
          ensures HasPort(AddedPorts(ports, slaves, lookup), n)
        {
          if n != s {
            assert n in slaves[1..];
          }
        }
      } else {
        AddedPortsComplete(ports, slaves[1..], lookup);
        forall n | n in slaves && n in lookup
          ensures HasPort(AddedPorts(ports, slaves, lookup), n)
        {
          if n != s {
            assert n in slaves[1..];
          }
        }
      }
    }
  }

  /** A request a bundle port change sends to the VLAN manager about the
      default VLAN, naming the port by its OpenFlow number: join it
      untagged, set an existing membership untagged and reset the port's
      default VLAN, or leave it. */
  datatype DefaultVlanOp = JoinDefault(port: nat) | RetagDefault(port: nat) | LeaveDefault(port: nat)

  /** The default-VLAN requests of the "remove extra ports" loop, in list
      order: `bundle_del_port` on a port of a "system" interface (those in
      `system`) joins the default VLAN when the port is not a member of it
      (not in `members`) and is retagged there otherwise. */
  function DelPortOps(ports: seq<OfPort>, slaves: seq<nat>, system: set<nat>, members: set<nat>): seq<DefaultVlanOp>
  {
    if ports == [] then []
    else
      var n := ports[0].ofpPort;
      var head := if n !in slaves && n in system then [if n in members then RetagDefault(n) else JoinDefault(n)] else [];
      head + DelPortOps(ports[1..], slaves, system, members)
  }

  /** The default-VLAN requests of the slave loop: `bundle_add_port`
      takes each newly added port of a "system" interface out of the
      default VLAN. */
  function AddPortOps(ports: seq<OfPort>, slaves: seq<nat>, lookup: map<nat, OfPort>, system: set<nat>): seq<DefaultVlanOp>
    decreases |slaves|
  {
    if slaves == [] then []
    else if slaves[0] in lookup && !HasPort(ports, slaves[0]) then
      (if slaves[0] in system then [LeaveDefault(slaves[0])] else [])
        + AddPortOps(ports + [lookup[slaves[0]]], slaves[1..], lookup, system)
    else AddPortOps(ports, slaves[1..], lookup, system)
  }

  /** Each request of `ops` is for a port of `ports` that no slave
      names and whose interface is a system one: a join exactly when the
      port is not yet a member and a retag otherwise. */
  ghost predicate DelOpsSound(ops: seq<DefaultVlanOp>, ports: seq<OfPort>, slaves: seq<nat>, system: set<nat>, members: set<nat>)
  {
    forall k :: 0 <= k < |ops| ==>
      && ops[k].port in system && ops[k].port !in slaves && HasPort(ports, ops[k].port)
      && !ops[k].LeaveDefault? && (ops[k].RetagDefault? <==> ops[k].port in members)
  }

  /** `ops` has a request for port `n`. */
  ghost predicate HasOpFor(ops: seq<DefaultVlanOp>, n: nat)
  {
    exists k :: 0 <= k < |ops| && ops[k].port == n
  }

  /** No two requests of `ops` are for the same port. */
  ghost predicate OpsDistinct(ops: seq<DefaultVlanOp>)
  {
    forall j, k :: 0 <= j < k < |ops| ==> ops[j].port != ops[k].port
  }

  /** Every request of the removal loop is for a removed port of a
      system interface, of the kind its membership calls for. */
  lemma {:induction false} DelPortOpsSound(ports: seq<OfPort>, slaves: seq<nat>, system: set<nat>, members: set<nat>)
    ensures DelOpsSound(DelPortOps(ports, slaves, system, members), ports, slaves, system, members)
  {
    if ports != [] {
      DelPortOpsSound(ports[1..], slaves, system, members);
      var n := ports[0].ofpPort;
      var head := if n !in slaves && n in system then [if n in members then RetagDefault(n) else JoinDefault(n)] else [];
      var rest := DelPortOps(ports[1..], slaves, system, members);
      var ops := head + rest;
      assert ops == DelPortOps(ports, slaves, system, members);
      forall k | 0 <= k < |ops|
        ensures HasPort(ports, ops[k].port)
      {
        if k < |head| {
          assert ports[0].ofpPort == ops[k].port;
        } else {
          assert ops[k] == rest[k - |head|];
          var j :| 0 <= j < |ports[1..]| && ports[1..][j].ofpPort == ops[k].port;
          assert ports[j + 1].ofpPort == ops[k].port;
        }
      }
      assert DelOpsSound(ops, ports, slaves, system, members);
    }
  }

  /** Every removed port of a system interface gets a request. */
  lemma {:induction false} DelPortOpsComplete(ports: seq<OfPort>, slaves: seq<nat>, system: set<nat>, members: set<nat>)
    ensures forall i :: 0 <= i < |ports| && ports[i].ofpPort !in slaves && ports[i].ofpPort in system ==>
              HasOpFor(DelPortOps(ports, slaves, system, members), ports[i].ofpPort)
  {
    if ports != [] {
      DelPortOpsComplete(ports[1..], slaves, system, members);
      var n := ports[0].ofpPort;
      var head := if n !in slaves && n in system then [if n in members then RetagDefault(n) else JoinDefault(n)] else [];
      var rest := DelPortOps(ports[1..], slaves, system, members);
      var ops := head + rest;
      assert ops == DelPortOps(ports, slaves, system, members);
      forall i | 0 <= i < |ports| && ports[i].ofpPort !in slaves && ports[i].ofpPort in system
        ensures HasOpFor(ops, ports[i].ofpPort)
      {
        if i == 0 {
          assert ops[0].port == ports[0].ofpPort;
        } else {
          assert ports[1..][i - 1] == ports[i];
          var k :| 0 <= k < |rest| && rest[k].port == ports[i].ofpPort;
          assert ops[k + |head|] == rest[k];
        }
      }
    }
  }

  /** When the ports are distinct, no removed port gets two requests. */
  lemma {:induction false} DelPortOpsDistinct(ports: seq<OfPort>, slaves: seq<nat>, system: set<nat>, members: set<nat>)
    requires DistinctPorts(ports)
    ensures OpsDistinct(DelPortOps(ports, slaves, system, members))
  {
    if ports != [] {
      assert DistinctPorts(ports[1..]);
      DelPortOpsDistinct(ports[1..], slaves, system, members);
      DelPortOpsSound(ports[1..], slaves, system, members);
      var n := ports[0].ofpPort;
      var head := if n !in slaves && n in system then [if n in members then RetagDefault(n) else JoinDefault(n)] else [];
      var rest := DelPortOps(ports[1..], slaves, system, members);
      var ops := head + rest;
      assert ops == DelPortOps(ports, slaves, system, members);
      forall j, k | 0 <= j < k < |ops|
        ensures ops[j].port != ops[k].port
      {
        assert ops[k] == rest[k - |head|];
        if j < |head| {
          assert ops[j].port == n;
          assert HasPort(ports[1..], rest[k - |head|].port);
          var m :| 0 <= m < |ports[1..]| && ports[1..][m].ofpPort == ops[k].port;
          assert ports[m + 1].ofpPort == ops[k].port;
        } else {
          assert ops[j] == rest[j - |head|];
        }
      }
    }
  }

  /** Each request of `ops` takes a slave's port, new to `ports` and of
      a system interface, out of the default VLAN. */
  ghost predicate AddOpsSound(ops: seq<DefaultVlanOp>, ports: seq<OfPort>, slaves: seq<nat>,
                              lookup: map<nat, OfPort>, system: set<nat>)
  {
    forall k :: 0 <= k < |ops| ==>
      && ops[k].LeaveDefault? && ops[k].port in system && ops[k].port in slaves
      && ops[k].port in lookup && !HasPort(ports, ops[k].port)
  }

  /** Every added port of a system interface leaves the default VLAN
      once, and no other port does: a port already in the bundle, a
      slave with no port and a port of another interface type send no
      request. */
  lemma {:induction false} AddPortOpsExact(ports: seq<OfPort>, slaves: seq<nat>, lookup: map<nat, OfPort>, system: set<nat>)
    requires LookupConsistent(lookup)
    ensures AddOpsSound(AddPortOps(ports, slaves, lookup, system), ports, slaves, lookup, system)
    ensures forall n :: n in slaves && n in lookup && n in system && !HasPort(ports, n) ==>
              HasOpFor(AddPortOps(ports, slaves, lookup, system), n)
    ensures OpsDistinct(AddPortOps(ports, slaves, lookup, system))
    decreases |slaves|
  {
    if slaves != [] {
      var s := slaves[0];
      if s in lookup && !HasPort(ports, s) {
        var next := ports + [lookup[s]];
        AddPortOpsExact(next, slaves[1..], lookup, system);
        var head := if s in system then [LeaveDefault(s)] else [];
        var rest := AddPortOps(next, slaves[1..], lookup, system);
        var ops := head + rest;
        assert ops == AddPortOps(ports, slaves, lookup, system);
        forall n ensures HasPort(next, n) <==> HasPort(ports, n) || s == n {
          HasPortAppend(ports, lookup[s], n);
        }
        forall k | |head| <= k < |ops|
          ensures ops[k] == rest[k - |head|] && ops[k].port != s && ops[k].port in slaves
        {
          assert ops[k] == rest[k - |head|];
          assert !HasPort(next, rest[k - |head|].port) && rest[k - |head|].port in slaves[1..];
        }
        assert AddOpsSound(ops, ports, slaves, lookup, system);
        forall n | n in slaves && n in lookup && n in system && !HasPort(ports, n)
          ensures HasOpFor(ops, n)
        {
          if n == s {
            assert ops[0].port == n;
          } else {
            assert n in slaves[1..];
            var k :| 0 <= k < |rest| && rest[k].port == n;
            assert ops[k + |head|] == rest[k];
          }
        }
        assert OpsDistinct(ops);
      } else {
        AddPortOpsExact(ports, slaves[1..], lookup, system);
        var rest := AddPortOps(ports, slaves[1..], lookup, system);
        assert rest == AddPortOps(ports, slaves, lookup, system);
        forall k | 0 <= k < |rest|
          ensures rest[k].port in slaves
        {
          assert rest[k].port in slaves[1..];
        }
        assert AddOpsSound(rest, ports, slaves, lookup, system);
        forall n | n in slaves && n in lookup && n in system && !HasPort(ports, n)
          ensures n in slaves[1..]
        {
        }
      }
    }
  }

  /** What `bundle_update_vlan_config` works out from the old and the
      requested settings: the new VLAN and trunk set, the old trunk set
      after the VLANs whose tagging may change were cleared from it, and
      the VLANs left in that clearing step. When the native VLAN or the
      mode changes, the new VLAN is cleared, and the old VLAN too if the
      new trunk set has it, so that both are added back with the new
      tagging. */
  datatype VlanChange = VlanChange(oldTrunks: Option<set<int>>, oldVlan: int, oldMode: VlanMode,
                                   mode: VlanMode, sVlan: int, sTrunks: Option<set<int>>)
  {
    function OldNative(): int
    {
      if oldVlan != -1 then oldVlan else DEFAULT_VLAN_ID
    }

    function Vlan(): int
    {
      BundleVlan(mode, sVlan)
    }

    predicate Retagged()
    {
      OldNative() != Vlan() || oldMode != mode
    }

    function NewTrunks(): set<int>
    {
      TrunkSet(mode, Vlan(), sTrunks)
    }

    function Cleared(): set<int>
    {
      if oldTrunks.None? then {}
      else if Retagged() then oldTrunks.value - {Vlan()} - (if OldNative() in NewTrunks() then {OldNative()} else {})
      else oldTrunks.value
    }

    function PreRemoved(): set<int>
    {
      if oldTrunks.Some? && Retagged() then
        (if Vlan() in oldTrunks.value then {Vlan()} else {}) + (if OldNative() in NewTrunks() then {OldNative()} else {})
      else {}
    }

    /** VLANs the bundle joins, each with its tagging. */
    function Joined(existing: set<int>): map<int, bool>
    {
      map vid | vid in existing && vid in NewTrunks() && vid !in Cleared() :: IsTagged(Vlan(), mode, vid)
    }

    /** VLANs the bundle leaves. */
    function Left(existing: set<int>): set<int>
    {
      set vid | vid in existing && vid in Cleared() && vid !in NewTrunks()
    }
  }

  /** With the old settings stored, every existing VLAN of the new trunk
      set that the bundle did not trunk before is joined; when the native
      VLAN or the mode changes, the new native VLAN is joined again so its
      tagging is rewritten; and nothing is both joined and left. */
  lemma VlanChangeJoinsNewAndRetagged(c: VlanChange, existing: set<int>)
    ensures forall vid :: vid in existing && vid in c.NewTrunks() && (c.oldTrunks.None? || vid !in c.oldTrunks.value) ==>
              vid in c.Joined(existing)
    ensures c.oldTrunks.Some? && c.Retagged() && c.Vlan() in existing && c.Vlan() in c.NewTrunks() ==>
              c.Vlan() in c.Joined(existing)
    ensures forall vid :: vid in c.Joined(existing) ==> vid !in c.Left(existing)
    ensures c.oldTrunks.Some? && !c.Retagged() && c.oldTrunks.value == c.NewTrunks() ==>
              c.Joined(existing) == map[] && c.Left(existing) == {}
  {
    assert c.Cleared() <= (if c.oldTrunks.Some? then c.oldTrunks.value else {});
  }

  /** KeptPorts and DelPortOps of a suffix, one port at a time. */
  lemma PortsStep(ps: seq<OfPort>, i: int, slaves: seq<nat>, system: set<nat>, members: set<nat>)
    requires 0 <= i < |ps|
    ensures KeptPorts(ps[i..], slaves) ==
              (if ps[i].ofpPort in slaves then [ps[i]] else []) + KeptPorts(ps[i + 1..], slaves)
    ensures DelPortOps(ps[i..], slaves, system, members) ==
              (if ps[i].ofpPort !in slaves && ps[i].ofpPort in system
               then [if ps[i].ofpPort in members then RetagDefault(ps[i].ofpPort) else JoinDefault(ps[i].ofpPort)]
               else []) + DelPortOps(ps[i + 1..], slaves, system, members)
  {
    assert ps[i..][1..] == ps[i + 1..];
  }

  /** The walk of the "remove extra ports" loop of `bundle_set` over the
      port list `ps`: the ports kept, whether any was deleted, and the
      default-VLAN requests of the deletions. */
  method PartitionPorts(ps: seq<OfPort>, slaves: seq<nat>, system: set<nat>, members: set<nat>)
    returns (kept: seq<OfPort>, removed: bool, vlanOps: seq<DefaultVlanOp>)
    ensures kept == KeptPorts(ps, slaves)
    ensures removed <==> kept != ps
    ensures vlanOps == DelPortOps(ps, slaves, system, members)
  {
    kept := [];
    removed := false;
    vlanOps := [];
    var i := 0;
    while i < |ps|
      invariant 0 <= i <= |ps|
      invariant KeptPorts(ps, slaves) == kept + KeptPorts(ps[i..], slaves)
      invariant DelPortOps(ps, slaves, system, members) == vlanOps + DelPortOps(ps[i..], slaves, system, members)
      invariant removed <==> |kept| < i
      invariant |kept| <= i
      invariant !removed ==> kept == ps[..i]
    {
      PortsStep(ps, i, slaves, system, members);
      assert ps[..i + 1] == ps[..i] + [ps[i]];
      var n := ps[i].ofpPort;
      if n in slaves {
        kept := kept + [ps[i]];
      } else {
        removed := true;
        if n in system {
          vlanOps := vlanOps + [if n in members then RetagDefault(n) else JoinDefault(n)];
        }
      }
      i := i + 1;
    }
    assert ps[i..] == [];
    assert ps[..i] == ps;
  }

  /** A bundle of ports (`struct bundle_xpliant`). */
  class Bundle {
    var name: string
    var ports: seq<OfPort>
    var floodable: bool
    var portsUpdated: bool
    /** The bundle's XPS interface, None for XPS_INTF_INVALID_ID. */
    var intfId: Option<nat>
    var isLag: bool
    /** -1 until a VLAN is configured. */
    var vlan: int
    var vlanMode: VlanMode
    /** The bundle's trunked VLANs, None for a NULL bitmap. */
    var trunks: Option<set<int>>
    var secondaryIp: set<string>

    /** Ports are distinct and the floodable flag is up to date. */
    ghost predicate Valid()
      reads this
    {
      DistinctPorts(ports) && floodable == AllFlood(ports)
    }

    /** A new bundle as `ofproto_xpliant_bundle_set` creates it. */
    constructor (bundleName: string)
      ensures Valid()
      ensures name == bundleName && ports == [] && floodable && intfId.None? && !isLag
      ensures vlan == -1 && vlanMode == VlanAccess && trunks.None? && secondaryIp == {}
    {
      name := bundleName;
      ports := [];
      floodable := true;
      portsUpdated := false;
      intfId := None;
      isLag := false;
      vlan := -1;
      vlanMode := VlanAccess;
      trunks := None;
      secondaryIp := {};
    }

    /** `bundle_update`: recomputes the floodable flag, stopping at the
        first port that has NO_FLOOD set or does not forward. */
    method BundleUpdate()
      modifies `floodable
      ensures floodable == AllFlood(ports)
    {
      floodable := true;
      var i := 0;
      while i < |ports|
        invariant 0 <= i <= |ports|
        invariant floodable
        invariant forall k :: 0 <= k < i ==> PortFloods(ports[k])
      {
        if !PortFloods(ports[i]) {
          floodable := false;
          return;
        }
        i := i + 1;
      }
    }

    /** The "remove extra ports" loop of `bundle_set`: every port that no
        slave names is deleted, and each deletion recomputes the
        floodable flag. `system` holds the ports of "system" interfaces
        and `members` those whose interface is in the default VLAN;
        `vlanOps` are the default-VLAN requests of the deletions, in
        list order. */
    method RemoveExtraPorts(slaves: seq<nat>, system: set<nat>, members: set<nat>) returns (vlanOps: seq<DefaultVlanOp>)
      requires Valid()
      modifies `ports, `floodable, `portsUpdated
      ensures Valid()
      ensures ports == KeptPorts(old(ports), slaves)
      ensures portsUpdated == (old(portsUpdated) || ports != old(ports))
      ensures vlanOps == DelPortOps(old(ports), slaves, system, members)
    {
      var kept, removed;
      kept, removed, vlanOps := PartitionPorts(ports, slaves, system, members);
      KeptPortsNamed(ports, slaves);
      if removed {
        ports := kept;
        portsUpdated := true;
        BundleUpdate();
      }
    }

    /** One step of the slave loop: `bundle_add_port` for slave `s`. */
    method AddOne(s: nat, lookup: map<nat, OfPort>, system: set<nat>) returns (op: seq<DefaultVlanOp>)
      requires Valid() && LookupConsistent(lookup)
      modifies `ports, `floodable, `portsUpdated
      ensures Valid()
      ensures s in lookup && !HasPort(old(ports), s) ==>
                ports == old(ports) + [lookup[s]] && portsUpdated
                && op == (if s in system then [LeaveDefault(s)] else [])
      ensures !(s in lookup && !HasPort(old(ports), s)) ==>
                ports == old(ports) && portsUpdated == old(portsUpdated) && op == []
    {
      op := [];
      if s in lookup && !HasPort(ports, s) {
        var p := lookup[s];
        AllFloodAppend(ports, p);
        forall a, b | 0 <= a < b < |ports + [p]|
          ensures (ports + [p])[a].ofpPort != (ports + [p])[b].ofpPort
        {
          if b == |ports| {
            assert (ports + [p])[a] == ports[a];
            assert HasPort(ports, ports[a].ofpPort);
          } else {
            assert (ports + [p])[a] == ports[a] && (ports + [p])[b] == ports[b];
          }
        }
        ports := ports + [p];
        if !PortFloods(p) {
          floodable := false;
        }
        if s in system {
          op := [LeaveDefault(s)];
        }
        portsUpdated := true;
      }
    }

    /** `bundle_add_port` for each slave in order: a slave with no port
        is skipped, a port already in the bundle is left alone, and a new
        one is appended, clearing the floodable flag if it does not
        flood. `vlanOps` are the default-VLAN requests of the added
        ports of "system" interfaces (those in `system`). */
    method AddSlavePorts(slaves: seq<nat>, lookup: map<nat, OfPort>, system: set<nat>) returns (vlanOps: seq<DefaultVlanOp>)
      requires Valid() && LookupConsistent(lookup)
      modifies `ports, `floodable, `portsUpdated
      ensures Valid()
      ensures ports == AddedPorts(old(ports), slaves, lookup)
      ensures portsUpdated == (old(portsUpdated) || ports != old(ports))
      ensures vlanOps == AddPortOps(old(ports), slaves, lookup, system)
    {
      vlanOps := [];
      var i := 0;
      while i < |slaves|
        invariant 0 <= i <= |slaves|
        invariant Valid()
        invariant AddedPorts(old(ports), slaves, lookup) == AddedPorts(ports, slaves[i..], lookup)
        invariant AddPortOps(old(ports), slaves, lookup, system) == vlanOps + AddPortOps(ports, slaves[i..], lookup, system)
        invariant |ports| >= |old(ports)| && ports[..|old(ports)|] == old(ports)
        invariant portsUpdated == (old(portsUpdated) || ports != old(ports))
      {
        var s := slaves[i];
        assert slaves[i..][1..] == slaves[i + 1..];
        var op := AddOne(s, lookup, system);
        vlanOps := vlanOps + op;
        i := i + 1;
      }
      assert slaves[i..] == [];
    }

    /** `bundle_create_remove_hw_lag`: a bundle without an interface gets
        a hardware LAG when one should exist or only the handle is
        requested (`lagRc` and `lagId` are the outcome of
        `ops_xp_lag_create`); a LAG bundle whose LAG should no longer
        exist loses it. */
    method CreateRemoveHwLag(shouldExist: bool, allocOnly: bool, lagRc: int, lagId: nat) returns (rc: int)
      modifies `intfId, `isLag
      ensures old(intfId).None? && (shouldExist || allocOnly) ==>
                rc == lagRc
                && (lagRc == OK ==> intfId == Some(lagId) && isLag)
                && (lagRc != OK ==> intfId == old(intfId) && isLag == old(isLag))
      ensures old(intfId).Some? && old(isLag) && !shouldExist ==> rc == OK && intfId.None? && !isLag
      ensures !(old(intfId).None? && (shouldExist || allocOnly)) && !(old(intfId).Some? && old(isLag) && !shouldExist) ==>
                rc == OK && intfId == old(intfId) && isLag == old(isLag)
    {
      rc := OK;
      if intfId.None? && (shouldExist || allocOnly) {
        if lagRc != OK {
          return lagRc;
        }
        intfId := Some(lagId);
        isLag := true;
      } else if intfId.Some? && isLag && !shouldExist {
        intfId := None;
        isLag := false;
      }
    }

    /** The port part of `ofproto_xpliant_bundle_set`: the name is
        updated, the hardware LAG is created or removed, and (unless only
        the LAG handle was requested or that step failed) the ports no
        slave names are removed and the slaves' ports added. `destroyed`
        says the bundle ended up empty and was destroyed, and `vlanOps`
        are the default-VLAN requests of the removals followed by those
        of the additions. */
    method BundleSetPorts(settingsName: string, shouldExist: bool, allocOnly: bool, lagRc: int, lagId: nat,
                          slaves: seq<nat>, lookup: map<nat, OfPort>, system: set<nat>, members: set<nat>)
      returns (rc: int, destroyed: bool, vlanOps: seq<DefaultVlanOp>)
      requires Valid() && LookupConsistent(lookup)
      modifies this
      ensures Valid()
      ensures name == settingsName
      ensures (allocOnly || rc != OK) ==> ports == old(ports) && !destroyed && vlanOps == []
      ensures !allocOnly && rc == OK ==>
                && ports == AddedPorts(KeptPorts(old(ports), slaves), slaves, lookup)
                && vlanOps == DelPortOps(old(ports), slaves, system, members)
                              + AddPortOps(KeptPorts(old(ports), slaves), slaves, lookup, system)
                && (forall i :: 0 <= i < |ports| ==> ports[i].ofpPort in slaves)
                && (forall n :: n in slaves && n in lookup ==> HasPort(ports, n))
                && (destroyed <==> ports == [])
    {
      name := settingsName;
      destroyed := false;
      vlanOps := [];
      ghost var start := ports;
      rc := CreateRemoveHwLag(shouldExist, allocOnly, lagRc, lagId);
      assert ports == start && floodable == AllFlood(ports);
      if allocOnly || rc != OK {
        return;
      }
      portsUpdated := false;
      ghost var before := ports;
      var delOps := RemoveExtraPorts(slaves, system, members);
      ghost var kept := ports;
      var addOps := AddSlavePorts(slaves, lookup, system);
      vlanOps := delOps + addOps;
      KeptPortsNamed(before, slaves);
      AddedPortsComplete(kept, slaves, lookup);
      forall i | 0 <= i < |ports|
        ensures ports[i].ofpPort in slaves
      {
        assert HasPort(ports, ports[i].ofpPort);
        if HasPort(kept, ports[i].ofpPort) {
          var j :| 0 <= j < |kept| && kept[j].ofpPort == ports[i].ofpPort;
        }
      }
      destroyed := ports == [];
    }

    /** `bundle_update_vlan_config`. `sVlan`, `mode` and `sTrunks` are
        the requested settings; `existing` is the set of VLANs the VLAN
        manager holds and `frameOk` whether the frame-type call succeeds.
        `added` maps each VLAN the bundle joins to whether it is tagged
        there, and `removed` lists the VLANs it leaves. The trunk set is
        stored before the frame-type call, so it is kept when that call
        fails. */
    method UpdateVlanConfig(mode: VlanMode, sVlan: int, sTrunks: Option<set<int>>, existing: set<int>, frameOk: bool)
      returns (rc: int, added: map<int, bool>, removed: set<int>)
      modifies `vlan, `vlanMode, `trunks
      ensures vlanMode == mode && vlan == BundleVlan(mode, sVlan)
      ensures trunks == Some(TrunkSet(mode, vlan, sTrunks))
      ensures var c := VlanChange(old(trunks), old(vlan), old(vlanMode), mode, sVlan, sTrunks);
              && rc == (if !frameOk && (old(trunks).None? || c.Cleared() != c.NewTrunks() || (isLag && portsUpdated)) then EPERM else OK)
              && (rc == OK ==> added == c.Joined(existing) && removed == c.PreRemoved() * existing + c.Left(existing))
              && (rc != OK ==> added == map[] && removed == c.PreRemoved() * existing)
    {
      ghost var c := VlanChange(trunks, vlan, vlanMode, mode, sVlan, sTrunks);
      var oldVlan := if vlan != -1 then vlan else DEFAULT_VLAN_ID;
      var oldMode := vlanMode;
      vlanMode := mode;
      vlan := BundleVlan(mode, sVlan);
      var newTrunks := TrunkSet(mode, vlan, sTrunks);
      added := map[];
      removed := ClearRetagged(c, oldVlan, oldVlan != vlan || oldMode != mode, newTrunks, existing);
      if trunks != Some(newTrunks) || (isLag && portsUpdated) {
        var before := if trunks.Some? then trunks.value else {};
        assert before == c.Cleared() && newTrunks == c.NewTrunks();
        var diff := (newTrunks - before) + (before - newTrunks);
        trunks := Some(newTrunks);
        if !frameOk {
          return EPERM, added, removed;
        }
        added := map vid | vid in diff && vid in existing && vid in newTrunks :: IsTagged(vlan, mode, vid);
        removed := removed + set vid | vid in diff && vid in existing && vid !in newTrunks;
        assert added == c.Joined(existing);
        assert removed == c.PreRemoved() * existing + c.Left(existing);
      } else {
        assert trunks.Some? && trunks.value == newTrunks;
        assert c.Cleared() == c.NewTrunks();
        assert c.Left(existing) == {};
      }
      rc := OK;
    }

    /** The first step of `bundle_update_vlan_config`: when the native
        VLAN or the mode changes, the new VLAN, and the old one if the new
        trunk set has it, are cleared from the stored trunks; `removed`
        are those of them the VLAN manager holds. */
    method ClearRetagged(ghost c: VlanChange, oldVlan: int, retagged: bool, newTrunks: set<int>, existing: set<int>)
      returns (removed: set<int>)
      requires c.oldTrunks == trunks && oldVlan == c.OldNative() && vlan == c.Vlan() && retagged == c.Retagged()
      requires newTrunks == c.NewTrunks()
      modifies `trunks
      ensures removed == c.PreRemoved() * existing
      ensures trunks.None? <==> old(trunks).None?
      ensures trunks.Some? ==> trunks.value == c.Cleared()
    {
      removed := {};
      if trunks.Some? && retagged {
        var cur := trunks.value;
        if vlan in cur {
          cur := cur - {vlan};
          if vlan in existing {
            removed := removed + {vlan};
          }
        }
        if oldVlan in newTrunks {
          cur := cur - {oldVlan};
          if oldVlan in existing {
            removed := removed + {oldVlan};
          }
        }
        trunks := Some(cur);
      }
    }

    /** `port_config_secondary_ipv4_addr` and its IPv6 twin: the stored
        addresses become the configured ones. `deleted` are the stored
        addresses no longer configured (their host entries are deleted),
        and `added` the configured addresses not stored before, each
        once (each gets a host entry). */
    method ReconcileSecondaryIps(configured: seq<string>) returns (deleted: set<string>, added: seq<string>)
      modifies `secondaryIp
      ensures secondaryIp == set a | a in configured
      ensures deleted == old(secondaryIp) - secondaryIp
      ensures Elems(added) == secondaryIp - old(secondaryIp)
      ensures Distinct(added)
    {
      var newList := AddOnceAll(configured);
      FirstOccurrencesProps(configured);
      deleted := set a | a in secondaryIp && a !in newList;
      secondaryIp := secondaryIp - deleted;
      added := [];
      var i := 0;
      while i < |newList|
        invariant 0 <= i <= |newList|
        invariant secondaryIp == old(secondaryIp) - deleted + Elems(newList[..i])
        invariant Elems(added) == Elems(newList[..i]) - old(secondaryIp)
        invariant Distinct(added)
        invariant forall k :: 0 <= k < |added| ==> added[k] in secondaryIp
      {
        ElemsAppend(newList[..i], newList[i]);
        assert newList[..i + 1] == newList[..i] + [newList[i]];
        if newList[i] !in secondaryIp {
          assert newList[i] !in newList[..i];
          ElemsAppend(added, newList[i]);
          secondaryIp := secondaryIp + {newList[i]};
          added := added + [newList[i]];
        }
        i := i + 1;
      }
      assert newList[..i] == newList;
    }
  }

  /** The strings a list holds. */
  function Elems(xs: seq<string>): set<string>
  {
    set a | a in xs
  }

  lemma ElemsAppend(xs: seq<string>, x: string)
    ensures Elems(xs + [x]) == Elems(xs) + {x}
  {
  }

  /** A string list with every repeated entry dropped, keeping first
      occurrences in order. */
  function FirstOccurrences(xs: seq<string>): seq<string>
  {
    if xs == [] then []
    else
      var r := FirstOccurrences(xs[..|xs| - 1]);
      if xs[|xs| - 1] in r then r else r + [xs[|xs| - 1]]
  }

  /** First occurrences are distinct and hold every listed string. */
  lemma {:induction false} FirstOccurrencesProps(xs: seq<string>)
    ensures Distinct(FirstOccurrences(xs))
    ensures forall a :: a in FirstOccurrences(xs) <==> a in xs
  {
    if xs != [] {
      var init := xs[..|xs| - 1];
      FirstOccurrencesProps(init);
      assert xs == init + [xs[|xs| - 1]];
    }
  }

  /** The `shash_add_once` loop: each string is added unless already
      present. */
  method AddOnceAll(xs: seq<string>) returns (r: seq<string>)
    ensures r == FirstOccurrences(xs)
  {
    r := [];
    var i := 0;
    while i < |xs|
      invariant 0 <= i <= |xs|
      invariant r == FirstOccurrences(xs[..i])
    {
      assert xs[..i + 1][..i] == xs[..i];
      if xs[i] !in r {
        r := r + [xs[i]];
      }
      i := i + 1;
    }
    assert xs[..i] == xs;
  }
}
