/** The XPliant plugin's VLAN manager: a table indexed by VLAN id holding,
    per VLAN, whether it exists and its members table (interface id to
    encapsulation type). Each XDK call is an oracle argument that says
    whether the hardware accepted it. */
module XpVlan {
  import opened Common

  /** XPS_VLANID_MIN / XPS_VLANID_MAX of the XDK, and the table size. */
  const VLAN_MIN_ID: int := 1
  const VLAN_MAX_ID: int := 4095
  const VLAN_MAX_COUNT: nat := 4096

  /** xpL2EncapType_e values the plugin stores. */
  const ENCAP_DOT1Q_UNTAGGED: int := 0
  const ENCAP_DOT1Q_TAGGED: int := 1

  /** `ops_xp_is_vlan_id_valid`. */
  predicate IsVlanIdValid(vid: int)
  {
    VLAN_MIN_ID <= vid <= VLAN_MAX_ID
  }

  /** The `(xpsVlan_t)` cast of an `int`: xpsVlan_t is 16 bits wide and
      unsigned, so the value is taken modulo 2^16. */
  function VlanCast(vid: int): (v: nat)
    ensures v < 0x1_0000
    ensures 0 <= vid < 0x1_0000 ==> v == vid
  {
    vid % 0x1_0000
  }

  /** C's conversion of a bool to an integer. */
  function BoolToInt(b: bool): int
  {
    if b then 1 else 0
  }

  /** A VLAN's membership is empty exactly when no interface is a member
      of it. */
  lemma MembershipEmptyIffNoMember(mgr: VlanMgr, vid: int)
    requires mgr.Valid()
    ensures mgr.IsMembershipEmpty(vid) <==> forall intf: nat :: !mgr.IsMember(vid, intf)
  {
    if mgr.IsExisting(vid) && mgr.members[vid] != map[] {
      var intf :| intf in mgr.members[vid];
      assert mgr.IsMember(vid, intf);
    }
  }

  class VlanMgr {
    const existing: array<bool>
    const members: array<map<nat, int>>

    ghost predicate Valid()
      reads this, existing, members
    {
      && existing.Length == VLAN_MAX_COUNT && members.Length == VLAN_MAX_COUNT
      && forall v :: 0 <= v < VLAN_MAX_COUNT && !existing[v] ==> members[v] == map[]
    }

    /** `ops_xp_vlan_mgr_create`: no VLAN exists, every members table is
        empty. */
    constructor ()
      ensures Valid() && fresh(existing) && fresh(members)
      ensures forall v :: 0 <= v < VLAN_MAX_COUNT ==> !existing[v] && members[v] == map[]
    {
      existing := new bool[VLAN_MAX_COUNT](_ => false);
      members := new map<nat, int>[VLAN_MAX_COUNT](_ => map[]);
    }

    /** `ops_xp_vlan_is_existing`. */
    predicate IsExisting(vid: int)
      reads this, existing
      requires existing.Length == VLAN_MAX_COUNT
      ensures IsExisting(vid) ==> IsVlanIdValid(vid)
    {
      IsVlanIdValid(vid) && existing[vid]
    }

    /** `vlan_member_lookup`: the encapsulation of a member of an existing
        VLAN, or None. */
    function Lookup(vid: int, intf: nat): (e: Option<int>)
      reads this, existing, members
      requires Valid()
      ensures e.Some? <==> IsExisting(vid) && intf in members[vid]
      ensures e.Some? ==> e.value == members[vid][intf]
    {
      if IsExisting(vid) && intf in members[vid] then Some(members[vid][intf]) else None
    }

    /** `ops_xp_vlan_port_is_member`. */
    predicate IsMember(vid: int, intf: nat)
      reads this, existing, members
      requires Valid()
    {
      Lookup(vid, intf).Some?
    }

    /** `ops_xp_vlan_port_is_tagged_member`. */
    predicate IsTaggedMember(vid: int, intf: nat)
      reads this, existing, members
      requires Valid()
    {
      Lookup(vid, intf) == Some(ENCAP_DOT1Q_TAGGED)
    }

    /** `ops_xp_vlan_port_is_untagged_member`. */
    predicate IsUntaggedMember(vid: int, intf: nat)
      reads this, existing, members
      requires Valid()
    {
      Lookup(vid, intf) == Some(ENCAP_DOT1Q_UNTAGGED)
    }

    /** `ops_xp_vlan_member_get_encap_type`: 0 and the member's encap, or
        ENODATA for a non-member. */
    function GetEncapType(vid: int, intf: nat): (r: (int, int))
      reads this, existing, members
      requires Valid()
      ensures r.0 == 0 || r.0 == ENODATA
      ensures r.0 == 0 <==> IsMember(vid, intf)
      ensures r.0 == 0 ==> r.1 == members[vid][intf]
    {
      match Lookup(vid, intf)
      case Some(e) => (0, e)
      case None => (ENODATA, 0)
    }

    /** `ops_xp_vlan_is_membership_empty`: true for a VLAN that does not
        exist, otherwise true iff its members table is empty. */
    predicate IsMembershipEmpty(vid: int)
      reads this, existing, members
      requires Valid()
    {
      if IsExisting(vid) then members[vid] == map[] else true
    }

    /** `ops_xp_vlan_create`: ENXIO for an invalid id, EEXIST if the VLAN
        exists, EPERM if the hardware refuses; 0 and the VLAN exists. */
    method Create(vid: int, hwOk: bool) returns (rc: int)
      requires Valid()
      modifies existing
      ensures Valid()
      ensures rc == (if !IsVlanIdValid(vid) then ENXIO
                     else if old(existing[vid]) then EEXIST
                     else if !hwOk then EPERM else 0)
      ensures existing[..] == if rc == 0 then old(existing[..])[vid := true] else old(existing[..])
    {
      if !IsVlanIdValid(vid) {
        return ENXIO;
      }
      if existing[vid] {
        return EEXIST;
      }
      if !hwOk {
        return EPERM;
      }
      existing[vid] := true;
      return 0;
    }

    /** `ops_xp_vlan_remove`: a VLAN that does not exist gives 0 and no
        change; otherwise the VLAN stops existing and its members table is
        emptied, and EPERM is returned if the hardware then refuses to
        destroy it. */
    method Remove(vid: int, hwOk: bool) returns (rc: int)
      requires Valid()
      modifies existing, members
      ensures Valid()
      ensures !old(IsExisting(vid)) ==> rc == 0 && existing[..] == old(existing[..]) && members[..] == old(members[..])
      ensures old(IsExisting(vid)) ==>
                && existing[..] == old(existing[..])[vid := false]
                && members[..] == old(members[..])[vid := map[]]
                && rc == (if hwOk then 0 else EPERM)
    {
      if !IsExisting(vid) {
        return 0;
      }
      existing[vid] := false;
      members[vid] := map[];
      if !hwOk {
        return EPERM;
      }
      return 0;
    }

    /** `ops_xp_vlan_member_add`: ENXIO for a VLAN that does not exist; 0
        and no change for an existing member (its encap is kept); EPERM if
        the hardware refuses; otherwise 0 and the interface is a member with
        the given encap. */
    method MemberAdd(vid: int, intf: nat, encap: int, hwOk: bool) returns (rc: int)
      requires Valid()
      modifies members
      ensures Valid()
      ensures !old(IsExisting(vid)) ==> rc == ENXIO && members[..] == old(members[..])
      ensures old(IsMember(vid, intf)) ==> rc == 0 && members[..] == old(members[..])
      ensures old(IsExisting(vid)) && !old(IsMember(vid, intf)) ==>
                && rc == (if hwOk then 0 else EPERM)
                && members[..] == if hwOk then old(members[..])[vid := old(members[vid])[intf := encap]]
                                  else old(members[..])
    {
      if !IsExisting(vid) {
        return ENXIO;
      }
      if IsMember(vid, intf) {
        return 0;
      }
      if !hwOk {
        return EPERM;
      }
      members[vid] := members[vid][intf := encap];
      return 0;
    }

    /** `ops_xp_vlan_member_remove`: ENXIO for a VLAN that does not exist;
        0 and no change for a non-member; EPERM and no change if the
        hardware refuses; otherwise 0 and the interface, only it, leaves the
        VLAN. `flushed` says the MAC learning entries of the pair were
        flushed (`ops_xp_mac_learning_flush_vlan_intf`), which happens
        exactly when the interface left. */
    method MemberRemove(vid: int, intf: nat, hwOk: bool) returns (rc: int, flushed: bool)
      requires Valid()
      modifies members
      ensures Valid()
      ensures flushed <==> old(IsMember(vid, intf)) && hwOk
      ensures !old(IsExisting(vid)) ==> rc == ENXIO && members[..] == old(members[..])
      ensures old(IsExisting(vid)) && !old(IsMember(vid, intf)) ==> rc == 0 && members[..] == old(members[..])
      ensures old(IsMember(vid, intf)) ==>
                && rc == (if hwOk then 0 else EPERM)
                && members[..] == if hwOk then old(members[..])[vid := old(members[vid]) - {intf}]
                                  else old(members[..])
    {
      flushed := false;
      if !IsExisting(vid) {
        return ENXIO, false;
      }
      if !IsMember(vid, intf) {
        return 0, false;
      }
      if !hwOk {
        return EPERM, false;
      }
      members[vid] := members[vid] - {intf};
      return 0, true;
    }

    /** `ops_xp_vlan_members_remove_all`: removes the members one by one
        and stops at the first failure, with the members removed so far
        gone. `flushed` holds the interfaces whose MAC entries on the VLAN
        were flushed. */
    method MembersRemoveAll(vid: int, hwOk: nat -> bool) returns (rc: int, flushed: set<nat>)
      requires Valid()
      modifies members
      ensures Valid()
      ensures !old(IsExisting(vid)) ==> rc == ENXIO && members[..] == old(members[..])
      ensures old(IsExisting(vid)) ==>
                && (rc == 0 || rc == EPERM)
                && members[vid].Keys <= old(members[vid]).Keys
                && (forall i :: i in members[vid] ==> members[vid][i] == old(members[vid])[i])
                && (forall v :: 0 <= v < VLAN_MAX_COUNT && v != vid ==> members[v] == old(members[v]))
                && (rc == 0 <==> members[vid] == map[])
                && flushed == old(members[vid]).Keys - members[vid].Keys
    {
      flushed := {};
      if !IsExisting(vid) {
        return ENXIO, {};
      }
      while members[vid] != map[]
        invariant Valid() && existing[vid]
        invariant flushed == old(members[vid]).Keys - members[vid].Keys
        invariant members[vid].Keys <= old(members[vid]).Keys
        invariant forall i :: i in members[vid] ==> members[vid][i] == old(members[vid])[i]
        invariant forall v :: 0 <= v < VLAN_MAX_COUNT && v != vid ==> members[v] == old(members[v])
        decreases |members[vid].Keys|
      {
        var intf :| intf in members[vid];
        ghost var before := members[vid];
        var f;
        rc, f := MemberRemove(vid, intf, hwOk(intf));
        if rc != 0 {
          return rc, flushed;
        }
        assert members[vid].Keys == before.Keys - {intf};
        flushed := flushed + {intf};
      }
      return 0, flushed;
    }

    /** `ops_xp_vlan_member_set_tagging`: ENXIO for a VLAN that does not
        exist, EOPNOTSUPP for a non-member, 0 if the tagging is already the
        requested one; otherwise the member is removed and re-added with the
        `tagging` flag itself as encapsulation type. `flushed` says the
        removal took place and flushed the pair's MAC entries. */
    method MemberSetTagging(vid: int, intf: nat, tagging: bool, removeOk: bool, addOk: bool) returns (rc: int, flushed: bool)
      requires Valid()
      modifies members
      ensures Valid()
      ensures !old(IsExisting(vid)) ==> rc == ENXIO && members[..] == old(members[..])
      ensures old(IsExisting(vid)) && !old(IsTaggedMember(vid, intf)) && !old(IsUntaggedMember(vid, intf)) ==>
                rc == EOPNOTSUPP && members[..] == old(members[..])
      ensures (old(IsTaggedMember(vid, intf)) && tagging) || (old(IsUntaggedMember(vid, intf)) && !tagging) ==>
                rc == 0 && members[..] == old(members[..])
      ensures (old(IsTaggedMember(vid, intf)) && !tagging) || (old(IsUntaggedMember(vid, intf)) && tagging) ==>
                && rc == (if !removeOk || !addOk then EPERM else 0)
                && members[..] == (if !removeOk then old(members[..])
                                   else if !addOk then old(members[..])[vid := old(members[vid]) - {intf}]
                                   else old(members[..])[vid := old(members[vid])[intf := BoolToInt(tagging)]])
      ensures flushed <==> removeOk && ((old(IsTaggedMember(vid, intf)) && !tagging) || (old(IsUntaggedMember(vid, intf)) && tagging))
    {
      flushed := false;
      if !IsExisting(vid) {
        return ENXIO, false;
      }
      if IsTaggedMember(vid, intf) {
        if tagging {
          return 0, false;
        }
      } else if IsUntaggedMember(vid, intf) {
        if !tagging {
          return 0, false;
        }
      } else {
        return EOPNOTSUPP, false;
      }
      rc, flushed := MemberRemove(vid, intf, removeOk);
      if rc != 0 {
        return rc, flushed;
      }
      rc := MemberAdd(vid, intf, BoolToInt(tagging), addOk);
      ghost var m := old(members[vid]) - {intf};
      assert m[intf := BoolToInt(tagging)] == old(members[vid])[intf := BoolToInt(tagging)];
    }

    /** `ops_xp_vlan_port_clear_all_membership`: the interface is removed
        from every existing VLAN in increasing id order, stopping at the
        first failure. On success it is a member of no VLAN. `flushed`
        holds the VLANs whose MAC entries for the interface were flushed:
        those it left. */
    method PortClearAllMembership(intf: nat, hwOk: int -> bool) returns (rc: int, flushed: set<int>)
      requires Valid()
      modifies members
      ensures Valid()
      ensures forall v :: 0 <= v < VLAN_MAX_COUNT ==> (v in flushed <==> intf in old(members[v]) && intf !in members[v])
      ensures forall v :: v in flushed ==> 0 <= v < VLAN_MAX_COUNT
      ensures rc == 0 || rc == EPERM
      ensures rc == 0 ==> forall v :: !IsMember(v, intf)
      ensures forall v :: 0 <= v < VLAN_MAX_COUNT ==>
                members[v] == old(members[v]) || members[v] == old(members[v]) - {intf}
    {
      flushed := {};
      var vid := VLAN_MIN_ID;
      while vid <= VLAN_MAX_ID
        invariant VLAN_MIN_ID <= vid <= VLAN_MAX_ID + 1
        invariant Valid()
        invariant forall v :: v in flushed ==> VLAN_MIN_ID <= v < vid
        invariant forall v :: 0 <= v < VLAN_MAX_COUNT ==> (v in flushed <==> intf in old(members[v]) && intf !in members[v])
        invariant forall v :: vid <= v < VLAN_MAX_COUNT ==> members[v] == old(members[v])
        invariant forall v :: VLAN_MIN_ID <= v < vid && existing[v] ==> intf !in members[v]
        invariant forall v :: 0 <= v < VLAN_MAX_COUNT ==>
                    members[v] == old(members[v]) || members[v] == old(members[v]) - {intf}
      {
        if IsExisting(vid) {
          var f;
          rc, f := MemberRemove(vid, intf, hwOk(vid));
          if rc != 0 {
            return rc, flushed;
          }
          if f {
            flushed := flushed + {vid};
          }
        }
        vid := vid + 1;
      }
      return 0, flushed;
    }
  }
}
