/** Hardware LAG membership as the XPliant plugin keeps it: the SDK's LAG
    table (LAG interface id to member ports) is state the model owns, and
    each SDK call that can fail is an oracle argument. The LAG control-id
    flag of a port is the TAP layer's `send_if_id` pointing at the LAG
    instead of the port itself. */
module XpLag {
  import opened Common

  /** Outcome of the hardware steps that add a port to a LAG: the
      control-id call fails with `rc`, the add fails, the deploy fails
      after the add, or all succeed. */
  datatype AttachOutcome = ControlFails(rc: int) | AddFails | DeployFails | Attached

  /** Outcome of the hardware steps that take a port out of a LAG: the
      remove fails, the deploy fails after the remove, the L3 unbind
      fails after the deploy, or all succeed. */
  datatype DetachOutcome = RemoveFails | DeployFailsAfterRemove | UnbindFails | Detached

  /** `enum bond_mode`. */
  datatype BondMode = BalanceL2SrcDst | BalanceL3SrcDst | BalanceOther

  datatype LagHashField = MacDa | MacSa | Ipv4SrcIp | Ipv4DstIp

  /** `ops_xp_lag_set_balance_mode`: MAC DA and SA for L2 balancing, IPv4
      source and destination for L3, EPERM for any other mode, EFAULT when
      the SDK refuses the fields. */
  function SetBalanceMode(mode: BondMode, hwOk: bool): (r: (int, seq<LagHashField>))
    ensures mode.BalanceOther? <==> r.0 == EPERM
    ensures r.0 == EFAULT <==> !mode.BalanceOther? && !hwOk
    ensures r.0 != EPERM ==> |r.1| == 2
    ensures mode.BalanceL2SrcDst? ==> r.1 == [MacDa, MacSa]
    ensures mode.BalanceL3SrcDst? ==> r.1 == [Ipv4SrcIp, Ipv4DstIp]
    ensures r.0 == OK <==> !mode.BalanceOther? && hwOk
  {
    var fields := match mode
      case BalanceL2SrcDst => [MacDa, MacSa]
      case BalanceL3SrcDst => [Ipv4SrcIp, Ipv4DstIp]
      case BalanceOther => [];
    if mode.BalanceOther? then (EPERM, [])
    else if !hwOk then (EFAULT, fields)
    else (OK, fields)
  }

  function Elems(xs: seq<nat>): set<nat>
  {
    set x | x in xs
  }

  lemma ElemsAppend(xs: seq<nat>, x: nat)
    ensures Elems(xs + [x]) == Elems(xs) + {x}
  {
  }

  class LagTable {
    /** The SDK's LAGs: interface id to member ports. */
    var lags: map<nat, set<nat>>
    /** Ports whose LAG control id is set. */
    var controlSet: set<nat>
    /** Ports that have a netdev. */
    var netdevs: set<nat>

    /** A port is in at most one LAG. */
    ghost predicate Exclusive()
      reads this
    {
      forall l1, l2, p :: l1 in lags && l2 in lags && p in lags[l1] && p in lags[l2] ==> l1 == l2
    }

    constructor (ports: set<nat>)
      ensures lags == map[] && controlSet == {} && netdevs == ports && Exclusive()
    {
      lags := map[];
      controlSet := {};
      netdevs := ports;
    }

    /** `lag_is_port_attached`. */
    predicate IsPortAttached(lagId: nat, p: nat)
      reads this
    {
      lagId in lags && p in lags[lagId]
    }

    /** The `xpsLagGetFirst`/`xpsLagGetNext` scan of
        `lag_attach_port_on_hw`: stops at a LAG holding the port. */
    method FindOwner(p: nat) returns (r: Option<nat>)
      ensures r.None? <==> forall l :: l in lags ==> p !in lags[l]
      ensures r.Some? ==> IsPortAttached(r.value, p)
    {
      var unseen := lags.Keys;
      while unseen != {}
        invariant unseen <= lags.Keys
        invariant forall l :: l in lags && l !in unseen ==> p !in lags[l]
        decreases unseen
      {
        var l :| l in unseen;
        if p in lags[l] {
          return Some(l);
        }
        unseen := unseen - {l};
      }
      return None;
    }

    /** `ops_xp_lag_create`: a new empty LAG, or EFAULT when the SDK
        cannot create one. */
    method Create(createOk: bool, newId: nat) returns (rc: int, lagId: nat)
      requires newId !in lags
      modifies `lags
      ensures createOk ==> rc == OK && lagId == newId && lags == old(lags)[newId := {}]
      ensures !createOk ==> rc == EFAULT && lags == old(lags)
      ensures old(Exclusive()) ==> Exclusive()
    {
      if !createOk {
        return EFAULT, 0;
      }
      lags := lags[newId := {}];
      return OK, newId;
    }

    /** `lag_detach_port_on_hw`: a non-member is left alone; otherwise
        the port leaves the LAG and its control id is cleared if it has a
        netdev. A failed remove gives EFAULT with the port still a member;
        a failed deploy or L3 unbind gives EFAULT with the port already
        out of the LAG and its control id left set. */
    method DetachPortOnHw(lagId: nat, p: nat, outcome: DetachOutcome) returns (rc: int)
      modifies `lags, `controlSet
      ensures !old(IsPortAttached(lagId, p)) ==> rc == OK && lags == old(lags) && controlSet == old(controlSet)
      ensures old(IsPortAttached(lagId, p)) && outcome.RemoveFails? ==>
                rc == EFAULT && lags == old(lags) && controlSet == old(controlSet)
      ensures old(IsPortAttached(lagId, p)) && (outcome.DeployFailsAfterRemove? || outcome.UnbindFails?) ==>
                rc == EFAULT && lags == old(lags)[lagId := old(lags)[lagId] - {p}] && controlSet == old(controlSet)
      ensures old(IsPortAttached(lagId, p)) && outcome.Detached? ==>
                && rc == OK
                && lags == old(lags)[lagId := old(lags)[lagId] - {p}]
                && controlSet == (if p in netdevs then old(controlSet) - {p} else old(controlSet))
      ensures old(Exclusive()) ==> Exclusive()
    {
      if !IsPortAttached(lagId, p) {
        return OK;
      }
      if outcome.RemoveFails? {
        return EFAULT;
      }
      lags := lags[lagId := lags[lagId] - {p}];
      if !outcome.Detached? {
        return EFAULT;
      }
      if p in netdevs {
        controlSet := controlSet - {p};
      }
      rc := OK;
    }

    /** `lag_attach_port_on_hw`: a port already in this LAG is left
        alone; a port held by another LAG is detached from it first; a
        port without netdev gives ENOENT; then the control id is set, the
        port added and the LAG deployed, and a failed add or deploy
        clears the control id again. */
    method AttachPortOnHw(lagId: nat, p: nat, outcome: AttachOutcome, detach: DetachOutcome) returns (rc: int)
      requires lagId in lags
      modifies `lags, `controlSet
      ensures lagId in lags
      ensures old(IsPortAttached(lagId, p)) && old(Exclusive()) ==> rc == OK && lags == old(lags) && controlSet == old(controlSet)
      ensures !old(IsPortAttached(lagId, p)) && p !in netdevs ==> rc == ENOENT && !IsPortAttached(lagId, p)
      ensures !old(IsPortAttached(lagId, p)) && p in netdevs ==>
                && (outcome.ControlFails? ==> rc == outcome.rc && !IsPortAttached(lagId, p))
                && (outcome.AddFails? ==> rc == EFAULT && !IsPortAttached(lagId, p) && p !in controlSet)
                && (outcome.DeployFails? ==> rc == EFAULT && IsPortAttached(lagId, p) && p !in controlSet)
                && (outcome.Attached? ==> rc == OK && IsPortAttached(lagId, p) && p in controlSet)
      ensures forall l, q :: l in lags && q in lags[l] && q != p ==> l in old(lags) && q in old(lags)[l]
      ensures forall l, q :: l in old(lags) && q in old(lags)[l] && q != p ==> l in lags && q in lags[l]
      ensures lags.Keys == old(lags).Keys
      ensures forall q :: q != p ==> (q in controlSet <==> q in old(controlSet))
      ensures old(Exclusive()) && !detach.RemoveFails? ==> Exclusive()
    {
      var owner := FindOwner(p);
      if owner.Some? {
        if owner.value == lagId {
          return OK;
        }
        var ignored := DetachPortOnHw(owner.value, p, detach);
      }
      if p !in netdevs {
        return ENOENT;
      }
      rc := AddOnHw(lagId, p, outcome);
    }

    /** The SDK part of `lag_attach_port_on_hw`: set the control id, add
        the port, deploy; a failed add or deploy clears the control id. */
    method AddOnHw(lagId: nat, p: nat, outcome: AttachOutcome) returns (rc: int)
      requires lagId in lags
      modifies `lags, `controlSet
      ensures outcome.ControlFails? ==> rc == outcome.rc && lags == old(lags) && controlSet == old(controlSet)
      ensures outcome.AddFails? ==> rc == EFAULT && lags == old(lags) && controlSet == old(controlSet) - {p}
      ensures outcome.DeployFails? ==>
                rc == EFAULT && lags == old(lags)[lagId := old(lags)[lagId] + {p}] && controlSet == old(controlSet) - {p}
      ensures outcome.Attached? ==>
                rc == OK && lags == old(lags)[lagId := old(lags)[lagId] + {p}] && controlSet == old(controlSet) + {p}
    {
      match outcome {
        case ControlFails(r) =>
          return r;
        case AddFails =>
          controlSet := controlSet - {p};
          return EFAULT;
        case DeployFails =>
          lags := lags[lagId := lags[lagId] + {p}];
          controlSet := controlSet - {p};
          return EFAULT;
        case Attached =>
          lags := lags[lagId := lags[lagId] + {p}];
          controlSet := controlSet + {p};
          return OK;
      }
    }

    /** `ops_xp_lag_attach_ports`: members the list no longer names are
        detached, then each listed port that is not yet a member is
        attached. `listOk` says the SDK returns the LAG's member list. */
    method AttachPorts(lagId: nat, ifList: seq<nat>, listOk: bool, outcome: nat -> AttachOutcome, detach: nat -> DetachOutcome)
      returns (rc: int)
      requires lagId in lags
      modifies `lags, `controlSet
      ensures lagId in lags
      ensures !listOk ==> rc == EFAULT && lags == old(lags) && controlSet == old(controlSet)
      ensures listOk ==> rc == OK
      ensures listOk && (forall p :: outcome(p) == Attached && !detach(p).RemoveFails?) && Elems(ifList) <= netdevs ==>
                lags[lagId] == Elems(ifList)
      ensures (forall p :: !detach(p).RemoveFails?) && old(Exclusive()) ==> Exclusive()
    {
      if !listOk {
        return EFAULT;
      }
      var hwList := lags[lagId];
      var toDetach := hwList - Elems(ifList);
      ghost var allOk := (forall p :: outcome(p) == Attached && !detach(p).RemoveFails?) && Elems(ifList) <= netdevs;
      ghost var allDetach := (forall p :: !detach(p).RemoveFails?) && old(Exclusive());
      while toDetach != {}
        invariant lagId in lags
        invariant toDetach <= hwList - Elems(ifList)
        invariant allOk ==> lags[lagId] == (hwList * Elems(ifList)) + toDetach
        invariant allDetach ==> Exclusive()
        decreases toDetach
      {
        var q :| q in toDetach;
        var ignored := DetachPortOnHw(lagId, q, detach(q));
        toDetach := toDetach - {q};
      }
      var i := 0;
      while i < |ifList|
        invariant 0 <= i <= |ifList|
        invariant lagId in lags
        invariant allOk ==> lags[lagId] == (hwList * Elems(ifList)) + Elems(ifList[..i])
        invariant allDetach ==> Exclusive()
      {
        ElemsAppend(ifList[..i], ifList[i]);
        assert ifList[..i + 1] == ifList[..i] + [ifList[i]];
        if !IsPortAttached(lagId, ifList[i]) {
          var ignored := AttachPortOnHw(lagId, ifList[i], outcome(ifList[i]), detach(ifList[i]));
        }
        i := i + 1;
      }
      assert ifList[..i] == ifList;
      rc := OK;
    }

    /** `ops_xp_lag_destroy`: every member is detached, then the LAG is
        deployed and destroyed. Nothing changes when the member list cannot
        be read; the LAG stays, emptied, when the destroy call fails. */
    method Destroy(lagId: nat, listOk: bool, detach: nat -> DetachOutcome, destroyOk: bool)
      requires lagId in lags
      modifies `lags, `controlSet
      ensures !listOk ==> lags == old(lags) && controlSet == old(controlSet)
      ensures listOk && destroyOk ==> lagId !in lags
      ensures listOk && (forall p :: p in old(lags)[lagId] ==> !detach(p).RemoveFails?) ==>
                lagId in lags ==> lags[lagId] == {}
      ensures listOk && (forall p :: p in old(lags)[lagId] ==> detach(p).Detached?) ==>
                forall p :: p in old(lags)[lagId] && p in netdevs ==> p !in controlSet
      ensures forall l :: l in lags && l != lagId ==> l in old(lags) && lags[l] == old(lags)[l]
      ensures old(Exclusive()) ==> Exclusive()
    {
      if !listOk {
        return;
      }
      var members := lags[lagId];
      var toDetach := members;
      while toDetach != {}
        invariant lagId in lags
        invariant toDetach <= members
        invariant lags[lagId] <= members
        invariant (forall p :: p in members ==> !detach(p).RemoveFails?) ==> lags[lagId] == toDetach
        invariant (forall p :: p in members ==> detach(p).Detached?) ==>
                    forall p :: p in members - toDetach && p in netdevs ==> p !in controlSet
        invariant lags.Keys == old(lags).Keys
        invariant forall l :: l in lags && l != lagId ==> lags[l] == old(lags)[l]
        invariant old(Exclusive()) ==> Exclusive()
        decreases toDetach
      {
        var q :| q in toDetach;
        var ignored := DetachPortOnHw(lagId, q, detach(q));
        toDetach := toDetach - {q};
      }
      if destroyOk {
        lags := lags - {lagId};
      }
    }
  }
}
