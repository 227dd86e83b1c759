/** Spanning-tree groups of the XPliant plugin: the translation between
    the switch daemon's port states and the SDK's span states, VLAN
    binding checks and the port-state calls. Each SDK call is an oracle
    argument; a result written through an out-pointer is an Option, None
    when the out-pointer is NULL or nothing is written. */
module XpStg {
  import opened Common
  import opened XpVlan

  /** `ops_stg_port_state_t`. */
  const OPS_STATE_DISABLED: int := 0
  const OPS_STATE_BLOCKED: int := 1
  const OPS_STATE_LEARNING: int := 2
  const OPS_STATE_FORWARDING: int := 3
  const OPS_STATE_NOT_SET: int := 4

  /** `xpsStpState_e`; `SpanOther` stands for any other SDK value. */
  datatype HwStpState = SpanDisable | SpanBlock | SpanLearn | SpanForward | SpanOther(code: int)

  predicate IsOpsStpState(s: int)
  {
    s == OPS_STATE_DISABLED || s == OPS_STATE_BLOCKED || s == OPS_STATE_LEARNING || s == OPS_STATE_FORWARDING
  }

  /** `ops_xp_get_hw_port_state_from_ops_state`: None stands for the
      false return (NULL out-pointer, NOT_SET or an unknown state). */
  function HwStateFromOps(opsState: int, outPresent: bool): (r: Option<HwStpState>)
    ensures r.Some? <==> outPresent && IsOpsStpState(opsState)
    ensures r.Some? ==> !r.value.SpanOther?
  {
    if !outPresent then None
    else if opsState == OPS_STATE_BLOCKED then Some(SpanBlock)
    else if opsState == OPS_STATE_DISABLED then Some(SpanDisable)
    else if opsState == OPS_STATE_LEARNING then Some(SpanLearn)
    else if opsState == OPS_STATE_FORWARDING then Some(SpanForward)
    else None
  }

  /** `ops_xp_get_ops_port_state_from_hw_state`. */
  function OpsStateFromHw(hw: HwStpState, outPresent: bool): (r: Option<int>)
    ensures r.Some? <==> outPresent && !hw.SpanOther?
    ensures r.Some? ==> IsOpsStpState(r.value)
  {
    if !outPresent then None
    else match hw
      case SpanBlock => Some(OPS_STATE_BLOCKED)
      case SpanDisable => Some(OPS_STATE_DISABLED)
      case SpanLearn => Some(OPS_STATE_LEARNING)
      case SpanForward => Some(OPS_STATE_FORWARDING)
      case SpanOther(_) => None
  }

  /** The two translations are inverse bijections between the four
      daemon states and the four hardware states. */
  lemma StateMapsInverse(s: int, h: HwStpState)
    ensures IsOpsStpState(s) ==> OpsStateFromHw(HwStateFromOps(s, true).value, true) == Some(s)
    ensures !h.SpanOther? ==> HwStateFromOps(OpsStateFromHw(h, true).value, true) == Some(h)
  {
  }

  /** The translation to hardware is one to one. */
  lemma HwStateFromOpsInjective(s1: int, s2: int)
    requires IsOpsStpState(s1) && IsOpsStpState(s2) && s1 != s2
    ensures HwStateFromOps(s1, true) != HwStateFromOps(s2, true)
  {
    StateMapsInverse(s1, SpanDisable);
    StateMapsInverse(s2, SpanDisable);
  }

  /** NOT_SET has no hardware state. */
  lemma NotSetHasNoHwState()
    ensures HwStateFromOps(OPS_STATE_NOT_SET, true).None?
  {
  }

  /** `ops_xp_create_stg`: the SDK's new group id, or EFAULT. */
  function CreateStg(hwOk: bool, stpId: int): (r: (int, Option<int>))
    ensures hwOk ==> r == (OK, Some(stpId))
    ensures !hwOk ==> r == (EFAULT, None)
  {
    if hwOk then (OK, Some(stpId)) else (EFAULT, None)
  }

  /** `ops_xp_add_stg_vlan` and `ops_xp_remove_stg_vlan`: a VLAN id that
      is invalid after the cast gives EINVAL before any SDK call, a
      refused (un)bind EFAULT. `hwOk` is the outcome of the (un)bind
      call. */
  function StgVlanBind(vid: int, hwOk: bool): (rc: int)
    ensures !IsVlanIdValid(VlanCast(vid)) ==> rc == EINVAL
    ensures IsVlanIdValid(VlanCast(vid)) ==> (rc == OK <==> hwOk) && (rc != OK ==> rc == EFAULT)
  {
    if !IsVlanIdValid(VlanCast(vid)) then EINVAL
    else if !hwOk then EFAULT
    else OK
  }

  /** The cast lets an id 2^16 above a valid one through: 4097 is refused
      but 65537 binds VLAN 1. */
  lemma StgVlanBindWrapsId()
    ensures StgVlanBind(0x1_0000 + 1, true) == OK
    ensures StgVlanBind(VLAN_MAX_ID + 2, true) == EINVAL
  {
  }

  /** `ops_xp_set_stg_port_state`: `ifId` is the interface of the netdev
      named, None when there is none. Returns the code and the hardware
      state written, if any. */
  function SetStgPortState(ifId: Option<nat>, stpState: int, hwOk: bool): (r: (int, Option<HwStpState>))
    ensures ifId.None? ==> r == (ENOENT, None)
    ensures ifId.Some? && !IsOpsStpState(stpState) ==> r == (EFAULT, None)
    ensures ifId.Some? && IsOpsStpState(stpState) ==>
              r.1 == HwStateFromOps(stpState, true) && r.0 == (if hwOk then OK else EFAULT)
  {
    if ifId.None? then (ENOENT, None)
    else
      var hw := HwStateFromOps(stpState, true);
      if hw.None? then (EFAULT, None)
      else if !hwOk then (EFAULT, hw)
      else (OK, hw)
  }

  /** `ops_xp_get_stg_port_state`: `hwState` is what the SDK reports,
      None when the call fails. */
  function GetStgPortState(ifId: Option<nat>, hwState: Option<HwStpState>, outPresent: bool): (r: (int, Option<int>))
    ensures ifId.None? ==> r == (ENOENT, None)
    ensures ifId.Some? && hwState.None? ==> r == (EFAULT, None)
    ensures ifId.Some? && hwState.Some? ==>
              (r.0 == OK <==> outPresent && !hwState.value.SpanOther?) && (r.0 != OK ==> r.0 == EFAULT)
    ensures r.0 == OK ==> r.1.Some? && IsOpsStpState(r.1.value)
  {
    if ifId.None? then (ENOENT, None)
    else if hwState.None? then (EFAULT, None)
    else
      var s := OpsStateFromHw(hwState.value, outPresent);
      if s.None? then (EFAULT, None) else (OK, s)
  }

  /** Reading back a state the set call wrote gives the state set. */
  lemma SetThenGetRoundTrip(ifId: nat, stpState: int)
    requires SetStgPortState(Some(ifId), stpState, true).0 == OK
    ensures GetStgPortState(Some(ifId), SetStgPortState(Some(ifId), stpState, true).1, true) == (OK, Some(stpState))
  {
    StateMapsInverse(stpState, SpanDisable);
  }
}
