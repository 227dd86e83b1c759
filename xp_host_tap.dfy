/** The TAP-based host interface of the XPliant plugin: one entry per TAP
    device, found by its file descriptor (the host interface id), and a
    second index by XPS interface id holding exactly the entries whose
    host filter exists. The filter id handed out is the interface id plus
    one. File descriptors, the kernel calls and the SDK's control-id query
    are arguments. */
module XpHostTap {
  import opened Common

  /** `struct tap_if_entry` without its hash nodes and fd. */
  datatype TapEntry = TapEntry(ifId: nat, sendIfId: nat, name: string, filterCreated: bool)

  /** Result of `xpsInterfaceGetType`: the call fails, or says whether the
      interface is a port. */
  datatype IfTypeQuery = TypeFails | IsPort | NotPort

  class TapInfo {
    /** `host_if_info->data` is set. */
    var initialized: bool
    /** `fd_to_tap_if_map`. */
    var byFd: map<int, TapEntry>
    /** `if_id_to_tap_if_map`: interface id to the fd of its entry. */
    var byIfId: map<nat, int>

    /** Host ids are positive, no two entries share an interface id, and
        the if-id index holds an entry exactly when that entry's filter is
        created, under the entry's own interface id. */
    ghost predicate Valid()
      reads this
    {
      && (forall fd :: fd in byFd ==> fd > 0)
      && UniqueIfIds()
      && (forall id :: id in byIfId ==>
            byIfId[id] in byFd && byFd[byIfId[id]].ifId == id && byFd[byIfId[id]].filterCreated)
      && (forall fd :: fd in byFd && byFd[fd].filterCreated ==>
            byFd[fd].ifId in byIfId && byIfId[byFd[fd].ifId] == fd)
    }

    /** No two entries share an interface id. */
    ghost predicate UniqueIfIds()
      reads this
    {
      forall fd1, fd2 :: fd1 in byFd && fd2 in byFd && byFd[fd1].ifId == byFd[fd2].ifId ==> fd1 == fd2
    }

    constructor (initialized: bool)
      ensures this.initialized == initialized && byFd == map[] && byIfId == map[]
      ensures Valid()
    {
      this.initialized := initialized;
      byFd := map[];
      byIfId := map[];
    }

    /** `tap_if_create`: `fd` is what the TUN allocation returns, and the
        two flags the outcome of the non-blocking and interface setup
        calls. A new entry starts without a filter and sends through its
        own interface id. */
    method IfCreate(name: string, xpsIfId: nat, fd: int, nonblockOk: bool, setupOk: bool)
      returns (rc: int, hostIfId: Option<int>)
      requires fd > 0 ==> fd !in byFd
      modifies `byFd
      ensures !initialized || fd <= 0 || !nonblockOk || !setupOk ==>
                rc == EFAULT && hostIfId.None? && byFd == old(byFd)
      ensures initialized && fd > 0 && nonblockOk && setupOk ==>
                rc == OK && hostIfId == Some(fd) &&
                byFd == old(byFd)[fd := TapEntry(xpsIfId, xpsIfId, name, false)]
      ensures old(Valid()) && (forall f :: f in old(byFd) ==> old(byFd)[f].ifId != xpsIfId) ==> Valid()
    {
      if !initialized || fd <= 0 || !nonblockOk || !setupOk {
        return EFAULT, None;
      }
      byFd := byFd[fd := TapEntry(xpsIfId, xpsIfId, name, false)];
      return OK, Some(fd);
    }

    /** `tap_if_filter_create`: EINVAL for a non-positive host id, ENOENT
        for an unknown one, nothing to do when the filter exists;
        otherwise the filter id is the interface id plus one and the entry
        joins the if-id index. */
    method FilterCreate(xpsIfId: nat, hostIfId: int) returns (rc: int, filterId: Option<nat>)
      requires Valid()
      modifies `byFd, `byIfId
      ensures Valid()
      ensures !initialized ==> rc == EFAULT
      ensures initialized && hostIfId <= 0 ==> rc == EINVAL
      ensures initialized && hostIfId > 0 && hostIfId !in old(byFd) ==> rc == ENOENT
      ensures initialized && hostIfId in old(byFd) && old(byFd)[hostIfId].filterCreated ==> rc == OK
      ensures !(initialized && hostIfId in old(byFd) && !old(byFd)[hostIfId].filterCreated) ==>
                filterId.None? && byFd == old(byFd) && byIfId == old(byIfId)
      ensures initialized && hostIfId in old(byFd) && !old(byFd)[hostIfId].filterCreated ==>
                && rc == OK && filterId == Some(xpsIfId + 1)
                && byFd == old(byFd)[hostIfId := old(byFd)[hostIfId].(filterCreated := true)]
                && byIfId == old(byIfId)[old(byFd)[hostIfId].ifId := hostIfId]
    {
      if !initialized {
        return EFAULT, None;
      }
      if hostIfId <= 0 {
        return EINVAL, None;
      }
      if hostIfId !in byFd {
        return ENOENT, None;
      }
      var e := byFd[hostIfId];
      if e.filterCreated {
        return OK, None;
      }
      byFd := byFd[hostIfId := e.(filterCreated := true)];
      byIfId := byIfId[e.ifId := hostIfId];
      return OK, Some(xpsIfId + 1);
    }

    /** `tap_if_filter_delete`: the entry is found under the filter id
        minus one; it leaves the if-id index and its filter flag is
        cleared. */
    method FilterDelete(filterId: int) returns (rc: int)
      requires Valid()
      modifies `byFd, `byIfId
      ensures Valid()
      ensures !initialized ==> rc == EFAULT && byFd == old(byFd) && byIfId == old(byIfId)
      ensures initialized && filterId <= 0 ==> rc == EINVAL && byFd == old(byFd) && byIfId == old(byIfId)
      ensures initialized && filterId > 0 && filterId - 1 !in old(byIfId) ==>
                rc == ENOENT && byFd == old(byFd) && byIfId == old(byIfId)
      ensures initialized && filterId > 0 && filterId - 1 in old(byIfId) ==>
                && rc == OK
                && byIfId == old(byIfId) - {filterId - 1}
                && byFd == old(byFd)[old(byIfId)[filterId - 1] := old(byFd)[old(byIfId)[filterId - 1]].(filterCreated := false)]
    {
      if !initialized {
        return EFAULT;
      }
      if filterId <= 0 {
        return EINVAL;
      }
      var id: nat := filterId - 1;
      if id !in byIfId {
        return ENOENT;
      }
      var fd := byIfId[id];
      byIfId := byIfId - {id};
      byFd := byFd[fd := byFd[fd].(filterCreated := false)];
      rc := OK;
    }

    /** `tap_if_delete`: EINVAL for a non-positive host id, ENOENT for an
        unknown one; otherwise the entry's filter is deleted and the entry
        removed. */
    method IfDelete(hostIfId: int) returns (rc: int)
      requires Valid()
      modifies `byFd, `byIfId
      ensures Valid()
      ensures !initialized ==> rc == EFAULT && byFd == old(byFd)
      ensures initialized && hostIfId <= 0 ==> rc == EINVAL && byFd == old(byFd)
      ensures initialized && hostIfId > 0 && hostIfId !in old(byFd) ==> rc == ENOENT && byFd == old(byFd)
      ensures initialized && hostIfId in old(byFd) ==>
                && rc == OK
                && byFd == old(byFd) - {hostIfId}
                && byIfId == old(byIfId) - {old(byFd)[hostIfId].ifId}
    {
      if !initialized {
        return EFAULT;
      }
      if hostIfId <= 0 {
        return EINVAL;
      }
      if hostIfId !in byFd {
        return ENOENT;
      }
      var e := byFd[hostIfId];
      assert e.ifId in byIfId ==> byIfId[e.ifId] == hostIfId;
      var ignored := FilterDelete(e.ifId + 1);
      assert byFd - {hostIfId} == old(byFd) - {hostIfId};
      byFd := byFd - {hostIfId};
      rc := OK;
    }

    /** `tap_if_control_id_set`: setting points the entry's send id at the
        port's control interface (`controlId`, None when the SDK cannot
        give it) and leaves non-port interfaces alone; clearing restores
        the interface id given. */
    method ControlIdSet(xpsIfId: nat, hostIfId: int, setControl: bool, ifType: IfTypeQuery, controlId: Option<nat>)
      returns (rc: int)
      requires Valid()
      modifies `byFd
      ensures byFd.Keys == old(byFd).Keys
      ensures forall fd :: fd in byFd && fd != hostIfId ==> byFd[fd] == old(byFd)[fd]
      ensures forall fd :: fd in byFd ==> byFd[fd].(sendIfId := old(byFd)[fd].sendIfId) == old(byFd)[fd]
      ensures !initialized ==> rc == EFAULT && byFd == old(byFd)
      ensures initialized && hostIfId <= 0 ==> rc == EINVAL && byFd == old(byFd)
      ensures initialized && hostIfId > 0 && hostIfId !in old(byFd) ==> rc == ENOENT && byFd == old(byFd)
      ensures initialized && hostIfId in old(byFd) && !setControl ==> rc == OK && byFd[hostIfId].sendIfId == xpsIfId
      ensures initialized && hostIfId in old(byFd) && setControl ==>
                && (ifType.TypeFails? ==> rc == EPERM && byFd == old(byFd))
                && (ifType.NotPort? ==> rc == OK && byFd == old(byFd))
                && (ifType.IsPort? && controlId.None? ==> rc == EPERM && byFd == old(byFd))
                && (ifType.IsPort? && controlId.Some? ==> rc == OK && byFd[hostIfId].sendIfId == controlId.value)
      ensures Valid()
    {
      if !initialized {
        return EFAULT;
      }
      if hostIfId <= 0 {
        return EINVAL;
      }
      if hostIfId !in byFd {
        return ENOENT;
      }
      if setControl {
        match ifType {
          case TypeFails => return EPERM;
          case NotPort => return OK;
          case IsPort =>
        }
        if controlId.None? {
          return EPERM;
        }
        byFd := byFd[hostIfId := byFd[hostIfId].(sendIfId := controlId.value)];
      } else {
        byFd := byFd[hostIfId := byFd[hostIfId].(sendIfId := xpsIfId)];
      }
      rc := OK;
    }
  }
}
