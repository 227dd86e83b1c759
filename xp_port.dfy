/** Port state of the XPliant plugin: the configured state of a port
    (`struct port_cfg`) and the plugin's per-port hardware record
    (`struct xp_port_info`), kept in a table keyed by port number as
    `ops_xp_dev_get_port_info` finds them. Each SDK call that can fail is
    an oracle argument. */
module XpPort {
  import opened Common

  /** `struct port_cfg`: the configured or intended state of a port. */
  datatype PortCfg = PortCfg(enable: bool, autoneg: bool, speed: int, duplex: int,
                             pauseRx: bool, pauseTx: bool, mtu: int)

  /** The configuration a zeroed `struct port_cfg` holds. */
  const ZERO_CFG: PortCfg := PortCfg(false, false, 0, 0, false, false, 0)

  /** `xpMacConfigMode`: the lane split modes the plugin names, and any
      other SDK value by its code. */
  datatype MacMode = Mac1x10 | Mac1x40 | Mac1x50 | Mac1x100 | Mac4x10 | MacOther(code: int)

  /** `struct xp_port_info` without the device id and port number, which
      key the table. */
  datatype PortInfo = PortInfo(hwEnable: bool, serdesTuned: bool, initialized: bool,
                               splitPortCount: nat, macMode: MacMode)

  /** Outcomes of the SDK calls one `ops_xp_port_mac_mode_set` makes:
      whether the port reports itself initialised, the MAC-number lookup
      and the port-group init of the initialisation step, the MAC-number
      lookup and the mode switch proper, and the enable call per port. */
  datatype MacModeSdk = MacModeSdk(portInited: bool, initMacNumOk: bool, groupInitOk: bool,
                                   macNumOk: bool, switchOk: bool, enableOk: nat -> bool)

  /** The record after the enable state is set to `enable` by
      `ops_xp_port_set_enable`. */
  function EnableUpdate(pi: PortInfo, enable: bool): (r: PortInfo)
    ensures r.hwEnable == enable
    ensures pi.hwEnable == enable ==> r == pi
    ensures pi.hwEnable != enable && enable ==> !r.serdesTuned
    ensures !enable ==> r.serdesTuned == pi.serdesTuned
    ensures r.initialized == pi.initialized && r.splitPortCount == pi.splitPortCount && r.macMode == pi.macMode
  {
    if pi.hwEnable == enable then pi
    else if enable then pi.(hwEnable := true, serdesTuned := false)
    else pi.(hwEnable := false)
  }

  /** Number of ports a switch to `mode` disables, starting at the port
      itself: the split ports for 4x10G, the port alone otherwise. */
  function SwitchedPortCount(mode: MacMode, pi: PortInfo): nat
  {
    if mode == Mac4x10 then pi.splitPortCount else 1
  }

  /** The table with every present port in [from, from + cnt) disabled. */
  function DisableRange(info: map<nat, PortInfo>, from: nat, cnt: nat): (r: map<nat, PortInfo>)
    ensures r.Keys == info.Keys
    ensures forall q :: q in r ==> (r[q].hwEnable <==> info[q].hwEnable && !(from <= q < from + cnt))
    ensures forall q :: q in r ==> r[q].(hwEnable := info[q].hwEnable) == info[q]
  {
    map q | q in info :: if from <= q < from + cnt then info[q].(hwEnable := false) else info[q]
  }

  /** Extending the range by one port disables that port, if present. */
  lemma DisableRangeStep(info: map<nat, PortInfo>, from: nat, i: nat)
    ensures var d := DisableRange(info, from, i);
            DisableRange(info, from, i + 1) == if from + i in d then d[from + i := d[from + i].(hwEnable := false)] else d
  {
  }

  /** Every present port in [from, from + cnt) accepts the enable call. */
  predicate AllEnableOk(ports: set<nat>, from: nat, cnt: nat, ok: nat -> bool)
  {
    forall q :: from <= q < from + cnt && q in ports ==> ok(q)
  }

  /** Initialisation step of `ops_xp_port_mac_mode_set`: it succeeds when
      the port was initialised, reports itself so, or its port group can
      be initialised. */
  predicate InitSucceeds(pi: PortInfo, sdk: MacModeSdk)
  {
    pi.initialized || sdk.portInited || (sdk.initMacNumOk && sdk.groupInitOk)
  }

  class PortTable {
    /** Port number to its record; absent ports have no `xp_port_info`. */
    var info: map<nat, PortInfo>

    constructor (ports: map<nat, PortInfo>)
      ensures info == ports
    {
      info := ports;
    }

    /** `ops_xp_port_get_enable`: the recorded enable state, or EPERM for
        an unknown port. */
    method GetEnable(p: nat) returns (rc: int, enable: bool)
      ensures p in info ==> rc == OK && enable == info[p].hwEnable
      ensures p !in info ==> rc == EPERM
    {
      if p in info {
        return OK, info[p].hwEnable;
      }
      return EPERM, false;
    }

    /** `ops_xp_port_set_enable`: the record changes only when the state
        differs, and then even if the SDK call fails (EPERM). */
    method SetEnable(p: nat, enable: bool, hwOk: bool) returns (rc: int)
      modifies this
      ensures p !in old(info) ==> rc == EPERM && info == old(info)
      ensures p in old(info) ==> info == old(info)[p := EnableUpdate(old(info)[p], enable)]
      ensures p in old(info) && old(info)[p].hwEnable == enable ==> rc == OK
      ensures p in old(info) && old(info)[p].hwEnable != enable ==> rc == (if hwOk then OK else EPERM)
    {
      if p !in info {
        return EPERM;
      }
      rc := OK;
      if info[p].hwEnable != enable {
        if !hwOk {
          rc := EPERM;
        }
        info := info[p := EnableUpdate(info[p], enable)];
      }
    }

    /** The disabling loop of `ops_xp_port_mac_mode_set`: ports p .. p+cnt-1
        that are present are disabled one by one, stopping with EFAULT at
        the first the SDK refuses. */
    method DisableSwitchedPorts(p: nat, cnt: nat, enableOk: nat -> bool) returns (rc: int)
      modifies this
      ensures rc == OK <==> AllEnableOk(old(info).Keys, p, cnt, enableOk)
      ensures rc != OK ==> rc == EFAULT
      ensures rc == OK ==> info == DisableRange(old(info), p, cnt)
      ensures info.Keys == old(info).Keys
      ensures forall q :: q in info ==> info[q].(hwEnable := old(info)[q].hwEnable) == old(info)[q]
      ensures forall q :: q in info && !(p <= q < p + cnt) ==> info[q] == old(info)[q]
    {
      ghost var start := info;
      var i := 0;
      while i < cnt
        invariant 0 <= i <= cnt
        invariant info == DisableRange(start, p, i)
        invariant AllEnableOk(start.Keys, p, i, enableOk)
      {
        DisableRangeStep(start, p, i);
        if p + i in info {
          info := info[p + i := info[p + i].(hwEnable := false)];
          if !enableOk(p + i) {
            return EFAULT;
          }
        }
        i := i + 1;
      }
      return OK;
    }

    /** The initialisation step of `ops_xp_port_mac_mode_set`: a port not
        yet initialised is asked whether it is, and otherwise has its port
        group initialised; either failing SDK call gives up. */
    method EnsureInitialized(p: nat, sdk: MacModeSdk) returns (ok: bool)
      requires p in info
      modifies this
      ensures ok == InitSucceeds(old(info)[p], sdk)
      ensures ok ==> info == old(info)[p := old(info)[p].(initialized := true)]
      ensures !ok ==> info == old(info)
    {
      if info[p].initialized {
        return true;
      }
      if !sdk.portInited && (!sdk.initMacNumOk || !sdk.groupInitOk) {
        return false;
      }
      info := info[p := info[p].(initialized := true)];
      return true;
    }

    /** `ops_xp_port_mac_mode_set`: initialises the port if needed, then
        switches it to `mode` unless it is in that mode already; a switch
        disables the ports it covers and records the new mode. */
    method MacModeSet(p: nat, mode: MacMode, sdk: MacModeSdk) returns (rc: int)
      requires p in info
      modifies this
      ensures p in info && info.Keys == old(info).Keys
      ensures rc != OK ==> rc == EFAULT
      ensures !InitSucceeds(old(info)[p], sdk) ==> rc == EFAULT && info == old(info)
      ensures InitSucceeds(old(info)[p], sdk) ==> info[p].initialized
      ensures InitSucceeds(old(info)[p], sdk) && mode == old(info)[p].macMode ==>
                rc == OK && forall q :: q in info ==> info[q].hwEnable == old(info)[q].hwEnable
      ensures InitSucceeds(old(info)[p], sdk) && mode != old(info)[p].macMode ==>
                (rc == OK <==> sdk.macNumOk && sdk.switchOk &&
                               AllEnableOk(old(info).Keys, p, SwitchedPortCount(mode, old(info)[p]), sdk.enableOk))
      ensures rc == OK ==> info[p].macMode == mode
      ensures rc != OK ==> info[p].macMode == old(info)[p].macMode
      ensures rc == OK && mode != old(info)[p].macMode ==>
                forall q :: q in info && p <= q < p + SwitchedPortCount(mode, old(info)[p]) ==> !info[q].hwEnable
      ensures forall q :: q in info && q != p && !(p <= q < p + SwitchedPortCount(mode, old(info)[p])) ==>
                info[q] == old(info)[q]
    {
      var inited := EnsureInitialized(p, sdk);
      if !inited {
        return EFAULT;
      }
      rc := SwitchMode(p, mode, sdk);
    }

    /** The switch proper of `ops_xp_port_mac_mode_set`, on an initialised
        port: nothing to do in the current mode; otherwise the MAC-number
        lookup and the switch call, then the covered ports are disabled and
        the mode recorded. */
    method SwitchMode(p: nat, mode: MacMode, sdk: MacModeSdk) returns (rc: int)
      requires p in info && info[p].initialized
      modifies this
      ensures p in info && info.Keys == old(info).Keys && info[p].initialized
      ensures rc != OK ==> rc == EFAULT
      ensures mode == old(info)[p].macMode ==> rc == OK && info == old(info)
      ensures mode != old(info)[p].macMode ==>
                (rc == OK <==> sdk.macNumOk && sdk.switchOk &&
                               AllEnableOk(old(info).Keys, p, SwitchedPortCount(mode, old(info)[p]), sdk.enableOk))
      ensures rc == OK ==> info[p].macMode == mode
      ensures rc != OK ==> info[p].macMode == old(info)[p].macMode
      ensures rc == OK && mode != old(info)[p].macMode ==>
                forall q :: q in info && p <= q < p + SwitchedPortCount(mode, old(info)[p]) ==> !info[q].hwEnable
      ensures forall q :: q in info && q != p && !(p <= q < p + SwitchedPortCount(mode, old(info)[p])) ==>
                info[q] == old(info)[q]
    {
      if mode == info[p].macMode {
        return OK;
      }
      if !sdk.macNumOk || !sdk.switchOk {
        return EFAULT;
      }
      var cnt := SwitchedPortCount(mode, info[p]);
      rc := DisableSwitchedPorts(p, cnt, sdk.enableOk);
      if rc != OK {
        return;
      }
      info := info[p := info[p].(macMode := mode)];
    }
  }
}
