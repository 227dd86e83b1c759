/** The XPliant network device: parsing of the hardware interface
    configuration the switch daemon hands down, the decision whether it
    changes anything, the lane split mode a port needs, the link and flag
    handling, and the MAC address a new device gets. The netdev's fields
    that these operations update are a class; the port records it drives
    are the `XpPort.PortTable`. */
module XpNetdev {
  import opened Common
  import opened XpPort

  /** Values of the `hw_intf_config` keys the parsers compare against, as
      the OpenSwitch schema defines them. */
  const AUTONEG_ON: string := "on"
  const DUPLEX_FULL: string := "full"
  const PAUSE_RX: string := "rx"
  const PAUSE_TX: string := "tx"
  const PAUSE_RXTX: string := "rxtx"

  /** Speed used when the configured speed list does not parse. */
  const DEFAULT_SPEED: int := 40000

  /** `STR_EQ`: false when the configured value is absent. */
  predicate StrEq(cfg: Option<string>, s: string)
  {
    cfg.Some? && cfg.value == s
  }

  /** The `%d` conversion of `sscanf`: white space (as `isspace` sees
      it), an optional sign and at least one digit, or no conversion at
      all. */
  function ScanInt(s: string): (r: Option<int>)
    ensures s != [] && '0' <= s[0] <= '9' ==>
              r == Some(DecimalValue(s[..DigitPrefixLen(s)]) as int)
    ensures (forall i :: 0 <= i < |s| ==> !('0' <= s[i] <= '9')) ==> r.None?
  {
    if s != [] && IsSpace(s[0]) then ScanInt(s[1..])
    else if s != [] && (s[0] == '-' || s[0] == '+') then
      var n := DigitPrefixLen(s[1..]);
      if n == 0 then None
      else
        var v := DecimalValue(s[1..][..n]) as int;
        Some(if s[0] == '-' then -v else v)
    else if DigitPrefixLen(s) == 0 then None
    else Some(DecimalValue(s[..DigitPrefixLen(s)]) as int)
  }

  /** `get_interface_speed_config`: the first number of the speed list,
      40000 when there is none. */
  function SpeedConfig(speeds: Option<string>): (speed: int)
    ensures (speeds.None? || forall i :: 0 <= i < |speeds.value| ==> !('0' <= speeds.value[i] <= '9')) ==>
              speed == DEFAULT_SPEED
  {
    if speeds.None? then DEFAULT_SPEED
    else match ScanInt(speeds.value)
      case Some(v) => v
      case None => DEFAULT_SPEED
  }

  /** A speed list that starts with the decimal form of a speed, followed
      by a separator or nothing, configures exactly that speed. */
  lemma SpeedConfigReadsFirstSpeed(n: nat, rest: string)
    requires rest == [] || !('0' <= rest[0] <= '9')
    ensures SpeedConfig(Some(NatToDecimal(n) + rest)) == n
  {
    var d := NatToDecimal(n);
    DigitPrefixOfDigits(d, rest);
    assert (d + rest)[..|d|] == d;
    NatToDecimalValue(n);
  }

  /** The `hw_intf_config` map of an interface, with the enable flag and
      the MTU already read by `smap_get_bool` and `smap_get_int`; the
      other keys are None when absent. */
  datatype HwIntfConfig = HwIntfConfig(enable: bool, autoneg: Option<string>, speeds: Option<string>,
                                       duplex: Option<string>, pause: Option<string>, mtu: int)

  /** The port configuration `netdev_xpliant_set_hw_intf_config` builds:
      the parsed keys when enabled, an all-zero configuration otherwise.
      Autoneg and duplex hold only for their ON and FULL values; the pause
      value selects receive, transmit or both. */
  function RequestedCfg(args: HwIntfConfig): (r: PortCfg)
    ensures !args.enable ==> r == ZERO_CFG
    ensures args.enable ==>
              && r.enable
              && (r.autoneg <==> StrEq(args.autoneg, AUTONEG_ON))
              && r.speed == SpeedConfig(args.speeds)
              && r.duplex == (if StrEq(args.duplex, DUPLEX_FULL) then 1 else 0)
              && (r.pauseRx <==> StrEq(args.pause, PAUSE_RX) || StrEq(args.pause, PAUSE_RXTX))
              && (r.pauseTx <==> StrEq(args.pause, PAUSE_TX) || StrEq(args.pause, PAUSE_RXTX))
              && r.mtu == args.mtu
  {
    if !args.enable then ZERO_CFG
    else
      var pause :=
        if StrEq(args.pause, PAUSE_RX) then (true, false)
        else if StrEq(args.pause, PAUSE_TX) then (false, true)
        else if StrEq(args.pause, PAUSE_RXTX) then (true, true)
        else (false, false);
      PortCfg(true, StrEq(args.autoneg, AUTONEG_ON), SpeedConfig(args.speeds),
              if StrEq(args.duplex, DUPLEX_FULL) then 1 else 0, pause.0, pause.1, args.mtu)
  }

  /** `is_port_config_changed`: some of the seven fields differ. */
  function IsPortConfigChanged(cur: PortCfg, cfg: PortCfg): (changed: bool)
    ensures changed <==> cur != cfg
  {
    cur.enable != cfg.enable || cur.autoneg != cfg.autoneg || cur.speed != cfg.speed ||
    cur.duplex != cfg.duplex || cur.pauseRx != cfg.pauseRx || cur.pauseTx != cfg.pauseTx ||
    cur.mtu != cfg.mtu
  }

  /** The single-lane modes a split parent may take. */
  predicate IsSingleLaneMode(m: MacMode)
  {
    m == Mac1x10 || m == Mac1x40 || m == Mac1x50 || m == Mac1x100
  }

  /** `get_parent_mac_mode`: the single-lane mode for the configured
      speed, 1x40G for any speed it does not name. */
  function ParentMacMode(speed: int): (m: MacMode)
    ensures IsSingleLaneMode(m)
    ensures m == Mac1x10 <==> speed == 10000
    ensures m == Mac1x50 <==> speed == 50000
    ensures m == Mac1x100 <==> speed == 100000
  {
    if speed == 10000 then Mac1x10
    else if speed == 50000 then Mac1x50
    else if speed == 100000 then Mac1x100
    else Mac1x40
  }

  /** The port whose MAC mode `netdev_xpliant_set_hw_intf_config` sets
      and the mode: a split parent takes the mode for its speed, a subport
      puts its parent in 4x10G, any other port is put in 4x10G. */
  function MacModeTarget(isSplitParent: bool, isSplitSubport: bool, portNum: nat, parentPortNum: nat,
                         speed: int): (r: (nat, MacMode))
    ensures isSplitParent ==> r == (portNum, ParentMacMode(speed))
    ensures !isSplitParent && isSplitSubport ==> r == (parentPortNum, Mac4x10)
    ensures !isSplitParent && !isSplitSubport ==> r == (portNum, Mac4x10)
  {
    if isSplitParent then (portNum, ParentMacMode(speed))
    else if isSplitSubport then (parentPortNum, Mac4x10)
    else (portNum, Mac4x10)
  }

  /** The MAC address a netdev gets from counter value n: aa:55 followed
      by the 32-bit counter, most significant byte first. The counter
      starts at 0xaa550000 and grows by one per netdev constructed. */
  function HwAddr(n: nat): (a: seq<byte>)
    ensures |a| == 6 && a[0] == 0xaa && a[1] == 0x55
  {
    var c := n % 0x1_0000_0000;
    [0xaa, 0x55, ((c / 0x100_0000) % 0x100) as byte, ((c / 0x1_0000) % 0x100) as byte,
     ((c / 0x100) % 0x100) as byte, (c % 0x100) as byte]
  }

  /** The last four bytes of the address give back the counter modulo
      2^32, so netdevs created less than 2^32 apart get distinct
      addresses. */
  lemma HwAddrEncodesCounter(n: nat)
    ensures (HwAddr(n)[2] as int) * 0x100_0000 + (HwAddr(n)[3] as int) * 0x1_0000 +
            (HwAddr(n)[4] as int) * 0x100 + (HwAddr(n)[5] as int) == n % 0x1_0000_0000
  {
    var c := n % 0x1_0000_0000;
    var b2 := (c / 0x100_0000) % 0x100;
    var b3 := (c / 0x1_0000) % 0x100;
    var b4 := (c / 0x100) % 0x100;
    var b5 := c % 0x100;
    assert c / 0x100_0000 < 0x100;
    assert c == (c / 0x100) * 0x100 + b5;
    assert c / 0x100 == (c / 0x1_0000) * 0x100 + b4;
    assert c / 0x1_0000 == (c / 0x100_0000) * 0x100 + b3;
  }

  lemma HwAddrInjective(n1: nat, n2: nat)
    requires n1 % 0x1_0000_0000 != n2 % 0x1_0000_0000
    ensures HwAddr(n1) != HwAddr(n2)
  {
    HwAddrEncodesCounter(n1);
    HwAddrEncodesCounter(n2);
  }

  /** `enum netdev_flags`. */
  datatype NetdevFlag = Up | Promisc | Loopback

  /** The request touches no flag but NETDEV_UP. */
  predicate OnlyUp(off: set<NetdevFlag>, on: set<NetdevFlag>)
  {
    off + on <= {Up}
  }

  /** `netdev_xpliant_internal_update_flags`: the device's own flags are
      reported, and any flag other than NETDEV_UP is refused. */
  function InternalUpdateFlags(off: set<NetdevFlag>, on: set<NetdevFlag>, flags: set<NetdevFlag>)
    : (r: (int, Option<set<NetdevFlag>>))
    ensures !OnlyUp(off, on) <==> r == (EOPNOTSUPP, None)
    ensures OnlyUp(off, on) ==> r.0 == OK && r.1 == Some(flags)
  {
    if !(off + on <= {Up}) then (EOPNOTSUPP, None) else (OK, Some(flags))
  }

  /** `netdev_xpliant_subintf_update_flags`: `parentEnabled` is what the
      parent port reports, None when there is no parent name, no such
      netdev or no port record. The flags reported are the device's masked
      by the parent's NETDEV_UP. */
  function SubintfUpdateFlags(off: set<NetdevFlag>, on: set<NetdevFlag>, flags: set<NetdevFlag>,
                              parentEnabled: Option<bool>): (r: (int, Option<set<NetdevFlag>>))
    ensures !OnlyUp(off, on) <==> r == (EOPNOTSUPP, None)
    ensures OnlyUp(off, on) ==> r.0 == OK && r.1.Some? && r.1.value <= flags && r.1.value <= {Up}
    ensures OnlyUp(off, on) ==> (Up in r.1.value <==> Up in flags && parentEnabled == Some(true))
  {
    if !(off + on <= {Up}) then (EOPNOTSUPP, None)
    else
      var parentFlags: set<NetdevFlag> := if parentEnabled == Some(true) then {Up} else {};
      (OK, Some(flags * parentFlags))
  }

  /** `struct netdev_xpliant`, the fields the modelled operations read and
      write. `portDownNotices` counts the port-down notifications sent to
      MAC learning. */
  class Netdev {
    var pcfg: PortCfg
    var linkStatus: bool
    var linkResets: nat
    var intfInitialized: bool
    var portFilterId: nat
    var portDownNotices: nat
    const portNum: nat
    const isSplitParent: bool
    const isSplitSubport: bool
    const parentPortNum: nat

    constructor (portNum: nat, isSplitParent: bool, isSplitSubport: bool, parentPortNum: nat)
      ensures this.portNum == portNum && this.isSplitParent == isSplitParent
      ensures this.isSplitSubport == isSplitSubport && this.parentPortNum == parentPortNum
      ensures pcfg == ZERO_CFG && !linkStatus && linkResets == 0 && !intfInitialized
      ensures portFilterId == 0 && portDownNotices == 0
    {
      this.portNum := portNum;
      this.isSplitParent := isSplitParent;
      this.isSplitSubport := isSplitSubport;
      this.parentPortNum := parentPortNum;
      pcfg := ZERO_CFG;
      linkStatus := false;
      linkResets := 0;
      intfInitialized := false;
      portFilterId := 0;
      portDownNotices := 0;
    }

    /** `ops_xp_netdev_link_state_callback`: the link state follows the
        status; a link up counts as a reset, a link down notifies MAC
        learning. */
    method LinkStateCallback(status: int)
      modifies `linkStatus, `linkResets, `portDownNotices
      ensures linkStatus <==> status != 0
      ensures linkResets == old(linkResets) + (if status != 0 then 1 else 0)
      ensures portDownNotices == old(portDownNotices) + (if status != 0 then 0 else 1)
    {
      linkStatus := status != 0;
      if status != 0 {
        linkResets := linkResets + 1;
      } else {
        portDownNotices := portDownNotices + 1;
      }
    }

    /** `ops_xp_port_set_config`: disabling an enabled port drops its link
        and notifies MAC learning; the port's enable state is set to the
        new one (the result is ignored) and the configuration is
        copied. */
    method PortSetConfig(ports: PortTable, cfg: PortCfg, enableHwOk: bool) returns (rc: int)
      modifies `pcfg, `linkStatus, `portDownNotices, ports
      ensures rc == OK && pcfg == cfg
      ensures old(pcfg).enable != cfg.enable && !cfg.enable ==>
                !linkStatus && portDownNotices == old(portDownNotices) + 1
      ensures !(old(pcfg).enable != cfg.enable && !cfg.enable) ==>
                linkStatus == old(linkStatus) && portDownNotices == old(portDownNotices)
      ensures portNum in old(ports.info) ==>
                ports.info == old(ports.info)[portNum := EnableUpdate(old(ports.info)[portNum], cfg.enable)]
      ensures portNum !in old(ports.info) ==> ports.info == old(ports.info)
    {
      if pcfg.enable != cfg.enable && !cfg.enable {
        linkStatus := false;
        portDownNotices := portDownNotices + 1;
      }
      var ignored := ports.SetEnable(portNum, cfg.enable, enableHwOk);
      pcfg := cfg;
      rc := OK;
    }

    /** `handle_xp_host_port_filters`: an enabled port without a host
        filter gets the one created (`createdId`, 0 when that fails); a
        disabled port loses its filter. */
    method HandleHostPortFilters(enable: bool, createdId: nat)
      modifies `portFilterId
      ensures enable && old(portFilterId) == 0 ==> portFilterId == createdId
      ensures !enable ==> portFilterId == 0
      ensures enable && old(portFilterId) != 0 ==> portFilterId == old(portFilterId)
    {
      if enable && portFilterId == 0 {
        portFilterId := createdId;
      } else if !enable && portFilterId != 0 {
        portFilterId := 0;
      }
    }

    /** `netdev_xpliant_set_hw_intf_config`: EPERM before the interface is
        initialised; nothing to do when the requested configuration equals
        the current one; otherwise the lane mode is set for an enabled
        port, the host filter follows the enable state, and the
        configuration is applied. Failures past the EPERM check are not
        reported. */
    method SetHwIntfConfig(args: HwIntfConfig, ports: PortTable, sdk: MacModeSdk, createdFilterId: nat,
                           enableHwOk: bool) returns (rc: int)
      requires intfInitialized && RequestedCfg(args) != pcfg ==> portNum in ports.info
      requires intfInitialized && RequestedCfg(args) != pcfg && isSplitSubport ==> parentPortNum in ports.info
      modifies `pcfg, `linkStatus, `portDownNotices, `portFilterId, ports
      ensures !old(intfInitialized) ==>
                rc == EPERM && pcfg == old(pcfg) && ports.info == old(ports.info) &&
                portFilterId == old(portFilterId) && linkStatus == old(linkStatus) &&
                portDownNotices == old(portDownNotices)
      ensures old(intfInitialized) ==> rc == OK && pcfg == RequestedCfg(args)
      ensures old(intfInitialized) && RequestedCfg(args) == old(pcfg) ==>
                ports.info == old(ports.info) && portFilterId == old(portFilterId) &&
                linkStatus == old(linkStatus) && portDownNotices == old(portDownNotices)
      ensures old(intfInitialized) && RequestedCfg(args) != old(pcfg) ==>
                portNum in ports.info && (ports.info[portNum].hwEnable <==> args.enable)
      ensures old(intfInitialized) && RequestedCfg(args) != old(pcfg) && !args.enable ==>
                portFilterId == 0 && ports.info[portNum].serdesTuned == old(ports.info)[portNum].serdesTuned
      ensures old(intfInitialized) && RequestedCfg(args) != old(pcfg) && !args.enable && old(pcfg).enable ==>
                !linkStatus
    {
      if !intfInitialized {
        return EPERM;
      }
      var cfg := RequestedCfg(args);
      if !IsPortConfigChanged(pcfg, cfg) {
        return OK;
      }
      if cfg.enable {
        var target := MacModeTarget(isSplitParent, isSplitSubport, portNum, parentPortNum, cfg.speed);
        var ignored := ports.MacModeSet(target.0, target.1, sdk);
      }
      HandleHostPortFilters(cfg.enable, createdFilterId);
      rc := PortSetConfig(ports, cfg, enableHwOk);
    }

    /** `netdev_xpliant_update_flags`: only NETDEV_UP may be asked for, and
        only on an enabled port; the old flags report the port's enable
        state, then the port is enabled or disabled as asked, on taking
        precedence. */
    method UpdateFlags(off: set<NetdevFlag>, on: set<NetdevFlag>, oldFlags: set<NetdevFlag>,
                       ports: PortTable, hwOk: bool) returns (rc: int, flags: set<NetdevFlag>)
      modifies ports
      ensures !OnlyUp(off, on) || !pcfg.enable ==>
                rc == EOPNOTSUPP && flags == oldFlags && ports.info == old(ports.info)
      ensures OnlyUp(off, on) && pcfg.enable && portNum !in old(ports.info) ==>
                rc == EPERM && flags == oldFlags && ports.info == old(ports.info)
      ensures OnlyUp(off, on) && pcfg.enable && portNum in old(ports.info) ==>
                && flags == (if old(ports.info)[portNum].hwEnable then oldFlags + {Up} else oldFlags - {Up})
                && (Up in on ==>
                      ports.info == old(ports.info)[portNum := EnableUpdate(old(ports.info)[portNum], true)])
                && (Up !in on && Up in off ==>
                      ports.info == old(ports.info)[portNum := EnableUpdate(old(ports.info)[portNum], false)])
                && (Up !in on && Up !in off ==> rc == OK && ports.info == old(ports.info))
                && (rc == OK <==> Up !in on + off || old(ports.info)[portNum].hwEnable == (Up in on) || hwOk)
    {
      flags := oldFlags;
      if !(off + on <= {Up}) {
        return EOPNOTSUPP, flags;
      }
      if !pcfg.enable {
        return EOPNOTSUPP, flags;
      }
      var state;
      rc, state := ports.GetEnable(portNum);
      if rc == OK {
        flags := if state then flags + {Up} else flags - {Up};
        if Up in on {
          rc := ports.SetEnable(portNum, true, hwOk);
        } else if Up in off {
          rc := ports.SetEnable(portNum, false, hwOk);
        }
      }
    }
  }
}
