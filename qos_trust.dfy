/** The `qos trust` interface commands of the QoS CLI: the trust mode of
    a port is the `qos_trust` key of its `qos_config`, falling back to the
    System row's key and then to "none". The database is a map from port
    name to `qos_config`; transaction start and commit outcomes are
    arguments. */
module QosTrust {
  import opened Common

  /** `QOS_TRUST_KEY` and `QOS_TRUST_NONE_STRING`. */
  const QOS_TRUST_KEY: string := "qos_trust"
  const QOS_TRUST_NONE: string := "none"

  /** The two results these commands return. */
  datatype CmdResult = CmdSuccess | CmdOvsdbFailure

  /** What `cli_do_config_finish` reports; success and "unchanged" both
      count as committed. */
  datatype TxnStatus = TxnSuccess | TxnUnchanged | TxnFailed

  predicate Committed(s: TxnStatus)
  {
    s == TxnSuccess || s == TxnUnchanged
  }

  /** `qos_trust_port_get_value` on the port's and the System row's
      `qos_config` (None for an absent row). */
  function TrustValue(port: Option<map<string, string>>, system: Option<map<string, string>>): (v: string)
    ensures port.Some? && QOS_TRUST_KEY in port.value ==> v == port.value[QOS_TRUST_KEY]
    ensures !(port.Some? && QOS_TRUST_KEY in port.value) && system.Some? && QOS_TRUST_KEY in system.value ==>
              v == system.value[QOS_TRUST_KEY]
    ensures !(port.Some? && QOS_TRUST_KEY in port.value) && !(system.Some? && QOS_TRUST_KEY in system.value) ==>
              v == QOS_TRUST_NONE
  {
    if port.Some? && QOS_TRUST_KEY in port.value then port.value[QOS_TRUST_KEY]
    else if system.Some? && QOS_TRUST_KEY in system.value then system.value[QOS_TRUST_KEY]
    else QOS_TRUST_NONE
  }

  /** The port's `qos_config` after `qos trust NAME`: the key replaced,
      every other key kept, and the port then reads as NAME. */
  function SetTrust(config: map<string, string>, name: string, system: Option<map<string, string>>): (r: map<string, string>)
    ensures r.Keys == config.Keys + {QOS_TRUST_KEY}
    ensures forall k :: k in config && k != QOS_TRUST_KEY ==> r[k] == config[k]
    ensures TrustValue(Some(r), system) == name
  {
    config[QOS_TRUST_KEY := name]
  }

  /** The port's `qos_config` after `no qos trust`: the key removed, every
      other key kept, and the port then reads as if it had no setting. */
  function RemoveTrust(config: map<string, string>, system: Option<map<string, string>>): (r: map<string, string>)
    ensures r.Keys == config.Keys - {QOS_TRUST_KEY}
    ensures forall k :: k in r ==> r[k] == config[k]
    ensures TrustValue(Some(r), system) == TrustValue(None, system)
  {
    config - {QOS_TRUST_KEY}
  }

  class TrustDb {
    /** Port name to the port's `qos_config`. */
    var ports: map<string, map<string, string>>
    /** The System row's `qos_config`, None when there is no System row. */
    var system: Option<map<string, string>>
    /** Names of the ports that are members of a LAG. */
    var lagMembers: set<string>

    constructor (ports: map<string, map<string, string>>, system: Option<map<string, string>>, lagMembers: set<string>)
      ensures this.ports == ports && this.system == system && this.lagMembers == lagMembers
    {
      this.ports := ports;
      this.system := system;
      this.lagMembers := lagMembers;
    }

    /** The trust mode a port reads as. */
    function GetValue(portName: string): string
      reads this
    {
      TrustValue(if portName in ports then Some(ports[portName]) else None, system)
    }

    /** `qos_trust_port_command`: NULL arguments, a LAG member, an unknown
        port, a transaction that does not start or does not commit each
        give CMD_OVSDB_FAILURE and change nothing. */
    method TrustPort(portName: Option<string>, trustName: Option<string>, txnStarted: bool, commit: TxnStatus)
      returns (r: CmdResult)
      modifies this
      ensures system == old(system) && lagMembers == old(lagMembers)
      ensures r == CmdSuccess <==>
                && portName.Some? && trustName.Some? && portName.value !in lagMembers
                && portName.value in old(ports) && txnStarted && Committed(commit)
      ensures r == CmdSuccess ==>
                && ports == old(ports)[portName.value := SetTrust(old(ports)[portName.value], trustName.value, system)]
                && GetValue(portName.value) == trustName.value
      ensures r != CmdSuccess ==> ports == old(ports)
    {
      if portName.None? || trustName.None? {
        return CmdOvsdbFailure;
      }
      var name := portName.value;
      if name in lagMembers {
        return CmdOvsdbFailure;
      }
      if name !in ports {
        return CmdOvsdbFailure;
      }
      if !txnStarted {
        return CmdOvsdbFailure;
      }
      if !Committed(commit) {
        return CmdOvsdbFailure;
      }
      ports := ports[name := SetTrust(ports[name], trustName.value, system)];
      r := CmdSuccess;
    }

    /** `qos_trust_port_no_command`: the same refusals; on success the key
        is removed and the port reads as the System value or "none". */
    method TrustPortNo(portName: Option<string>, txnStarted: bool, commit: TxnStatus)
      returns (r: CmdResult)
      modifies this
      ensures system == old(system) && lagMembers == old(lagMembers)
      ensures r == CmdSuccess <==>
                && portName.Some? && portName.value !in lagMembers
                && portName.value in old(ports) && txnStarted && Committed(commit)
      ensures r == CmdSuccess ==>
                && ports == old(ports)[portName.value := RemoveTrust(old(ports)[portName.value], system)]
                && GetValue(portName.value) == TrustValue(None, system)
      ensures r != CmdSuccess ==> ports == old(ports)
    {
      if portName.None? {
        return CmdOvsdbFailure;
      }
      var name := portName.value;
      if name in lagMembers {
        return CmdOvsdbFailure;
      }
      if name !in ports {
        return CmdOvsdbFailure;
      }
      if !txnStarted {
        return CmdOvsdbFailure;
      }
      if !Committed(commit) {
        return CmdOvsdbFailure;
      }
      ports := ports[name := RemoveTrust(ports[name], system)];
      r := CmdSuccess;
    }
  }
}
