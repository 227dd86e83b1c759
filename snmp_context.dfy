/** The SNMP part of `show running-config`: lines for the System row's
    agent port, description, location, contact and communities, one line
    per trap receiver and one per SNMPv3 user, in the order the rows are
    visited. A line is the text `vtysh_ovsdb_cli_print` receives. */
module SnmpContext {
  import opened Common
  import opened SnmpVty

  /** `MAX_PROTOCOL_STR_LENGTH`, the compare length for protocol names. */
  const MAX_PROTOCOL_STR_LENGTH: nat := 5

  /** What the callback reads from the first System row. */
  datatype SystemInfo = SystemInfo(otherConfig: map<string, string>, switchVersion: string, communities: seq<string>)

  /** `smap_get`. */
  function Get(m: map<string, string>, k: string): Option<string>
  {
    if k in m then Some(m[k]) else None
  }

  /** A line that is printed only when the value is set. */
  function OptLine(prefix: string, v: Option<string>): (ls: seq<string>)
    ensures v.None? ==> ls == []
    ensures v.Some? ==> ls == [prefix + v.value]
  {
    if v.Some? then [prefix + v.value] else []
  }

  /** The description counts as configured when it does not begin with
      the switch version (`strncmp` over the version's length). */
  predicate DescriptionConfigured(desc: Option<string>, switchVersion: string)
  {
    desc.Some? && !StrnEq(desc.value, switchVersion, |switchVersion|)
  }

  /** The description line is printed exactly when the description exists
      and the switch version is not a prefix of it; in particular the
      default description, the version itself, is never printed. */
  lemma DescriptionShownIff(desc: Option<string>, switchVersion: string)
    ensures DescriptionConfigured(desc, switchVersion) <==> desc.Some? && !(switchVersion <= desc.value)
    ensures !DescriptionConfigured(Some(switchVersion), switchVersion)
  {
    if desc.Some? {
      var d := desc.value;
      if switchVersion <= d {
        assert d[..|switchVersion|] == switchVersion;
        assert Take(d, |switchVersion|) == switchVersion;
      }
    }
  }

  /** One `snmp-server community` line per community, in stored order. */
  function CommunityLines(cs: seq<string>): (ls: seq<string>)
    ensures |ls| == |cs|
    ensures forall i :: 0 <= i < |cs| ==> ls[i] == "snmp-server community " + cs[i]
  {
    if cs == [] then [] else ["snmp-server community " + cs[0]] + CommunityLines(cs[1..])
  }

  /** The lines of the System row: agent port, description, location and
      contact, each only when set, then the communities. */
  function SystemLines(sys: SystemInfo): (ls: seq<string>)
    ensures var n := |ls| - |sys.communities|;
            && n == (if AGENT_PORT_KEY in sys.otherConfig then 1 else 0)
                    + (if DescriptionConfigured(Get(sys.otherConfig, SYS_DESCRIPTION_KEY), sys.switchVersion) then 1 else 0)
                    + (if SYS_LOCATION_KEY in sys.otherConfig then 1 else 0)
                    + (if SYS_CONTACT_KEY in sys.otherConfig then 1 else 0)
            && ls[n..] == CommunityLines(sys.communities)
    ensures AGENT_PORT_KEY in sys.otherConfig ==>
              ls[0] == "snmp-server agent-port " + sys.otherConfig[AGENT_PORT_KEY]
  {
    var c := sys.otherConfig;
    var desc := Get(c, SYS_DESCRIPTION_KEY);
    var head := OptLine("snmp-server agent-port ", Get(c, AGENT_PORT_KEY))
                + OptLine("snmp-server system-description ",
                          if DescriptionConfigured(desc, sys.switchVersion) then desc else None)
                + OptLine("snmp-server system-location ", Get(c, SYS_LOCATION_KEY))
                + OptLine("snmp-server system-contact ", Get(c, SYS_CONTACT_KEY));
    assert (head + CommunityLines(sys.communities))[|head|..] == CommunityLines(sys.communities);
    head + CommunityLines(sys.communities)
  }

  /** The three flags of the trap loop. */
  datatype Flags = Flags(communityNotDefault: bool, portNotDefault: bool, isV3: bool)

  /** The flags before the first row. */
  const NoFlags: Flags := Flags(false, false, false)

  /** The flags after visiting a row: each is set by the row and never
      cleared. */
  function NextFlags(f: Flags, row: TrapRow): (g: Flags)
    ensures g.communityNotDefault <==> f.communityNotDefault || row.community != DEFAULT_COMMUNITY
    ensures g.portNotDefault <==> f.portNotDefault || row.port != DEFAULT_TRAP_RECEIVER_UDP_PORT
    ensures g.isV3 <==> f.isV3 || row.version == "v3"
  {
    Flags(f.communityNotDefault || row.community != DEFAULT_COMMUNITY,
          f.portNotDefault || row.port != DEFAULT_TRAP_RECEIVER_UDP_PORT,
          f.isV3 || row.version == "v3")
  }

  /** The common head of a trap line. */
  function HostHead(row: TrapRow): string
  {
    "snmp-server host " + row.ip + " " + row.trapType + " version " + row.version
  }

  /** The line printed for a row under the flags in force for it: a v3
      line names the user and adds the port when the port flag is up; any
      other line adds the community and the port when their flags are
      up. */
  function TrapLine(row: TrapRow, f: Flags): string
  {
    if !f.isV3 then
      if f.communityNotDefault && f.portNotDefault then
        HostHead(row) + " community " + row.community + " port " + IntToDecimal(row.port)
      else if f.communityNotDefault then
        HostHead(row) + " community " + row.community
      else if f.portNotDefault then
        HostHead(row) + " port " + IntToDecimal(row.port)
      else
        HostHead(row)
    else if f.portNotDefault then
      HostHead(row) + " user " + row.community + " port " + IntToDecimal(row.port)
    else
      HostHead(row) + " user " + row.community
  }

  /** The parts of a trap line: under the v3 flag it names the user,
      otherwise the community only when that flag is up; the port part
      appears exactly when the port flag is up. */
  lemma TrapLineParts(row: TrapRow, f: Flags)
    ensures var portPart := if f.portNotDefault then " port " + IntToDecimal(row.port) else "";
            && (f.isV3 ==> TrapLine(row, f) == HostHead(row) + " user " + row.community + portPart)
            && (!f.isV3 ==>
                  TrapLine(row, f) == HostHead(row) + (if f.communityNotDefault then " community " + row.community else "") + portPart)
  {
    var h := HostHead(row);
    if !f.isV3 && !f.communityNotDefault {
      assert h + "" == h;
    }
    if !f.portNotDefault {
      assert h + " user " + row.community + "" == h + " user " + row.community;
      assert h + " community " + row.community + "" == h + " community " + row.community;
    }
  }

  /** The flags after visiting every row of `traps`, starting from `f`. */
  function FlagsAfter(traps: seq<TrapRow>, f: Flags): Flags
  {
    if traps == [] then f else FlagsAfter(traps[1..], NextFlags(f, traps[0]))
  }

  /** The trap lines as written: the flags carry over from row to row. */
  function TrapLines(traps: seq<TrapRow>, f: Flags): (ls: seq<string>)
    ensures |ls| == |traps|
  {
    if traps == [] then []
    else
      var g := NextFlags(f, traps[0]);
      [TrapLine(traps[0], g)] + TrapLines(traps[1..], g)
  }

  /** Visiting `traps + [t]` ends with the flags of `traps` advanced by
      `t`. */
  lemma {:induction false} FlagsAfterSnoc(traps: seq<TrapRow>, t: TrapRow, f: Flags)
    ensures FlagsAfter(traps + [t], f) == NextFlags(FlagsAfter(traps, f), t)
    decreases |traps|
  {
    if traps == [] {
      assert ([] + [t])[1..] == [];
    } else {
      assert (traps + [t])[1..] == traps[1..] + [t];
      FlagsAfterSnoc(traps[1..], t, NextFlags(f, traps[0]));
    }
  }

  /** Line j is printed under the flags accumulated over rows 0..j. */
  lemma {:induction false} TrapLineUsesAccumulatedFlags(traps: seq<TrapRow>, f: Flags, j: nat)
    requires j < |traps|
    ensures TrapLines(traps, f)[j] == TrapLine(traps[j], FlagsAfter(traps[..j + 1], f))
    decreases j
  {
    var g := NextFlags(f, traps[0]);
    if j == 0 {
      assert traps[..1][1..] == [];
    } else {
      TrapLineUsesAccumulatedFlags(traps[1..], g, j - 1);
      assert traps[..j + 1][1..] == traps[1..][..j];
    }
  }

  /** Starting from no flags, each flag after rows 0..j is up exactly when
      one of those rows set it: a non-default community, a non-default
      port, or version "v3". */
  lemma {:induction false} FlagsAreSticky(traps: seq<TrapRow>)
    ensures FlagsAfter(traps, NoFlags).communityNotDefault <==>
              exists k :: 0 <= k < |traps| && traps[k].community != DEFAULT_COMMUNITY
    ensures FlagsAfter(traps, NoFlags).portNotDefault <==>
              exists k :: 0 <= k < |traps| && traps[k].port != DEFAULT_TRAP_RECEIVER_UDP_PORT
    ensures FlagsAfter(traps, NoFlags).isV3 <==>
              exists k :: 0 <= k < |traps| && traps[k].version == "v3"
    decreases |traps|
  {
    if traps != [] {
      var init := traps[..|traps| - 1];
      var t := traps[|traps| - 1];
      assert traps == init + [t];
      FlagsAfterSnoc(init, t, NoFlags);
      FlagsAreSticky(init);
      assert forall k :: 0 <= k < |init| ==> init[k] == traps[k];
    }
  }

  /** `snmp-server host` as a command would state the row: the user for
      v3, else the community when it is not "public"; the port when it is
      not 162. */
  function HostCommand(row: TrapRow): (l: string)
    ensures l == TrapLine(row, NextFlags(NoFlags, row))
  {
    var portPart := if row.port != DEFAULT_TRAP_RECEIVER_UDP_PORT then " port " + IntToDecimal(row.port) else "";
    if row.version == "v3" then HostHead(row) + " user " + row.community + portPart
    else if row.community != DEFAULT_COMMUNITY then HostHead(row) + " community " + row.community + portPart
    else HostHead(row) + portPart
  }

  /** The first trap line states its own row. */
  lemma FirstTrapLineIsCommand(traps: seq<TrapRow>)
    requires |traps| > 0
    ensures TrapLines(traps, NoFlags)[0] == HostCommand(traps[0])
  {
  }

  /** As written, a v2c trap row visited after a v3 row is printed in the
      v3 form, `... version v2c user public`, which the v2c command does
      not accept and which differs from the row's own command. */
  lemma {:induction false} StickyV3FlagMisprintsV2Row()
    ensures var v3 := TrapRow("10.0.0.1", 162, "admin", "trap", "v3");
            var v2 := TrapRow("10.0.0.2", 162, "public", "trap", "v2c");
            && TrapLines([v3, v2], NoFlags)[1] == "snmp-server host 10.0.0.2 trap version v2c user public"
            && TrapLines([v3, v2], NoFlags)[1] != HostCommand(v2)
  {
    var v3 := TrapRow("10.0.0.1", 162, "admin", "trap", "v3");
    var v2 := TrapRow("10.0.0.2", 162, "public", "trap", "v2c");
    V2LineAfterV3(v3, v2);
    V2HostHead(v2);
    var line := HostHead(v2) + " user " + v2.community;
    assert |HostCommand(v2)| < |line|;
  }

  /** After a v3 row, a v2c row with the default community and port is
      printed with the v3 `user` part. */
  lemma V2LineAfterV3(v3: TrapRow, v2: TrapRow)
    requires v3.version == "v3" && v3.port == DEFAULT_TRAP_RECEIVER_UDP_PORT
    requires v2.version == "v2c" && v2.community == DEFAULT_COMMUNITY
    requires v2.port == DEFAULT_TRAP_RECEIVER_UDP_PORT
    ensures TrapLines([v3, v2], NoFlags)[1] == HostHead(v2) + " user " + v2.community
    ensures HostCommand(v2) == HostHead(v2)
  {
    TrapLineUsesAccumulatedFlags([v3, v2], NoFlags, 1);
    assert [v3, v2][..2] == [v3, v2];
    assert [v3, v2][1..] == [v2];
    assert [v2][1..] == [];
    assert FlagsAfter([v2], NextFlags(NoFlags, v3)).isV3;
  }

  lemma V2HostHead(v2: TrapRow)
    requires v2 == TrapRow("10.0.0.2", 162, "public", "trap", "v2c")
    ensures HostHead(v2) == "snmp-server host 10.0.0.2 trap version v2c"
  {
  }

  /** The trap lines as evidently intended: every row printed with the
      flags of that row alone. */
  function CorrectedTrapLines(traps: seq<TrapRow>): (ls: seq<string>)
    ensures |ls| == |traps|
    ensures forall j :: 0 <= j < |traps| ==> ls[j] == HostCommand(traps[j])
  {
    if traps == [] then [] else [HostCommand(traps[0])] + CorrectedTrapLines(traps[1..])
  }

  /** The corrected lines do not depend on the order the rows are
      visited: each line is what that row would print as the only row. */
  lemma CorrectedLinesArePerRow(traps: seq<TrapRow>, j: nat)
    requires j < |traps|
    ensures CorrectedTrapLines(traps)[j] == TrapLines([traps[j]], NoFlags)[0]
  {
    FirstTrapLineIsCommand([traps[j]]);
  }

  /** The line printed for a v3 user: auth and priv parts only when the
      protocol is not "none" (priv only together with auth). */
  function UserLine(u: V3User): (l: string)
    ensures var authND := !StrnEq(u.authProtocol, DEFAULT_AUTH, MAX_PROTOCOL_STR_LENGTH);
            var privND := !StrnEq(u.privProtocol, DEFAULT_PRIV, MAX_PROTOCOL_STR_LENGTH);
            && (!authND ==> l == "snmpv3 user " + u.name)
            && (authND ==> l == "snmpv3 user " + u.name + " auth " + u.authProtocol + " auth-pass " + PassText(u.authKey)
                                + (if privND then " priv " + u.privProtocol + " priv-pass " + PassText(u.privKey) else ""))
  {
    var authND := !StrnEq(u.authProtocol, DEFAULT_AUTH, MAX_PROTOCOL_STR_LENGTH);
    var privND := !StrnEq(u.privProtocol, DEFAULT_PRIV, MAX_PROTOCOL_STR_LENGTH);
    if authND && privND then
      "snmpv3 user " + u.name + " auth " + u.authProtocol + " auth-pass " + PassText(u.authKey)
      + " priv " + u.privProtocol + " priv-pass " + PassText(u.privKey)
    else if authND then
      "snmpv3 user " + u.name + " auth " + u.authProtocol + " auth-pass " + PassText(u.authKey)
    else
      "snmpv3 user " + u.name
  }

  /** The protocols the `snmpv3 user` grammar offers. */
  predicate GrammarSecurity(sec: V3Security)
  {
    match sec
    case NoAuth => true
    case Auth(a, _) => a == "md5" || a == "sha"
    case AuthPriv(a, _, p, _) => (a == "md5" || a == "sha") && (p == "aes" || p == "des")
  }

  /** The `snmpv3 user` command that gives a security setting. */
  function UserCommand(name: string, sec: V3Security): string
  {
    match sec
    case NoAuth => "snmpv3 user " + name
    case Auth(a, k) => "snmpv3 user " + name + " auth " + a + " auth-pass " + k
    case AuthPriv(a, k, p, pk) =>
      "snmpv3 user " + name + " auth " + a + " auth-pass " + k + " priv " + p + " priv-pass " + pk
  }

  /** A user created by a command the grammar accepts is printed back as
      that command. */
  lemma UserLineRoundTrip(name: string, sec: V3Security)
    requires GrammarSecurity(sec)
    ensures UserLine(NewV3User(name, sec)) == UserCommand(name, sec)
  {
    var u := NewV3User(name, sec);
    assert Take(DEFAULT_AUTH, MAX_PROTOCOL_STR_LENGTH) == "none";
    match sec
    case NoAuth =>
      assert StrnEq(u.authProtocol, DEFAULT_AUTH, MAX_PROTOCOL_STR_LENGTH);
    case Auth(a, k) =>
      assert Take(a, MAX_PROTOCOL_STR_LENGTH) == a;
      assert StrnEq(u.privProtocol, DEFAULT_PRIV, MAX_PROTOCOL_STR_LENGTH);
    case AuthPriv(a, k, p, pk) =>
      assert Take(a, MAX_PROTOCOL_STR_LENGTH) == a;
      assert Take(p, MAX_PROTOCOL_STR_LENGTH) == p;
  }

  /** One line per user, in the order visited. */
  function UserLines(us: seq<V3User>): (ls: seq<string>)
    ensures |ls| == |us|
    ensures forall i :: 0 <= i < |us| ==> ls[i] == UserLine(us[i])
  {
    if us == [] then [] else [UserLine(us[0])] + UserLines(us[1..])
  }

  /** The whole output: the System lines when there is a System row, then
      the trap lines, then the user lines. */
  function RunningConfigOf(sys: Option<SystemInfo>, traps: seq<TrapRow>, users: seq<V3User>): (ls: seq<string>)
    ensures |ls| == (if sys.Some? then |SystemLines(sys.value)| else 0) + |traps| + |users|
    ensures ls[|ls| - |users|..] == UserLines(users)
  {
    var r := (if sys.Some? then SystemLines(sys.value) else []) + TrapLines(traps, NoFlags) + UserLines(users);
    assert r[|r| - |users|..] == UserLines(users);
    r
  }

  /** One step of the trap loop. */
  lemma TrapLinesStep(traps: seq<TrapRow>, i: nat, f: Flags)
    requires i < |traps|
    ensures TrapLines(traps[i..], f) ==
            [TrapLine(traps[i], NextFlags(f, traps[i]))] + TrapLines(traps[i + 1..], NextFlags(f, traps[i]))
  {
    assert traps[i..][1..] == traps[i + 1..];
  }

  /** One step of the user loop. */
  lemma UserLinesSnoc(us: seq<V3User>, k: nat)
    requires k < |us|
    ensures UserLines(us[..k + 1]) == UserLines(us[..k]) + [UserLine(us[k])]
  {
    var a, b := UserLines(us[..k + 1]), UserLines(us[..k]);
    var l := b + [UserLine(us[k])];
    assert |a| == |l|;
    forall i | 0 <= i < k + 1
      ensures a[i] == l[i]
    {
      if i < k {
        assert us[..k + 1][i] == us[..k][i];
      }
    }
  }

  /** One step of the community loop. */
  lemma CommunityLinesSnoc(cs: seq<string>, k: nat)
    requires k < |cs|
    ensures CommunityLines(cs[..k + 1]) == CommunityLines(cs[..k]) + ["snmp-server community " + cs[k]]
  {
    var a, b := CommunityLines(cs[..k + 1]), CommunityLines(cs[..k]);
    var l := b + ["snmp-server community " + cs[k]];
    assert |a| == |l|;
    forall i | 0 <= i < k + 1
      ensures a[i] == l[i]
    {
      if i < k {
        assert cs[..k + 1][i] == cs[..k][i];
      }
    }
  }

  /** Prints `prefix` and the value when the value is set. */
  method PrintIfSet(out: seq<string>, prefix: string, v: Option<string>) returns (o: seq<string>)
    ensures o == out + OptLine(prefix, v)
  {
    o := out;
    if v.Some? {
      o := o + [prefix + v.value];
    }
  }

  /** The System part of the callback: the four optional lines, then the
      community loop. */
  method PrintSystem(sys: SystemInfo) returns (out: seq<string>)
    ensures out == SystemLines(sys)
  {
    out := [];
    var c := sys.otherConfig;
    var desc := Get(c, SYS_DESCRIPTION_KEY);
    var descConfigured := false;
    if desc.Some? {
      var sv := sys.switchVersion;
      if !StrnEq(desc.value, sv, |sv|) {
        descConfigured := true;
      }
    }
    out := PrintIfSet(out, "snmp-server agent-port ", Get(c, AGENT_PORT_KEY));
    out := PrintIfSet(out, "snmp-server system-description ", if descConfigured then desc else None);
    out := PrintIfSet(out, "snmp-server system-location ", Get(c, SYS_LOCATION_KEY));
    out := PrintIfSet(out, "snmp-server system-contact ", Get(c, SYS_CONTACT_KEY));
    ghost var head := out;
    out := PrintCommunities(out, sys.communities);
    assert out == head + CommunityLines(sys.communities);
  }

  /** The community loop: one line per community, in stored order. */
  method PrintCommunities(out: seq<string>, cs: seq<string>) returns (o: seq<string>)
    ensures o == out + CommunityLines(cs)
  {
    o := out;
    var i := 0;
    while i < |cs|
      invariant 0 <= i <= |cs|
      invariant o == out + CommunityLines(cs[..i])
    {
      CommunityLinesSnoc(cs, i);
      o := o + ["snmp-server community " + cs[i]];
      i := i + 1;
    }
    assert cs[..i] == cs;
  }

  /** The trap loop: the three flags are raised by the rows and never
      lowered. */
  method PrintTraps(traps: seq<TrapRow>) returns (out: seq<string>)
    ensures out == TrapLines(traps, NoFlags)
  {
    out := [];
    var communityNotDefault, portNotDefault, isV3 := false, false, false;
    var i := 0;
    while i < |traps|
      invariant 0 <= i <= |traps|
      invariant out + TrapLines(traps[i..], Flags(communityNotDefault, portNotDefault, isV3)) == TrapLines(traps, NoFlags)
    {
      var row := traps[i];
      ghost var f := Flags(communityNotDefault, portNotDefault, isV3);
      TrapLinesStep(traps, i, f);
      communityNotDefault := communityNotDefault || row.community != DEFAULT_COMMUNITY;
      portNotDefault := portNotDefault || row.port != DEFAULT_TRAP_RECEIVER_UDP_PORT;
      isV3 := isV3 || row.version == "v3";
      assert Flags(communityNotDefault, portNotDefault, isV3) == NextFlags(f, row);
      ghost var rest := TrapLines(traps[i + 1..], NextFlags(f, row));
      var line := TrapLine(row, Flags(communityNotDefault, portNotDefault, isV3));
      assert (out + [line]) + rest == out + ([line] + rest);
      out := out + [line];
      i := i + 1;
    }
    assert traps[i..] == [];
  }

  /** The user loop. */
  method PrintUsers(users: seq<V3User>) returns (out: seq<string>)
    ensures out == UserLines(users)
  {
    out := [];
    var k := 0;
    while k < |users|
      invariant 0 <= k <= |users|
      invariant out == UserLines(users[..k])
    {
      UserLinesSnoc(users, k);
      out := out + [UserLine(users[k])];
      k := k + 1;
    }
    assert users[..k] == users;
  }

  /** `vtysh_config_context_snmp_clientcallback`: the System lines when
      there is a System row, then the trap lines, then the user lines. */
  method RunningConfig(sys: Option<SystemInfo>, traps: seq<TrapRow>, users: seq<V3User>) returns (out: seq<string>)
    ensures out == RunningConfigOf(sys, traps, users)
  {
    out := [];
    if sys.Some? {
      out := PrintSystem(sys.value);
    }
    var t := PrintTraps(traps);
    var u := PrintUsers(users);
    out := out + t + u;
  }
}
