/** The snmpd configuration writer of ops-snmpd: when the database says
    the switch is configured and something it watches changed, the
    agent's configuration file is rewritten from the System row and the
    SNMPv3 users. The file is modelled as the sequence of the pieces the
    writer prints, in order. */
module SnmpOvsdb {
  import opened Common
  import opened SnmpVty
  import opened SnmpContext

  /** The agent port written when `snmp_agent_port` is unset. */
  const DEFAULT_AGENT_PORT: string := "161"
  /** The fixed head of the engine ID. */
  const ENGINE_ID_PREFIX: string := "0x0000b8a303"

  const RULE60: string := "############################################################"
  const RULE62: string := "##############################################################"

  /** What the writer reads from the first System row; `communities` is
      None when the row has no community array. */
  datatype SystemRow = SystemRow(curCfg: int, otherConfig: map<string, string>, switchVersion: string,
                                 communities: Option<seq<string>>, systemMac: string)

  /** The agent section: its banner and the UDP address line, with the
      configured port or 161. */
  function AgentSection(c: map<string, string>): (r: seq<string>)
    ensures |r| == 5
    ensures AGENT_PORT_KEY in c ==> r[4] == "agentAddress udp:" + c[AGENT_PORT_KEY] + "\n\n"
    ensures AGENT_PORT_KEY !in c ==> r[4] == "agentAddress udp:" + DEFAULT_AGENT_PORT + "\n\n"
  {
    [RULE60 + "\n", "#\n", "#  AGENT BEHAVIOUR\n", "#\n\n\n",
     if AGENT_PORT_KEY in c then "agentAddress udp:" + c[AGENT_PORT_KEY] + "\n\n"
     else "agentAddress udp:161\n\n"]
  }

  /** The system section: the description falls back to the switch
      version, contact and location to an empty quoted string. */
  function SystemSection(sys: SystemRow): (r: seq<string>)
    ensures |r| == 10
    ensures r[4] == "sysDescr  " + (if SYS_DESCRIPTION_KEY in sys.otherConfig then sys.otherConfig[SYS_DESCRIPTION_KEY]
                                    else sys.switchVersion) + "\n"
    ensures SYS_CONTACT_KEY !in sys.otherConfig ==> r[5] == "sysContact  \"\"\n"
    ensures SYS_LOCATION_KEY !in sys.otherConfig ==> r[6] == "sysLocation \"\" \n"
  {
    var c := sys.otherConfig;
    [RULE60 + "\n", "#\n", "#  SYSTEM INFORMATION\n", "#\n\n\n",
     if SYS_DESCRIPTION_KEY in c then "sysDescr  " + c[SYS_DESCRIPTION_KEY] + "\n"
     else "sysDescr  " + sys.switchVersion + "\n",
     if SYS_CONTACT_KEY in c then "sysContact  " + c[SYS_CONTACT_KEY] + "\n" else "sysContact  \"\"\n",
     if SYS_LOCATION_KEY in c then "sysLocation  " + c[SYS_LOCATION_KEY] + "\n" else "sysLocation \"\" \n",
     "sysObjectID    1.3.6.1.4.1.47267\n",
     "sysServices   74 \n",
     RULE62 + "\n"]
  }

  /** The access-control lines: read-only access for "public" when there
      is no community array, else one line per community in order. */
  function CommunitySection(cs: Option<seq<string>>): (r: seq<string>)
    ensures cs.None? ==> r == ["rocommunity public\n"]
    ensures cs.Some? ==> |r| == |cs.value| && forall i :: 0 <= i < |cs.value| ==> r[i] == "rocommunity " + cs.value[i] + "\n"
  {
    if cs.None? then ["rocommunity public\n"] else CommunityChunks(cs.value)
  }

  function CommunityChunks(cs: seq<string>): (r: seq<string>)
    ensures |r| == |cs| && forall i :: 0 <= i < |cs| ==> r[i] == "rocommunity " + cs[i] + "\n"
  {
    if cs == [] then [] else ["rocommunity " + cs[0] + "\n"] + CommunityChunks(cs[1..])
  }

  /** The snmpd name of an authentication protocol: "md5" is MD5, any
      other is SHA. */
  function AuthName(p: string): string
  {
    if p == "md5" then "MD5" else "SHA"
  }

  /** The snmpd name of a privacy protocol: "aes" is AES, any other is
      DES. */
  function PrivName(p: string): string
  {
    if p == "aes" then "AES" else "DES"
  }

  /** The `createUser` and `rouser` pair of one user. */
  function UserChunks(u: V3User): (r: seq<string>)
    ensures |r| == 2
  {
    if u.authProtocol != DEFAULT_AUTH then
      if u.privProtocol != DEFAULT_PRIV then
        ["createUser  " + u.name + "  " + AuthName(u.authProtocol) + "  " + PassText(u.authKey)
         + "  " + PrivName(u.privProtocol) + " " + PassText(u.privKey) + "\n",
         "rouser " + u.name + "  priv\n"]
      else
        ["createUser  " + u.name + "  " + AuthName(u.authProtocol) + "  " + PassText(u.authKey) + " \n",
         "rouser " + u.name + " auth\n"]
    else
      ["createUser  " + u.name + " \n", "rouser " + u.name + "\n"]
  }

  /** A user created by a command the grammar accepts gets the access
      level of its security setting, and its protocols under their snmpd
      names. */
  lemma UserChunksMatchSecurity(name: string, sec: V3Security)
    requires GrammarSecurity(sec)
    ensures var ch := UserChunks(NewV3User(name, sec));
            match sec
            case NoAuth => ch == ["createUser  " + name + " \n", "rouser " + name + "\n"]
            case Auth(a, k) =>
              ch == ["createUser  " + name + "  " + (if a == "md5" then "MD5" else "SHA") + "  " + k + " \n",
                     "rouser " + name + " auth\n"]
            case AuthPriv(a, k, p, pk) =>
              ch == ["createUser  " + name + "  " + (if a == "md5" then "MD5" else "SHA") + "  " + k
                     + "  " + (if p == "aes" then "AES" else "DES") + " " + pk + "\n",
                     "rouser " + name + "  priv\n"]
  {
    match sec
    case NoAuth =>
    case Auth(a, k) =>
      assert a != DEFAULT_AUTH by { assert a[0] != DEFAULT_AUTH[0]; }
    case AuthPriv(a, k, p, pk) =>
      assert a != DEFAULT_AUTH by { assert a[0] != DEFAULT_AUTH[0]; }
      assert p != DEFAULT_PRIV by { assert p[0] != DEFAULT_PRIV[0]; }
  }

  /** Two pieces per user, in the order the users are visited. */
  function UsersSection(users: seq<V3User>): (r: seq<string>)
    ensures |r| == 2 * |users|
    ensures forall i :: 0 <= i < |users| ==> r[2 * i] == UserChunks(users[i])[0] && r[2 * i + 1] == UserChunks(users[i])[1]
  {
    if users == [] then [] else UserChunks(users[0]) + UsersSection(users[1..])
  }

  /** `mac` without its colons. */
  function DropColons(mac: string): (r: string)
    ensures |r| <= |mac|
    ensures forall i :: 0 <= i < |r| ==> r[i] != ':'
  {
    if mac == [] then []
    else (if mac[0] == ':' then [] else [mac[0]]) + DropColons(mac[1..])
  }

  lemma {:induction false} DropColonsConcat(a: string, b: string)
    ensures DropColons(a + b) == DropColons(a) + DropColons(b)
  {
    if a == [] {
      assert a + b == b;
    } else {
      assert (a + b)[1..] == a[1..] + b;
      DropColonsConcat(a[1..], b);
    }
  }

  lemma {:induction false} DropColonsKeepsGroup(g: string)
    requires forall i :: 0 <= i < |g| ==> g[i] != ':'
    ensures DropColons(g) == g
  {
    if g != [] {
      DropColonsKeepsGroup(g[1..]);
    }
  }

  /** The engine ID: the fixed head, then the MAC without its colons. */
  function EngineIdOf(mac: string): (id: string)
    ensures |ENGINE_ID_PREFIX| <= |id| <= |ENGINE_ID_PREFIX| + |mac|
    ensures id[..|ENGINE_ID_PREFIX|] == ENGINE_ID_PREFIX
    ensures forall i :: |ENGINE_ID_PREFIX| <= i < |id| ==> id[i] != ':'
  {
    ENGINE_ID_PREFIX + DropColons(mac)
  }

  /** Dropping the colons of `g + ":" + rest` keeps `g` when it has none. */
  lemma DropColonAfterGroup(g: string, rest: string)
    requires forall i :: 0 <= i < |g| ==> g[i] != ':'
    ensures DropColons(g + ":" + rest) == g + DropColons(rest)
  {
    var colon: string := [':'];
    var head := g + colon;
    assert g + ":" + rest == head + rest;
    assert DropColons(colon) == [] by {
      assert colon[1..] == [];
    }
    DropColonsConcat(g, colon);
    DropColonsKeepsGroup(g);
    assert DropColons(head) == g;
    DropColonsConcat(head, rest);
  }

  /** A MAC written as six two-digit groups joined by colons. */
  function MacText(g: seq<string>): string
    requires |g| == 6
  {
    g[0] + ":" + g[1] + ":" + g[2] + ":" + g[3] + ":" + g[4] + ":" + g[5]
  }

  /** For the usual MAC form the engine ID is the head followed by the
      twelve hex digits, 24 characters in all. */
  lemma {:induction false} StandardMacEngineId(g: seq<string>)
    requires |g| == 6
    requires forall k :: 0 <= k < 6 ==> |g[k]| == 2 && g[k][0] != ':' && g[k][1] != ':'
    ensures EngineIdOf(MacText(g)) == ENGINE_ID_PREFIX + g[0] + g[1] + g[2] + g[3] + g[4] + g[5]
    ensures |EngineIdOf(MacText(g))| == 24
  {
    var t5 := g[5];
    var t4 := g[4] + ":" + t5;
    var t3 := g[3] + ":" + t4;
    var t2 := g[2] + ":" + t3;
    var t1 := g[1] + ":" + t2;
    var t0 := g[0] + ":" + t1;
    assert MacText(g) == t0;
    DropColonsKeepsGroup(t5);
    DropColonAfterGroup(g[4], t5);
    DropColonAfterGroup(g[3], t4);
    DropColonAfterGroup(g[2], t3);
    DropColonAfterGroup(g[1], t2);
    DropColonAfterGroup(g[0], t1);
  }

  /** The pieces after the users: the engine ID and the AgentX master
      lines. */
  function EngineSection(mac: string): seq<string>
  {
    [RULE62 + "\n", "# SNMPv3 Configuration\n", "#\n\n",
     "engineID   " + EngineIdOf(mac) + "\n",
     RULE62 + "\n\n\n",
     "master agentx\n", "agentXSocket /var/agentx/master\n"]
  }

  /** The banner of the access-control section. */
  const ACCESS_BANNER: seq<string> := ["#\n", "#  ACCESS CONTROL\n", "#\n\n"]
  /** The banner of the SNMPv3 user section. */
  const USERS_BANNER: seq<string> := [RULE62 + "\n", "# SNMPv3 AUTHENTICATION and ACCESS CONTROL\n", "#\n\n"]

  /** The whole file `generate_snmpd_conf` writes. */
  function ConfFile(sys: SystemRow, users: seq<V3User>): seq<string>
  {
    AgentSection(sys.otherConfig) + SystemSection(sys) + ACCESS_BANNER + CommunitySection(sys.communities)
    + USERS_BANNER + UsersSection(users) + EngineSection(sys.systemMac)
  }

  /** The engine ID built character by character: the head, then every
      MAC character other than a colon. */
  method BuildEngineId(mac: string) returns (id: string)
    ensures id == EngineIdOf(mac)
  {
    id := ENGINE_ID_PREFIX;
    var i := 0;
    while i < |mac|
      invariant 0 <= i <= |mac|
      invariant id == ENGINE_ID_PREFIX + DropColons(mac[..i])
    {
      assert mac[..i + 1] == mac[..i] + [mac[i]];
      DropColonsConcat(mac[..i], [mac[i]]);
      assert DropColons([mac[i]]) == (if mac[i] == ':' then [] else [mac[i]]) by {
        assert [mac[i]][1..] == [];
      }
      if mac[i] != ':' {
        id := id + [mac[i]];
      }
      i := i + 1;
    }
    assert mac[..i] == mac;
  }

  /** The community loop, or the single default line. */
  method WriteCommunities(out: seq<string>, cs: Option<seq<string>>) returns (o: seq<string>)
    ensures o == out + CommunitySection(cs)
  {
    if cs.None? {
      return out + ["rocommunity public\n"];
    }
    var names := cs.value;
    o := out;
    var i := 0;
    while i < |names|
      invariant 0 <= i <= |names|
      invariant o == out + CommunityChunks(names[..i])
    {
      assert CommunityChunks(names[..i + 1]) == CommunityChunks(names[..i]) + ["rocommunity " + names[i] + "\n"];
      o := o + ["rocommunity " + names[i] + "\n"];
      i := i + 1;
    }
    assert names[..i] == names;
  }

  /** Appending one user's pieces extends the section by that user. */
  lemma UsersSectionSnoc(users: seq<V3User>, k: nat)
    requires k < |users|
    ensures UsersSection(users[..k + 1]) == UsersSection(users[..k]) + UserChunks(users[k])
  {
    var a := users[..k];
    var b := UsersSection(a) + UserChunks(users[k]);
    assert forall i :: 0 <= i < k + 1 ==> users[..k + 1][i] == (a + [users[k]])[i];
    assert users[..k + 1] == a + [users[k]];
    UsersSectionConcat(a, [users[k]]);
    assert UsersSection([users[k]]) == UserChunks(users[k]) by {
      assert [users[k]][1..] == [];
    }
  }

  lemma {:induction false} UsersSectionConcat(a: seq<V3User>, b: seq<V3User>)
    ensures UsersSection(a + b) == UsersSection(a) + UsersSection(b)
  {
    if a == [] {
      assert a + b == b;
    } else {
      assert (a + b)[1..] == a[1..] + b;
      UsersSectionConcat(a[1..], b);
    }
  }

  /** The user loop. */
  method WriteUsers(out: seq<string>, users: seq<V3User>) returns (o: seq<string>)
    ensures o == out + UsersSection(users)
  {
    o := out;
    var k := 0;
    while k < |users|
      invariant 0 <= k <= |users|
      invariant o == out + UsersSection(users[..k])
    {
      UsersSectionSnoc(users, k);
      o := o + UserChunks(users[k]);
      k := k + 1;
    }
    assert users[..k] == users;
  }

  /** `generate_snmpd_conf` without the file handling. */
  method GenerateConf(sys: SystemRow, users: seq<V3User>) returns (out: seq<string>)
    ensures out == ConfFile(sys, users)
  {
    out := AgentSection(sys.otherConfig) + SystemSection(sys) + ACCESS_BANNER;
    out := WriteCommunities(out, sys.communities);
    out := out + USERS_BANNER;
    out := WriteUsers(out, users);
    var id := BuildEngineId(sys.systemMac);
    out := out + [RULE62 + "\n", "# SNMPv3 Configuration\n", "#\n\n", "engineID   " + id + "\n",
                  RULE62 + "\n\n\n", "master agentx\n", "agentXSocket /var/agentx/master\n"];
  }

  /** What changed in the database since the last pass. */
  datatype Changes = Changes(usersInserted: bool, usersModified: bool, usersDeleted: bool,
                             communitiesModified: bool, otherConfigModified: bool, switchVersionModified: bool)

  /** The test `snmp_reconfigure` makes, as written: the user-table
      changes are consulted only when the table still has a first row. */
  predicate RegenerateAsWritten(firstUserPresent: bool, ch: Changes)
  {
    (firstUserPresent && (ch.usersInserted || ch.usersModified || ch.usersDeleted))
    || ch.communitiesModified || ch.otherConfigModified || ch.switchVersionModified
  }

  /** The evidently intended test: any user-table change or any watched
      System column change. */
  predicate RegenerateNeeded(ch: Changes)
  {
    ch.usersInserted || ch.usersModified || ch.usersDeleted
    || ch.communitiesModified || ch.otherConfigModified || ch.switchVersionModified
  }

  /** As written, deleting the last SNMPv3 user leaves the table without
      a first row, so the deletion is not noticed and the file keeps the
      user's `createUser` line. */
  lemma LastUserDeletionMissed()
    ensures var ch := Changes(false, false, true, false, false, false);
            !RegenerateAsWritten(false, ch) && RegenerateNeeded(ch)
  {
  }

  /** While users remain, the two tests agree; otherwise the corrected one
      only adds the user-table changes. */
  lemma {:induction false} RegenerateTestsAgree(firstUserPresent: bool, ch: Changes)
    ensures firstUserPresent ==> (RegenerateAsWritten(firstUserPresent, ch) <==> RegenerateNeeded(ch))
    ensures RegenerateAsWritten(firstUserPresent, ch) ==> RegenerateNeeded(ch)
  {
  }

  /** One step of the configured latch: once set it stays set; it is set
      by a System row whose `cur_cfg` is positive. */
  predicate ConfiguredStep(latch: bool, sys: Option<SystemRow>)
  {
    latch || (sys.Some? && sys.value.curCfg > 0)
  }

  /** The latch after a run of polls. */
  function LatchAfter(latch: bool, polls: seq<Option<SystemRow>>): bool
    decreases |polls|
  {
    if polls == [] then latch else LatchAfter(ConfiguredStep(latch, polls[0]), polls[1..])
  }

  /** The latch is set after a run of polls exactly when it was set before
      or one of the polls saw a positive `cur_cfg`. */
  lemma {:induction false} LatchIsSticky(latch: bool, polls: seq<Option<SystemRow>>)
    ensures LatchAfter(latch, polls) <==>
              latch || exists k :: 0 <= k < |polls| && polls[k].Some? && polls[k].value.curCfg > 0
    decreases |polls|
  {
    if polls != [] {
      LatchIsSticky(ConfiguredStep(latch, polls[0]), polls[1..]);
      var rest := polls[1..];
      assert forall k :: 0 <= k < |rest| ==> rest[k] == polls[k + 1];
      if ConfiguredStep(latch, polls[0]) && !latch {
        assert polls[0].Some? && polls[0].value.curCfg > 0;
      }
      if exists k :: 0 <= k < |polls| && polls[k].Some? && polls[k].value.curCfg > 0 {
        var k :| 0 <= k < |polls| && polls[k].Some? && polls[k].value.curCfg > 0;
        if k > 0 {
          assert rest[k - 1] == polls[k];
        }
      }
    }
  }

  class SnmpAgent {
    /** `system_configured`. */
    var systemConfigured: bool
    /** `snmp_idl_seqno`. */
    var seqno: int
    /** The last file written, [] before the first. */
    var conf: seq<string>
    /** How many files were written; each is followed by an agent restart. */
    var writes: nat

    constructor (seqno: int)
      ensures !systemConfigured && this.seqno == seqno && conf == [] && writes == 0
    {
      systemConfigured := false;
      this.seqno := seqno;
      conf := [];
      writes := 0;
    }

    /** `ops_snmpd_system_is_configured`. */
    method IsConfigured(sys: Option<SystemRow>) returns (b: bool)
      modifies `systemConfigured
      ensures b == systemConfigured == ConfiguredStep(old(systemConfigured), sys)
    {
      if systemConfigured {
        return true;
      }
      if sys.Some? && sys.value.curCfg > 0 {
        systemConfigured := true;
        return true;
      }
      return false;
    }

    /** `snmp_reconfigure` with the corrected change test; `fileOpened`
        says whether the file could be opened for writing. */
    method Reconfigure(sys: Option<SystemRow>, users: seq<V3User>, ch: Changes, fileOpened: bool)
      modifies `conf, `writes
      ensures sys.Some? && RegenerateNeeded(ch) && fileOpened ==>
                conf == ConfFile(sys.value, users) && writes == old(writes) + 1
      ensures !(sys.Some? && RegenerateNeeded(ch) && fileOpened) ==> conf == old(conf) && writes == old(writes)
    {
      if sys.None? {
        return;
      }
      if RegenerateNeeded(ch) && fileOpened {
        conf := GenerateConf(sys.value, users);
        writes := writes + 1;
      }
    }

    /** `snmp_run` after the database was polled: nothing happens until the
        latch is set; then a new sequence number triggers a reconfigure and
        is remembered. */
    method Run(sys: Option<SystemRow>, users: seq<V3User>, idlSeqno: int, ch: Changes, fileOpened: bool)
      modifies this
      ensures systemConfigured == ConfiguredStep(old(systemConfigured), sys)
      ensures !systemConfigured || idlSeqno == old(seqno) ==>
                seqno == old(seqno) && conf == old(conf) && writes == old(writes)
      ensures systemConfigured && idlSeqno != old(seqno) ==>
                && seqno == idlSeqno
                && (sys.Some? && RegenerateNeeded(ch) && fileOpened ==>
                      conf == ConfFile(sys.value, users) && writes == old(writes) + 1)
                && (!(sys.Some? && RegenerateNeeded(ch) && fileOpened) ==> conf == old(conf) && writes == old(writes))
    {
      var configured := IsConfigured(sys);
      if !configured {
        return;
      }
      if idlSeqno != seqno {
        Reconfigure(sys, users, ch, fileOpened);
        seqno := idlSeqno;
      }
    }
  }
}
