/** The trap sender's session set-up: the engine ID kept in a global
    32-character buffer, the SNMPv3 user lookup, the security level and
    protocols taken from the user's row, and the community of a
    v1/v2c trap. net-snmp's hex conversion and key derivation are
    arguments. */
module SnmptrapLib {
  import opened Common
  import opened SnmpVty
  import opened SnmpContext
  import opened SnmpOvsdb

  /** `MAX_SNMP_ENGINEID_STR_LEN` and `MAX_COMMUNITY_STR_LEN`. */
  const MAX_SNMP_ENGINEID_STR_LEN: nat := 32
  const MAX_COMMUNITY_STR_LEN: nat := 64
  /** The bounds net-snmp puts on a binary engine ID. */
  const MIN_ENGINEID_BYTES: nat := 5
  const MAX_ENGINEID_BYTES: nat := 32

  /** The index the engine-ID loop stands at when it ends: one past the
      last character it wrote. */
  function EngineIdEnd(mac: string): nat
  {
    |ENGINE_ID_PREFIX| + |DropColons(mac)|
  }

  /** As written, `create_snmp_engine_id` writes every MAC character
      before it compares the index with the buffer size, so a
      `system_mac` with 21 characters other than colons has its last one
      written at index 32 of the 32-character buffer. */
  lemma OverlongMacWritesPastBuffer(mac: string)
    requires |mac| == 21 && forall i :: 0 <= i < |mac| ==> mac[i] != ':'
    ensures EngineIdEnd(mac) - 1 == MAX_SNMP_ENGINEID_STR_LEN
  {
    DropColonsKeepsGroup(mac);
  }

  /** The colons dropped from a prefix of `mac` are at most those dropped
      from all of it. */
  lemma DropColonsPrefix(mac: string, i: nat)
    requires i <= |mac|
    ensures |DropColons(mac[..i])| <= |DropColons(mac)|
  {
    assert mac == mac[..i] + mac[i..];
    DropColonsConcat(mac[..i], mac[i..]);
  }

  /** The characters of `s` before its first NUL, as C reads the buffer. */
  function CString(s: seq<char>): (r: seq<char>)
    ensures r <= s
    ensures forall i :: 0 <= i < |r| ==> r[i] != '\0'
    ensures |r| < |s| ==> s[|r|] == '\0'
  {
    if s == [] || s[0] == '\0' then [] else [s[0]] + CString(s[1..])
  }

  /** A NUL at `n` ends the C string there. */
  lemma {:induction false} CStringUpToNul(s: seq<char>, n: nat)
    requires n < |s| && s[n] == '\0'
    ensures CString(s) == CString(s[..n])
  {
    if n == 0 || s[0] == '\0' {
      assert CString(s) == [];
    } else {
      CStringUpToNul(s[1..], n - 1);
      assert s[..n][1..] == s[1..][..n - 1];
    }
  }

  /** `find_snmpv3_user`: the index of the first row named exactly
      `name`. */
  function FirstUserNamed(users: seq<V3User>, name: string): (r: Option<nat>)
    ensures r.None? <==> forall i :: 0 <= i < |users| ==> users[i].name != name
    ensures r.Some? ==> r.value < |users| && users[r.value].name == name &&
                        forall i :: 0 <= i < r.value ==> users[i].name != name
  {
    if users == [] then None
    else if users[0].name == name then Some(0)
    else
      var r := FirstUserNamed(users[1..], name);
      if r.None? then None else Some(r.value + 1)
  }

  /** SNMP security levels. */
  datatype SecLevel = LevelNoAuth | LevelAuthNoPriv | LevelAuthPriv
  datatype AuthProto = Md5 | Sha
  datatype PrivProto = Des | Aes

  /** The security fields `add_auth_priv_info` sets in the session. */
  datatype Security = Security(level: SecLevel, auth: Option<AuthProto>, priv: Option<PrivProto>)

  /** The IDL's protocol values. */
  const PROTO_NONE: string := "none"
  const PROTO_MD5: string := "md5"
  const PROTO_SHA: string := "sha"
  const PROTO_DES: string := "des"
  const PROTO_AES: string := "aes"

  /** `add_auth_priv_info`: privacy without authentication, an unknown
      protocol and a key that cannot be derived (`authKuOk`, `privKuOk`)
      are errors; otherwise the level follows the two protocols. */
  function SecurityOf(u: V3User, authKuOk: bool, privKuOk: bool): (r: Option<Security>)
    ensures var authFlag := u.authProtocol != PROTO_NONE;
            var privFlag := u.privProtocol != PROTO_NONE;
            && (r.Some? <==>
                  && (authFlag || !privFlag)
                  && (authFlag ==> (u.authProtocol == PROTO_MD5 || u.authProtocol == PROTO_SHA) && authKuOk)
                  && (privFlag ==> (u.privProtocol == PROTO_DES || u.privProtocol == PROTO_AES) && privKuOk))
            && (r.Some? ==>
                  && (r.value.level == LevelNoAuth <==> !authFlag)
                  && (r.value.level == LevelAuthPriv <==> privFlag)
                  && (r.value.auth.Some? <==> authFlag)
                  && (r.value.priv.Some? <==> privFlag)
                  && (r.value.auth == Some(Md5) <==> u.authProtocol == PROTO_MD5)
                  && (r.value.priv == Some(Aes) <==> u.privProtocol == PROTO_AES))
  {
    var authFlag := u.authProtocol != PROTO_NONE;
    var privFlag := u.privProtocol != PROTO_NONE;
    if !authFlag && privFlag then None
    else
      var level := if !authFlag then LevelNoAuth else if !privFlag then LevelAuthNoPriv else LevelAuthPriv;
      if authFlag && u.authProtocol != PROTO_MD5 && u.authProtocol != PROTO_SHA then None
      else if privFlag && u.privProtocol != PROTO_DES && u.privProtocol != PROTO_AES then None
      else if authFlag && !authKuOk then None
      else if privFlag && !privKuOk then None
      else
        Some(Security(level,
                      if !authFlag then None else if u.authProtocol == PROTO_MD5 then Some(Md5) else Some(Sha),
                      if !privFlag then None else if u.privProtocol == PROTO_DES then Some(Des) else Some(Aes)))
  }

  /** A user created by a command the grammar accepts gets the session
      security its command asked for. */
  lemma SecurityOfCreatedUser(name: string, sec: V3Security)
    requires GrammarSecurity(sec)
    ensures match sec
            case NoAuth => SecurityOf(NewV3User(name, sec), true, true) == Some(Security(LevelNoAuth, None, None))
            case Auth(a, _) =>
              SecurityOf(NewV3User(name, sec), true, true) ==
              Some(Security(LevelAuthNoPriv, Some(if a == PROTO_MD5 then Md5 else Sha), None))
            case AuthPriv(a, _, p, _) =>
              SecurityOf(NewV3User(name, sec), true, true) ==
              Some(Security(LevelAuthPriv, Some(if a == PROTO_MD5 then Md5 else Sha), Some(if p == PROTO_AES then Aes else Des)))
  {
    match sec
    case NoAuth =>
    case Auth(a, _) =>
      assert a != PROTO_NONE by { assert a[0] != PROTO_NONE[0]; }
    case AuthPriv(a, _, p, _) =>
      assert a != PROTO_NONE by { assert a[0] != PROTO_NONE[0]; }
      assert p != PROTO_NONE by { assert p[0] != PROTO_NONE[0]; }
  }

  /** The community a v1/v2c trap is sent with: the row's, cut to the
      64-character buffer, or "public" when it is empty. */
  function TrapCommunityOf(name: string): (c: string)
    ensures name == "" ==> c == DEFAULT_COMMUNITY
    ensures name != "" && |name| <= MAX_COMMUNITY_STR_LEN ==> c == name
    ensures |c| <= MAX_COMMUNITY_STR_LEN && c != ""
  {
    var t := Take(name, MAX_COMMUNITY_STR_LEN);
    if t == "" then DEFAULT_COMMUNITY else t
  }

  /** The SNMPv3 part of a session that `ops_add_snmpv3_user` fills. */
  datatype V3Session = V3Session(engineIdLen: nat, security: Security, securityName: string)

  method FindUser(users: seq<V3User>, name: string) returns (r: Option<nat>)
    ensures r == FirstUserNamed(users, name)
  {
    var i := 0;
    while i < |users|
      invariant 0 <= i <= |users|
      invariant forall k :: 0 <= k < i ==> users[k].name != name
    {
      if users[i].name == name {
        return Some(i);
      }
      i := i + 1;
    }
    return None;
  }

  class TrapLib {
    /** `global_snmp_engine_id`. */
    const engineId: array<char>
    /** `global_trap_community`. */
    var trapCommunity: string

    ghost predicate Valid()
      reads this
    {
      engineId.Length == MAX_SNMP_ENGINEID_STR_LEN
    }

    constructor ()
      ensures Valid() && fresh(engineId)
      ensures forall k :: 0 <= k < engineId.Length ==> engineId[k] == '\0'
      ensures trapCommunity == ""
    {
      engineId := new char[MAX_SNMP_ENGINEID_STR_LEN]((_: int) => '\0');
      trapCommunity := "";
    }

    /** The `strncpy` of the head: the head, then NULs to the end. */
    method CopyPrefix()
      requires Valid()
      modifies engineId
      ensures engineId[..|ENGINE_ID_PREFIX|] == ENGINE_ID_PREFIX
      ensures forall j :: |ENGINE_ID_PREFIX| <= j < engineId.Length ==> engineId[j] == '\0'
    {
      var k := 0;
      while k < MAX_SNMP_ENGINEID_STR_LEN
        invariant 0 <= k <= MAX_SNMP_ENGINEID_STR_LEN
        invariant forall j :: 0 <= j < k ==> engineId[j] == (if j < |ENGINE_ID_PREFIX| then ENGINE_ID_PREFIX[j] else '\0')
      {
        engineId[k] := if k < |ENGINE_ID_PREFIX| then ENGINE_ID_PREFIX[k] else '\0';
        k := k + 1;
      }
      assert engineId[..|ENGINE_ID_PREFIX|] == ENGINE_ID_PREFIX;
    }

    /** `create_snmp_engine_id` with the size test made before each write:
        the buffer gets the head, then the MAC without its colons, then a
        NUL, and -1 is returned when there is no System row or the text
        does not fit. The head is written whenever there is a row. */
    method CreateEngineId(sys: Option<SystemRow>) returns (rc: int)
      requires Valid()
      modifies engineId
      ensures sys.None? ==> rc == -1 && engineId[..] == old(engineId[..])
      ensures sys.Some? ==> engineId[0] == ENGINE_ID_PREFIX[0]
      ensures rc == 0 || rc == -1
      ensures rc == 0 <==> sys.Some? && |EngineIdOf(sys.value.systemMac)| < MAX_SNMP_ENGINEID_STR_LEN
      ensures rc == 0 ==>
                var id := EngineIdOf(sys.value.systemMac);
                engineId[..|id|] == id && engineId[|id|] == '\0'
    {
      if sys.None? {
        return -1;
      }
      var mac := sys.value.systemMac;
      CopyPrefix();
      var idx := |ENGINE_ID_PREFIX|;
      var i := 0;
      while i < |mac|
        invariant 0 <= i <= |mac|
        invariant idx == |ENGINE_ID_PREFIX| + |DropColons(mac[..i])| < MAX_SNMP_ENGINEID_STR_LEN + 1
        invariant idx <= MAX_SNMP_ENGINEID_STR_LEN
        invariant engineId[..idx] == ENGINE_ID_PREFIX + DropColons(mac[..i])
        invariant engineId[0] == ENGINE_ID_PREFIX[0]
      {
        assert mac[..i + 1] == mac[..i] + [mac[i]];
        DropColonsConcat(mac[..i], [mac[i]]);
        assert DropColons([mac[i]]) == (if mac[i] == ':' then [] else [mac[i]]) by {
          assert [mac[i]][1..] == [];
        }
        if mac[i] != ':' {
          if idx >= MAX_SNMP_ENGINEID_STR_LEN {
            DropColonsPrefix(mac, i + 1);
            return -1;
          }
          engineId[idx] := mac[i];
          idx := idx + 1;
        }
        i := i + 1;
      }
      assert mac[..i] == mac;
      if idx >= MAX_SNMP_ENGINEID_STR_LEN {
        return -1;
      }
      engineId[idx] := '\0';
      rc := 0;
    }

    /** `ops_add_snmpv3_user`: the engine ID is built on first use; its
        binary form (`hexToBinary`, the length net-snmp's conversion gives,
        None when it fails) must be 5..32 bytes; the trap's user must
        exist and its security must be valid; the user name becomes the
        security name. */
    method AddV3User(sys: Option<SystemRow>, users: seq<V3User>, userName: string,
                     hexToBinary: string -> Option<nat>, authKuOk: bool, privKuOk: bool)
      returns (rc: int, session: Option<V3Session>)
      requires Valid()
      modifies engineId
      ensures rc == 0 <==> session.Some?
      ensures rc != 0 ==> rc == -1
      ensures old(engineId[0]) != '\0' ==> engineId[..] == old(engineId[..])
      ensures old(engineId[0]) == '\0' && (sys.None? || |EngineIdOf(sys.value.systemMac)| >= MAX_SNMP_ENGINEID_STR_LEN) ==>
                rc == -1
      ensures session.Some? ==>
                var bin := hexToBinary(CString(engineId[..]));
                var u := FirstUserNamed(users, userName);
                && bin.Some? && MIN_ENGINEID_BYTES <= bin.value <= MAX_ENGINEID_BYTES
                && session.value.engineIdLen == bin.value
                && u.Some? && SecurityOf(users[u.value], authKuOk, privKuOk) == Some(session.value.security)
                && session.value.securityName == userName
      // An engine ID built here is the head and the MAC without colons.
      ensures old(engineId[0]) == '\0' && sys.Some? && |EngineIdOf(sys.value.systemMac)| < MAX_SNMP_ENGINEID_STR_LEN ==>
                var id := EngineIdOf(sys.value.systemMac);
                engineId[..|id|] == id && engineId[|id|] == '\0' && CString(engineId[..]) == CString(id)
      // Conversely, a usable engine ID of 5..32 bytes, a named user and a
      // valid security give a session.
      ensures var idText := if old(engineId[0]) != '\0' then CString(old(engineId[..]))
                            else if sys.Some? then CString(EngineIdOf(sys.value.systemMac)) else [];
              var bin := hexToBinary(idText);
              var u := FirstUserNamed(users, userName);
              && (old(engineId[0]) != '\0' || (sys.Some? && |EngineIdOf(sys.value.systemMac)| < MAX_SNMP_ENGINEID_STR_LEN))
              && bin.Some? && MIN_ENGINEID_BYTES <= bin.value <= MAX_ENGINEID_BYTES
              && u.Some? && SecurityOf(users[u.value], authKuOk, privKuOk).Some?
              ==> rc == 0
    {
      if engineId[0] == '\0' {
        var err := CreateEngineId(sys);
        if err < 0 {
          return -1, None;
        }
        var id := EngineIdOf(sys.value.systemMac);
        CStringUpToNul(engineId[..], |id|);
        assert engineId[..][..|id|] == id;
      }
      var bin := hexToBinary(CString(engineId[..]));
      if bin.None? {
        return -1, None;
      }
      if bin.value < MIN_ENGINEID_BYTES || bin.value > MAX_ENGINEID_BYTES {
        return -1, None;
      }
      var idx := FindUser(users, userName);
      if idx.None? {
        return -1, None;
      }
      var sec := SecurityOf(users[idx.value], authKuOk, privKuOk);
      if sec.None? {
        return -1, None;
      }
      return 0, Some(V3Session(bin.value, sec.value, userName));
    }

    /** `ops_add_snmp_trap_community`: the community is kept in the global
        buffer and handed to the session. */
    method AddTrapCommunity(name: string) returns (community: string)
      modifies `trapCommunity
      ensures community == trapCommunity == TrapCommunityOf(name)
    {
      trapCommunity := Take(name, MAX_COMMUNITY_STR_LEN);
      if trapCommunity == "" {
        trapCommunity := DEFAULT_COMMUNITY;
      }
      community := trapCommunity;
    }
  }
}
