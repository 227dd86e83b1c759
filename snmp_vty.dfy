/** The SNMP configuration commands of the CLI: trap receivers (rows of
    the SNMP_Trap table), the System row's community list and
    `other_config` keys, and SNMPv3 users. Tables are sequences in
    iteration order; the IP-address check and the transaction outcomes
    are arguments. */
module SnmpVty {
  import opened Common

  const DEFAULT_COMMUNITY: string := "public"
  const DEFAULT_TRAP_RECEIVER_UDP_PORT: int := 162
  const DEFAULT_AUTH: string := "none"
  const DEFAULT_PRIV: string := "none"
  /** Comparison lengths of the `strncmp` calls. */
  const MAX_COMMUNITY_LENGTH: nat := 33
  const MAX_IP_STR_LENGTH: nat := 46
  const MAX_VERSION_LENGTH: nat := 4
  const MAX_V3_USER_NAME_LENGTH: nat := 33
  const MAX_ALLOWED_SNMP_COMMUNITIES: nat := 10
  const MAX_ALLOWED_SNMP_TRAPS: nat := 30

  const AGENT_PORT_KEY: string := "snmp_agent_port"
  const SYS_DESCRIPTION_KEY: string := "system_description"
  const SYS_CONTACT_KEY: string := "system_contact"
  const SYS_LOCATION_KEY: string := "system_location"

  datatype CmdResult = CmdSuccess | CmdOvsdbFailure

  /** A committed transaction: success or nothing to change. */
  datatype TxnStatus = TxnSuccess | TxnUnchanged | TxnFailed

  predicate Committed(s: TxnStatus)
  {
    s == TxnSuccess || s == TxnUnchanged
  }

  /** The value of `enum ovsdb_idl_txn_status` for each outcome of a
      blocking commit: TXN_UNCHANGED is 1, TXN_SUCCESS 4, and a failure
      one of 3 to 7 (TXN_ERROR, 7, standing for them). TXN_UNCOMMITTED,
      the only zero, is never the result of a blocking commit. */
  function TxnCode(s: TxnStatus): (c: nat)
    ensures c != 0
    ensures Committed(s) ==> c == 1 || c == 4
    ensures !Committed(s) ==> 3 <= c <= 7
  {
    match s
    case TxnUnchanged => 1
    case TxnSuccess => 4
    case TxnFailed => 7
  }

  /** The reply of the community commands as written: the status of
      `cli_do_config_finish` is tested as a truth value. */
  function CommunityReplyAsWritten(commit: TxnStatus): CmdResult
  {
    if TxnCode(commit) != 0 then CmdSuccess else CmdOvsdbFailure
  }

  /** As written, a community command whose commit fails replies
      CMD_SUCCESS, although nothing was stored; the other commands reply
      CMD_OVSDB_FAILURE to the same status. */
  lemma FailedCommunityCommitReportsSuccess(commit: TxnStatus)
    requires !Committed(commit)
    ensures CommunityReplyAsWritten(commit) == CmdSuccess
  {
    assert TxnCode(commit) != 0;
  }

  /** The first n characters of s (all of it when shorter). */
  function Take(s: string, n: nat): (r: string)
    ensures |r| <= n && r <= s
    ensures |s| <= n ==> r == s
  {
    if |s| <= n then s else s[..n]
  }

  /** `strncmp(a, b, n) == 0` on strings without NUL characters. */
  predicate StrnEq(a: string, b: string, n: nat)
  {
    Take(a, n) == Take(b, n)
  }

  /** A row of the SNMP_Trap table. */
  datatype TrapRow = TrapRow(ip: string, port: int, community: string, trapType: string, version: string)

  /** A row of the SNMPv3_User table; the pass phrases are None when unset. */
  datatype V3User = V3User(name: string, authProtocol: string, authKey: Option<string>,
                           privProtocol: string, privKey: Option<string>)

  /** How a pass phrase is printed; a missing one is formatted by `%s` as
      "(null)". */
  function PassText(p: Option<string>): string
  {
    if p.Some? then p.value else "(null)"
  }

  /** The security a `snmpv3 user` command gives: none, authentication,
      or authentication and privacy, each with protocol and pass phrase. */
  datatype V3Security = NoAuth | Auth(auth: string, authKey: string) |
                        AuthPriv(auth: string, authKey: string, priv: string, privKey: string)

  /** The row `configure_snmpv3_user` inserts. */
  function NewV3User(name: string, sec: V3Security): (u: V3User)
    ensures u.name == name
    ensures sec.NoAuth? ==> u.authProtocol == DEFAULT_AUTH && u.privProtocol == DEFAULT_PRIV &&
                            u.authKey.None? && u.privKey.None?
    ensures sec.Auth? ==> u.authProtocol == sec.auth && u.authKey == Some(sec.authKey) &&
                          u.privProtocol == DEFAULT_PRIV && u.privKey.None?
    ensures sec.AuthPriv? ==> u == V3User(name, sec.auth, Some(sec.authKey), sec.priv, Some(sec.privKey))
  {
    match sec
    case NoAuth => V3User(name, DEFAULT_AUTH, None, DEFAULT_PRIV, None)
    case Auth(a, k) => V3User(name, a, Some(k), DEFAULT_PRIV, None)
    case AuthPriv(a, k, p, pk) => V3User(name, a, Some(k), p, Some(pk))
  }

  /** The duplicate test of `snmp_server_host_config`: address, port,
      version and type agree; the community is not compared. */
  predicate TrapDuplicates(row: TrapRow, ip: string, port: int, version: string, trapType: string)
  {
    StrnEq(row.ip, ip, MAX_IP_STR_LENGTH) && row.port == port &&
    StrnEq(row.version, version, MAX_VERSION_LENGTH) && row.trapType == trapType
  }

  /** The match test of `snmp_server_host_unconfig` (exact compares). */
  predicate TrapMatches(row: TrapRow, ip: string, port: int, version: string, trapType: string)
  {
    row.ip == ip && row.port == port && row.version == version && row.trapType == trapType
  }

  /** The static-counter test of `snmp_server_host_config`, as written:
      refused once more than 30 adds succeeded. */
  predicate TrapLimitReached(trapCount: int)
  {
    trapCount > 30
  }

  /** The test the header's limit evidently intends: refused once
      MAX_ALLOWED_SNMP_TRAPS adds succeeded. */
  predicate TrapLimitReachedCapped(trapCount: int)
  {
    trapCount >= MAX_ALLOWED_SNMP_TRAPS
  }

  /** The limit test of `snmp_server_host_config`: as written when
      `capped` is false, the corrected one otherwise. */
  predicate LimitTest(capped: bool, trapCount: int)
  {
    if capped then TrapLimitReachedCapped(trapCount) else TrapLimitReached(trapCount)
  }

  /** The static trap counter after `n` more `snmp-server host` commands
      that pass every other test (a valid address, an existing v3 user,
      no duplicate, a committed transaction): each one that the limit
      test lets through adds one, as `SnmpDb.HostConfig` states. */
  function CountAfterAdds(capped: bool, trapCount: int, n: nat): int
    decreases n
  {
    if n == 0 then trapCount
    else CountAfterAdds(capped, if LimitTest(capped, trapCount) then trapCount else trapCount + 1, n - 1)
  }

  /** As written, the counter of a fresh session follows the commands up
      to 31 and stays there. */
  lemma {:induction false} CountAfterAddsAsWritten(trapCount: int, n: nat)
    requires 0 <= trapCount <= 31
    ensures CountAfterAdds(false, trapCount, n) == if trapCount + n <= 31 then trapCount + n else 31
    decreases n
  {
    if n > 0 {
      if trapCount == 31 {
        CountAfterAddsAsWritten(31, n - 1);
      } else {
        CountAfterAddsAsWritten(trapCount + 1, n - 1);
      }
    }
  }

  /** As written, 31 adds into a fresh session are all accepted: the
      session ends with one receiver more than MAX_ALLOWED_SNMP_TRAPS. */
  lemma TrapLimitAdmitsThirtyFirst()
    ensures CountAfterAdds(false, 0, MAX_ALLOWED_SNMP_TRAPS + 1) == MAX_ALLOWED_SNMP_TRAPS + 1
    ensures forall n: nat :: CountAfterAdds(false, 0, n) <= MAX_ALLOWED_SNMP_TRAPS + 1
  {
    CountAfterAddsAsWritten(0, MAX_ALLOWED_SNMP_TRAPS + 1);
    forall n: nat
      ensures CountAfterAdds(false, 0, n) <= MAX_ALLOWED_SNMP_TRAPS + 1
    {
      CountAfterAddsAsWritten(0, n);
    }
  }

  /** With the corrected test the counter follows the commands up to
      MAX_ALLOWED_SNMP_TRAPS and stays there: the first 30 adds are
      accepted and every later one is refused. */
  lemma {:induction false} CappedLimitBoundsTraps(trapCount: int, n: nat)
    requires 0 <= trapCount <= MAX_ALLOWED_SNMP_TRAPS
    ensures CountAfterAdds(true, trapCount, n) ==
              if trapCount + n <= MAX_ALLOWED_SNMP_TRAPS then trapCount + n else MAX_ALLOWED_SNMP_TRAPS
    decreases n
  {
    if n > 0 {
      if trapCount == MAX_ALLOWED_SNMP_TRAPS {
        CappedLimitBoundsTraps(trapCount, n - 1);
      } else {
        CappedLimitBoundsTraps(trapCount + 1, n - 1);
      }
    }
  }

  /** The elements of s that `keep` accepts, in order. */
  function Filter<T(!new)>(s: seq<T>, keep: T -> bool): (r: seq<T>)
    ensures |r| <= |s|
    ensures forall x :: x in r <==> x in s && keep(x)
  {
    if s == [] then []
    else if keep(s[0]) then [s[0]] + Filter(s[1..], keep)
    else Filter(s[1..], keep)
  }

  lemma {:induction false} FilterConcat<T(!new)>(a: seq<T>, b: seq<T>, keep: T -> bool)
    ensures Filter(a + b, keep) == Filter(a, keep) + Filter(b, keep)
  {
    if a == [] {
      assert a + b == b;
    } else {
      assert (a + b)[1..] == a[1..] + b;
      FilterConcat(a[1..], b, keep);
    }
  }

  lemma {:induction false} FilterAllKept<T(!new)>(s: seq<T>, keep: T -> bool)
    requires forall j :: 0 <= j < |s| ==> keep(s[j])
    ensures Filter(s, keep) == s
  {
    if s != [] {
      FilterAllKept(s[1..], keep);
    }
  }

  /** One more element seen by a filtering loop. */
  lemma FilterStep<T(!new)>(s: seq<T>, i: nat, keep: T -> bool)
    requires i < |s|
    ensures Filter(s[..i + 1], keep) == Filter(s[..i], keep) + (if keep(s[i]) then [s[i]] else [])
  {
    assert s[..i + 1] == s[..i] + [s[i]];
    FilterConcat(s[..i], [s[i]], keep);
    assert [s[i]][1..] == [];
  }

  function NotEqualTo(c: string): string -> bool
  {
    (x: string) => x != c
  }

  /** `cs` without every occurrence of `c`, the rest in order. */
  function Without(cs: seq<string>, c: string): (r: seq<string>)
    ensures |r| <= |cs|
    ensures forall x :: x in r <==> x in cs && x != c
  {
    Filter(cs, NotEqualTo(c))
  }

  /** Dropping one element keeps the others pairwise distinct. */
  lemma RemoveKeepsPrefixDistinct(cs: seq<string>, j: nat, n: nat)
    requires j < |cs| && PrefixDistinct(cs, n)
    ensures PrefixDistinct(cs[..j] + cs[j + 1..], n)
  {
    var rest := cs[..j] + cs[j + 1..];
    forall a, b | 0 <= a < |rest| && 0 <= b < |rest| && a != b
      ensures !StrnEq(rest[a], rest[b], n)
    {
      var a' := if a < j then a else a + 1;
      var b' := if b < j then b else b + 1;
      assert rest[a] == cs[a'] && rest[b] == cs[b'];
    }
  }

  lemma RemovePreservesOrder(cs: seq<string>, i: nat)
    requires i < |cs|
    requires forall j :: 0 <= j < |cs| && j != i ==> cs[j] != cs[i]
    ensures Without(cs, cs[i]) == cs[..i] + cs[i + 1..]
    ensures |Without(cs, cs[i])| == |cs| - 1
  {
    var c := cs[i];
    var head := cs[..i];
    var tail := cs[i + 1..];
    assert cs == head + ([c] + tail);
    FilterConcat(head, [c] + tail, NotEqualTo(c));
    FilterConcat([c], tail, NotEqualTo(c));
    forall j | 0 <= j < |tail| ensures NotEqualTo(c)(tail[j]) {
      assert tail[j] == cs[i + 1 + j];
    }
    FilterAllKept(head, NotEqualTo(c));
    FilterAllKept(tail, NotEqualTo(c));
    assert Filter([c], NotEqualTo(c)) == [] by {
      assert [c][1..] == [];
    }
  }

  /** Adding a new community and removing it again restores the list. */
  lemma AddThenRemoveRestores(cs: seq<string>, c: string)
    requires c !in cs
    ensures Without(cs + [c], c) == cs
  {
    FilterConcat(cs, [c], NotEqualTo(c));
    forall j | 0 <= j < |cs| ensures NotEqualTo(c)(cs[j]) {
      assert cs[j] in cs;
    }
    FilterAllKept(cs, NotEqualTo(c));
    assert Filter([c], NotEqualTo(c)) == [] by {
      assert [c][1..] == [];
    }
  }

  /** No two entries agree on their first n characters. */
  predicate PrefixDistinct(cs: seq<string>, n: nat)
  {
    forall i, j :: 0 <= i < |cs| && 0 <= j < |cs| && i != j ==> !StrnEq(cs[i], cs[j], n)
  }

  /** No two users agree on the compared part of their names. */
  predicate UserNamesDistinct(us: seq<V3User>)
  {
    forall i, j :: 0 <= i < |us| && 0 <= j < |us| && i != j ==>
      !StrnEq(us[i].name, us[j].name, MAX_V3_USER_NAME_LENGTH)
  }

  /** The rows `snmp_server_host_unconfig` keeps. */
  function TrapKept(ip: string, port: int, version: string, trapType: string): TrapRow -> bool
  {
    (t: TrapRow) => !TrapMatches(t, ip, port, version, trapType)
  }

  /** The users `unconfigure_snmpv3_user` keeps. */
  function UserKept(name: string): V3User -> bool
  {
    (u: V3User) => !StrnEq(name, u.name, MAX_V3_USER_NAME_LENGTH)
  }

  lemma {:induction false} FilterKeepsNamesDistinct(us: seq<V3User>, keep: V3User -> bool)
    requires UserNamesDistinct(us)
    ensures UserNamesDistinct(Filter(us, keep))
  {
    if us != [] {
      var rest := us[1..];
      assert UserNamesDistinct(rest) by {
        forall i, j | 0 <= i < |rest| && 0 <= j < |rest| && i != j
          ensures !StrnEq(rest[i].name, rest[j].name, MAX_V3_USER_NAME_LENGTH)
        {
          assert rest[i] == us[i + 1] && rest[j] == us[j + 1];
        }
      }
      FilterKeepsNamesDistinct(rest, keep);
      if keep(us[0]) {
        var r := [us[0]] + Filter(rest, keep);
        forall i, j | 0 <= i < |r| && 0 <= j < |r| && i != j
          ensures !StrnEq(r[i].name, r[j].name, MAX_V3_USER_NAME_LENGTH)
        {
          if i == 0 || j == 0 {
            var k := if i == 0 then j else i;
            assert r[k] in rest;
            var m :| 0 <= m < |rest| && rest[m] == r[k];
            assert us[m + 1] == r[k];
          }
        }
      }
    }
  }

  /** The copy loop of `remove_community_name`: the communities other
      than `name`, in order, and whether `name` was among them. */
  method ScanCommunities(cs: seq<string>, name: string) returns (kept: seq<string>, found: bool)
    ensures kept == Without(cs, name)
    ensures found <==> name in cs
  {
    kept := [];
    found := false;
    var i := 0;
    while i < |cs|
      invariant 0 <= i <= |cs|
      invariant kept == Filter(cs[..i], NotEqualTo(name))
      invariant found <==> name in cs[..i]
    {
      FilterStep(cs, i, NotEqualTo(name));
      assert cs[..i + 1] == cs[..i] + [cs[i]];
      if cs[i] == name {
        found := true;
      } else {
        kept := kept + [cs[i]];
      }
      i := i + 1;
    }
    assert cs[..i] == cs;
  }

  class SnmpDb {
    /** `trap_count`, the static counter of successful trap adds. */
    var trapCount: int
    var traps: seq<TrapRow>
    /** The System row's `snmp_communities`. */
    var communities: seq<string>
    var users: seq<V3User>
    /** The System row's `other_config`. */
    var otherConfig: map<string, string>
    /** The System row's `switch_version`. */
    const switchVersion: string

    /** The communities and user names stay distinct under the compares
        the add commands make. */
    ghost predicate Valid()
      reads this
    {
      PrefixDistinct(communities, MAX_COMMUNITY_LENGTH) && UserNamesDistinct(users)
    }

    constructor (switchVersion: string, otherConfig: map<string, string>)
      ensures trapCount == 0 && traps == [] && communities == [] && users == []
      ensures this.switchVersion == switchVersion && this.otherConfig == otherConfig
      ensures Valid()
    {
      trapCount := 0;
      traps := [];
      communities := [];
      users := [];
      this.otherConfig := otherConfig;
      this.switchVersion := switchVersion;
    }

    /** `snmp_v3_user_exists`, the first-match search. */
    method UserExists(name: string) returns (found: bool)
      ensures found <==> exists i :: 0 <= i < |users| && StrnEq(users[i].name, name, MAX_V3_USER_NAME_LENGTH)
    {
      var i := 0;
      while i < |users|
        modifies {}
        invariant 0 <= i <= |users|
        invariant forall k :: 0 <= k < i ==> !StrnEq(users[k].name, name, MAX_V3_USER_NAME_LENGTH)
      {
        if StrnEq(users[i].name, name, MAX_V3_USER_NAME_LENGTH) {
          return true;
        }
        i := i + 1;
      }
      return false;
    }

    /** The duplicate search of `snmp_server_host_config`. */
    method TrapExists(ip: string, port: int, version: string, trapType: string) returns (found: bool)
      ensures found <==> exists i :: 0 <= i < |traps| && TrapDuplicates(traps[i], ip, port, version, trapType)
    {
      var i := 0;
      while i < |traps|
        modifies {}
        invariant 0 <= i <= |traps|
        invariant forall k :: 0 <= k < i ==> !TrapDuplicates(traps[k], ip, port, version, trapType)
      {
        if TrapDuplicates(traps[i], ip, port, version, trapType) {
          return true;
        }
        i := i + 1;
      }
      return false;
    }

    /** `snmp_server_host_config`: refused (CMD_SUCCESS, no change) once
        MAX_ALLOWED_SNMP_TRAPS adds succeeded (the corrected limit test), for an invalid address, for a v3 receiver whose
        user does not exist, and for a duplicate; otherwise the row is
        inserted and, once committed, the counter grows by one. `community`
        is the user name for v3. */
    method HostConfig(ip: string, community: string, port: int, version: string, trapType: string,
                      ipValid: bool, txnStarted: bool, commit: TxnStatus)
      returns (r: CmdResult)
      modifies this
      ensures communities == old(communities) && users == old(users) && otherConfig == old(otherConfig)
      ensures old(trapCount) <= MAX_ALLOWED_SNMP_TRAPS ==> trapCount <= MAX_ALLOWED_SNMP_TRAPS
      ensures
        var refused := TrapLimitReachedCapped(old(trapCount)) || !ipValid ||
                       (StrnEq(version, "v3", MAX_VERSION_LENGTH) &&
                        !(exists i :: 0 <= i < |users| && StrnEq(users[i].name, community, MAX_V3_USER_NAME_LENGTH))) ||
                       (exists i :: 0 <= i < |old(traps)| && TrapDuplicates(old(traps)[i], ip, port, version, trapType));
        if refused then r == CmdSuccess && traps == old(traps) && trapCount == old(trapCount)
        else if txnStarted && Committed(commit) then
          r == CmdSuccess && traps == old(traps) + [TrapRow(ip, port, community, trapType, version)] &&
          trapCount == old(trapCount) + 1
        else r == CmdOvsdbFailure && traps == old(traps) && trapCount == old(trapCount)
    {
      if TrapLimitReachedCapped(trapCount) {
        return CmdSuccess;
      }
      if !ipValid {
        return CmdSuccess;
      }
      if StrnEq(version, "v3", MAX_VERSION_LENGTH) {
        var exists_ := UserExists(community);
        if !exists_ {
          return CmdSuccess;
        }
      }
      var dup := TrapExists(ip, port, version, trapType);
      if dup {
        return CmdSuccess;
      }
      if !txnStarted || !Committed(commit) {
        return CmdOvsdbFailure;
      }
      traps := traps + [TrapRow(ip, port, community, trapType, version)];
      trapCount := trapCount + 1;
      r := CmdSuccess;
    }

    /** `snmp_server_host_unconfig`: every row matching address, port,
        version and type is deleted, whatever its community. */
    method HostUnconfig(ip: string, port: int, version: string, trapType: string,
                        txnStarted: bool, commit: TxnStatus)
      returns (r: CmdResult)
      modifies this
      ensures communities == old(communities) && users == old(users) && otherConfig == old(otherConfig)
      ensures trapCount == old(trapCount)
      ensures r == CmdSuccess <==> txnStarted && Committed(commit)
      ensures r == CmdSuccess ==> traps == Filter(old(traps), TrapKept(ip, port, version, trapType))
      ensures r == CmdSuccess ==> forall t :: t in traps ==> !TrapMatches(t, ip, port, version, trapType)
      ensures r != CmdSuccess ==> traps == old(traps)
    {
      if !txnStarted {
        return CmdOvsdbFailure;
      }
      var ts := traps;
      var kept: seq<TrapRow> := [];
      var i := 0;
      while i < |ts|
        modifies {}
        invariant 0 <= i <= |ts|
        invariant kept == Filter(ts[..i], TrapKept(ip, port, version, trapType))
      {
        FilterStep(ts, i, TrapKept(ip, port, version, trapType));
        if !TrapMatches(ts[i], ip, port, version, trapType) {
          kept := kept + [ts[i]];
        }
        i := i + 1;
      }
      assert ts[..i] == ts;
      if !Committed(commit) {
        return CmdOvsdbFailure;
      }
      traps := kept;
      r := CmdSuccess;
    }

    /** `configure_community_name`: with 10 communities the command is
        refused; a community equal to one present (in its first 33
        characters) is refused; otherwise it is appended. Refusals report
        CMD_SUCCESS. */
    method AddCommunity(name: string, txnStarted: bool, commit: TxnStatus) returns (r: CmdResult)
      requires Valid()
      modifies this
      ensures Valid()
      ensures traps == old(traps) && users == old(users) && otherConfig == old(otherConfig) && trapCount == old(trapCount)
      ensures !txnStarted ==> r == CmdOvsdbFailure && communities == old(communities)
      ensures txnStarted && |old(communities)| == MAX_ALLOWED_SNMP_COMMUNITIES ==>
                r == CmdSuccess && communities == old(communities)
      ensures txnStarted && (exists i :: 0 <= i < |old(communities)| && StrnEq(old(communities)[i], name, MAX_COMMUNITY_LENGTH)) ==>
                r == CmdSuccess && communities == old(communities)
      ensures txnStarted && |old(communities)| != MAX_ALLOWED_SNMP_COMMUNITIES &&
              (forall i :: 0 <= i < |old(communities)| ==> !StrnEq(old(communities)[i], name, MAX_COMMUNITY_LENGTH)) ==>
                && (Committed(commit) ==> r == CmdSuccess && communities == old(communities) + [name])
                && (!Committed(commit) ==> r == CmdOvsdbFailure && communities == old(communities))
    {
      if !txnStarted {
        return CmdOvsdbFailure;
      }
      if |communities| == MAX_ALLOWED_SNMP_COMMUNITIES {
        return CmdSuccess;
      }
      var cs := communities;
      var names := new string[|cs| + 1];
      var i := 0;
      while i < |cs|
        modifies names
        invariant 0 <= i <= |cs|
        invariant forall k :: 0 <= k < i ==> names[k] == cs[k]
        invariant forall k :: 0 <= k < i ==> !StrnEq(cs[k], name, MAX_COMMUNITY_LENGTH)
      {
        if StrnEq(cs[i], name, MAX_COMMUNITY_LENGTH) {
          return CmdSuccess;
        }
        names[i] := cs[i];
        i := i + 1;
      }
      names[i] := name;
      if !Committed(commit) {
        return CmdOvsdbFailure;
      }
      assert names[..] == cs + [name];
      communities := names[..];
      assert PrefixDistinct(communities, MAX_COMMUNITY_LENGTH) by {
        forall a, b | 0 <= a < |communities| && 0 <= b < |communities| && a != b
          ensures !StrnEq(communities[a], communities[b], MAX_COMMUNITY_LENGTH)
        {
          if a == |cs| {
            assert !StrnEq(cs[b], name, MAX_COMMUNITY_LENGTH);
          } else if b == |cs| {
            assert !StrnEq(cs[a], name, MAX_COMMUNITY_LENGTH);
          }
        }
      }
      r := CmdSuccess;
    }

    /** `remove_community_name`: an unconfigured community changes nothing;
        a configured one is dropped, the rest keeping their order. */
    method RemoveCommunity(name: string, txnStarted: bool, commit: TxnStatus) returns (r: CmdResult)
      requires Valid()
      modifies this
      ensures Valid()
      ensures traps == old(traps) && users == old(users) && otherConfig == old(otherConfig) && trapCount == old(trapCount)
      ensures name !in old(communities) ==> r == CmdSuccess && communities == old(communities)
      ensures name in old(communities) && !(txnStarted && Committed(commit)) ==>
                r == CmdOvsdbFailure && communities == old(communities)
      ensures name in old(communities) && txnStarted && Committed(commit) ==>
                r == CmdSuccess && communities == Without(old(communities), name) &&
                |communities| == |old(communities)| - 1
    {
      var cs := communities;
      var kept, found := ScanCommunities(cs, name);
      if !found {
        return CmdSuccess;
      }
      if !txnStarted || !Committed(commit) {
        return CmdOvsdbFailure;
      }
      var j :| 0 <= j < |cs| && cs[j] == name;
      forall k | 0 <= k < |cs| && k != j ensures cs[k] != cs[j] {
        assert !StrnEq(cs[k], cs[j], MAX_COMMUNITY_LENGTH);
      }
      RemovePreservesOrder(cs, j);
      communities := kept;
      RemoveKeepsPrefixDistinct(cs, j, MAX_COMMUNITY_LENGTH);
      r := CmdSuccess;
    }

    /** `configure_snmpv3_user`: a user whose name matches an existing
        one is refused (CMD_SUCCESS, no change); otherwise the new row is
        added, with auth and priv "none" when not given. */
    method AddUser(name: string, sec: V3Security, txnStarted: bool, commit: TxnStatus) returns (r: CmdResult)
      requires Valid()
      modifies this
      ensures Valid()
      ensures traps == old(traps) && communities == old(communities) && otherConfig == old(otherConfig)
      ensures trapCount == old(trapCount)
      ensures (exists i :: 0 <= i < |old(users)| && StrnEq(name, old(users)[i].name, MAX_V3_USER_NAME_LENGTH)) ==>
                r == CmdSuccess && users == old(users)
      ensures (forall i :: 0 <= i < |old(users)| ==> !StrnEq(name, old(users)[i].name, MAX_V3_USER_NAME_LENGTH)) ==>
                && (txnStarted && Committed(commit) ==> r == CmdSuccess && users == old(users) + [NewV3User(name, sec)])
                && (!(txnStarted && Committed(commit)) ==> r == CmdOvsdbFailure && users == old(users))
    {
      var us := users;
      var i := 0;
      while i < |us|
        modifies {}
        invariant 0 <= i <= |us|
        invariant forall k :: 0 <= k < i ==> !StrnEq(name, us[k].name, MAX_V3_USER_NAME_LENGTH)
      {
        if StrnEq(name, us[i].name, MAX_V3_USER_NAME_LENGTH) {
          return CmdSuccess;
        }
        i := i + 1;
      }
      if !txnStarted || !Committed(commit) {
        return CmdOvsdbFailure;
      }
      users := users + [NewV3User(name, sec)];
      assert UserNamesDistinct(users) by {
        forall a, b | 0 <= a < |users| && 0 <= b < |users| && a != b
          ensures !StrnEq(users[a].name, users[b].name, MAX_V3_USER_NAME_LENGTH)
        {
          if a == |us| {
            assert !StrnEq(name, us[b].name, MAX_V3_USER_NAME_LENGTH);
          } else if b == |us| {
            assert !StrnEq(name, us[a].name, MAX_V3_USER_NAME_LENGTH);
          }
        }
      }
      r := CmdSuccess;
    }

    /** `unconfigure_snmpv3_user`: refused (CMD_SUCCESS, no change) while
        any trap row's community names the user; otherwise every matching
        user is deleted, an unknown user still committing. */
    method RemoveUser(name: string, txnStarted: bool, commit: TxnStatus) returns (r: CmdResult)
      requires Valid()
      modifies this
      ensures Valid()
      ensures traps == old(traps) && communities == old(communities) && otherConfig == old(otherConfig)
      ensures trapCount == old(trapCount)
      ensures (exists i :: 0 <= i < |traps| && StrnEq(name, traps[i].community, MAX_V3_USER_NAME_LENGTH)) ==>
                r == CmdSuccess && users == old(users)
      ensures (forall i :: 0 <= i < |traps| ==> !StrnEq(name, traps[i].community, MAX_V3_USER_NAME_LENGTH)) ==>
                && (txnStarted && Committed(commit) ==> r == CmdSuccess && users == Filter(old(users), UserKept(name)))
                && (!(txnStarted && Committed(commit)) ==> r == CmdOvsdbFailure && users == old(users))
    {
      var ts := traps;
      var i := 0;
      while i < |ts|
        modifies {}
        invariant 0 <= i <= |ts|
        invariant forall k :: 0 <= k < i ==> !StrnEq(name, ts[k].community, MAX_V3_USER_NAME_LENGTH)
      {
        if StrnEq(name, ts[i].community, MAX_V3_USER_NAME_LENGTH) {
          return CmdSuccess;
        }
        i := i + 1;
      }
      if !txnStarted {
        return CmdOvsdbFailure;
      }
      var us := users;
      var kept: seq<V3User> := [];
      var j := 0;
      while j < |us|
        modifies {}
        invariant 0 <= j <= |us|
        invariant kept == Filter(us[..j], UserKept(name))
      {
        FilterStep(us, j, UserKept(name));
        if !StrnEq(name, us[j].name, MAX_V3_USER_NAME_LENGTH) {
          kept := kept + [us[j]];
        }
        j := j + 1;
      }
      assert us[..j] == us;
      if !Committed(commit) {
        return CmdOvsdbFailure;
      }
      FilterKeepsNamesDistinct(us, UserKept(name));
      users := kept;
      r := CmdSuccess;
    }

    /** The `other_config` commands (`configure_snmp_agent_port`,
        `configure_system_contact`, `configure_system_location` and their
        `no` forms): `value` None removes the key. */
    method SetOtherConfig(key: string, value: Option<string>, txnStarted: bool, commit: TxnStatus)
      returns (r: CmdResult)
      modifies this
      ensures traps == old(traps) && communities == old(communities) && users == old(users)
      ensures trapCount == old(trapCount)
      ensures r == CmdSuccess <==> txnStarted && Committed(commit)
      ensures r == CmdSuccess && value.Some? ==> otherConfig == old(otherConfig)[key := value.value]
      ensures r == CmdSuccess && value.None? ==> otherConfig == old(otherConfig) - {key}
      ensures r != CmdSuccess ==> otherConfig == old(otherConfig)
    {
      if !txnStarted || !Committed(commit) {
        return CmdOvsdbFailure;
      }
      if value.Some? {
        otherConfig := otherConfig[key := value.value];
      } else {
        otherConfig := otherConfig - {key};
      }
      r := CmdSuccess;
    }

    /** `configure_snmp_system_description` and its `no` forms: unsetting
        writes the switch version back rather than removing the key. */
    method SetSystemDescription(desc: Option<string>, txnStarted: bool, commit: TxnStatus)
      returns (r: CmdResult)
      modifies this
      ensures traps == old(traps) && communities == old(communities) && users == old(users)
      ensures trapCount == old(trapCount)
      ensures r == CmdSuccess <==> txnStarted && Committed(commit)
      ensures r == CmdSuccess ==>
                otherConfig == old(otherConfig)[SYS_DESCRIPTION_KEY := if desc.Some? then desc.value else switchVersion]
      ensures r != CmdSuccess ==> otherConfig == old(otherConfig)
    {
      if !txnStarted || !Committed(commit) {
        return CmdOvsdbFailure;
      }
      otherConfig := otherConfig[SYS_DESCRIPTION_KEY := if desc.Some? then desc.value else switchVersion];
      r := CmdSuccess;
    }
  }
}
