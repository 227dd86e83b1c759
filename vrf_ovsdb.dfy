/** The VRF manager's database reconciliation: a cache of known VRFs keyed
    by the UUID string of their database row (`all_vrfs`), kept in step with
    the VRF table on every change of the database sequence number, with a
    routing-table id reserved for each cached VRF. Namespace creation and
    deletion, the zebra launch and the moving of interfaces are operating
    system work and appear only as their effect on the cache and on the ids. */
module VrfOvsdb {
  import opened Common
  import VrfTableId

  const DEFAULT_VRF_NAME: string := "vrf_default"

  /** One row of the database's VRF table, as this daemon reads it. */
  datatype VrfRow = VrfRow(uuid: string, name: string, ports: seq<string>, tableId: Option<int>)

  /** What the database change tracking reports about the VRF table since
      the last sequence number the daemon processed. */
  datatype TableChanges = TableChanges(inserted: bool, deleted: bool, modified: bool, portsModified: bool)

  /** A cached VRF (`struct vrf_info`): its name, its port names in the
      order of the row, and its table id. */
  datatype VrfInfo = VrfInfo(name: string, ports: seq<string>, vrfId: nat)

  /** A row whose table id, if it has one, has a slot in the allocator. */
  predicate IdUsable(row: VrfRow)
  {
    row.tableId.None? || VrfTableId.InTable(row.tableId.value)
  }

  /** The `(uint32_t)` cast of a row's 64-bit table id into `vrf_id`. */
  function CachedId(v: int): (r: nat)
    ensures r < 0x1_0000_0000
    ensures 0 <= v < 0x1_0000_0000 ==> r == v
  {
    v % 0x1_0000_0000
  }

  predicate HasUuid(rows: seq<VrfRow>, u: string)
  {
    exists i :: 0 <= i < |rows| && rows[i].uuid == u
  }

  /** The ports of the last row of `rows` carrying UUID u, if any. */
  function LastPorts(rows: seq<VrfRow>, u: string): (r: Option<seq<string>>)
    ensures r.None? <==> !HasUuid(rows, u)
  {
    if rows == [] then None
    else if rows[|rows| - 1].uuid == u then Some(rows[|rows| - 1].ports)
    else
      var r := LastPorts(rows[..|rows| - 1], u);
      assert HasUuid(rows, u) <==> HasUuid(rows[..|rows| - 1], u) by {
        if HasUuid(rows, u) {
          var i :| 0 <= i < |rows| && rows[i].uuid == u;
          assert rows[..|rows| - 1][i].uuid == u;
        }
      }
      r
  }
  /** A cached VRF after the port pass: the ports of its last row, if any. */
  function WithPorts(info: VrfInfo, p: Option<seq<string>>): (r: VrfInfo)
    ensures r.name == info.name && r.vrfId == info.vrfId
    ensures r.ports == (if p.Some? then p.value else info.ports)
  {
    match p
    case None => info
    case Some(ports) => info.(ports := ports)
  }

  /** `cur` is `orig` with the port lists of `rows` applied. */
  ghost predicate PortsApplied(cur: map<string, VrfInfo>, orig: map<string, VrfInfo>, rows: seq<VrfRow>)
  {
    cur.Keys == orig.Keys && forall u :: u in cur ==> cur[u] == WithPorts(orig[u], LastPorts(rows, u))
  }

  lemma {:induction false} PortsAppliedStep(cur: map<string, VrfInfo>, orig: map<string, VrfInfo>,
                                            rows: seq<VrfRow>, i: nat)
    requires i < |rows| && PortsApplied(cur, orig, rows[..i])
    ensures var u := rows[i].uuid;
            PortsApplied(if u in cur then cur[u := cur[u].(ports := rows[i].ports)] else cur, orig, rows[..i + 1])
  {
    assert rows[..i + 1][..i] == rows[..i];
  }

  predicate AllTaken(flags: seq<bool>)
  {
    forall i :: VrfTableId.MIN_VRF_ID <= i <= VrfTableId.MAX_VRF_ID && i < |flags| ==> !flags[i]
  }

  /** No table id taken in `a` is free in `b`. */
  ghost predicate StaysTaken(a: seq<bool>, b: seq<bool>)
  {
    |a| == |b| && forall i :: 0 <= i < |a| && !a[i] ==> !b[i]
  }

  /** VRF `info` cached for row `row`: it copies the row, holds the row's
      table id as cast, holds an id taken in `free` when the row's id has a
      slot, and otherwise goes with a stray write. */
  ghost predicate CachedFor(info: VrfInfo, row: VrfRow, free: seq<bool>, stray: bool)
  {
    && info.name == row.name && info.ports == row.ports
    && (row.tableId.Some? ==> info.vrfId == CachedId(row.tableId.value))
    && (IdUsable(row) ==> info.vrfId <= VrfTableId.MAX_VRF_ID && info.vrfId < |free| && !free[info.vrfId])
    && (!IdUsable(row) ==> stray)
  }

  /** Every VRF cached in `cur` but not in `before` is cached for its
      database row. */
  ghost predicate AddedFrom(cur: map<string, VrfInfo>, before: map<string, VrfInfo>,
                            idl: map<string, VrfRow>, free: seq<bool>, stray: bool)
  {
    forall u :: u in cur && u !in before ==> u in idl && CachedFor(cur[u], idl[u], free, stray)
  }

  lemma AddedKeep(cur: map<string, VrfInfo>, before: map<string, VrfInfo>,
                  idl: map<string, VrfRow>, free: seq<bool>, free2: seq<bool>, stray: bool, stray2: bool)
    requires AddedFrom(cur, before, idl, free, stray) && StaysTaken(free, free2) && (stray ==> stray2)
    ensures AddedFrom(cur, before, idl, free2, stray2)
  {
  }

  lemma AddedInsert(cur: map<string, VrfInfo>, before: map<string, VrfInfo>,
                    idl: map<string, VrfRow>, free: seq<bool>, stray: bool, u: string, info: VrfInfo)
    requires AddedFrom(cur, before, idl, free, stray) && u !in before
    requires u in idl && CachedFor(info, idl[u], free, stray)
    ensures AddedFrom(cur[u := info], before, idl, free, stray)
  {
  }

  lemma StaysTakenTrans(a: seq<bool>, b: seq<bool>, c: seq<bool>)
    requires StaysTaken(a, b) && StaysTaken(b, c)
    ensures StaysTaken(a, c)
  {
  }

  lemma StaysAllTaken(a: seq<bool>, b: seq<bool>)
    requires AllTaken(a) && StaysTaken(a, b)
    ensures AllTaken(b)
  {
  }

  lemma ClearStaysTaken(a: seq<bool>, id: nat)
    requires id < |a|
    ensures StaysTaken(a, a[id := false])
  {
  }

  /** Some VRF was newly cached and its namespace create reported
      success: the default VRF, or a zebra launch that succeeded. */
  ghost predicate Launched(before: map<string, VrfInfo>, after: map<string, VrfInfo>, zebraOk: string -> bool)
  {
    exists u :: u in after && u !in before && (after[u].name == DEFAULT_VRF_NAME || zebraOk(u))
  }

  /** Some cached VRF was deleted. */
  ghost predicate Dropped(before: map<string, VrfInfo>, after: map<string, VrfInfo>)
  {
    exists u :: u in before && u !in after
  }

  /** What the insert pass keeps, as UUIDs are treated: the cache only
      grows, by UUIDs treated and cached for their rows; a treated UUID
      left out means no id was left; flags once taken stay taken; a stray
      write happens only for an id without a slot; and the commit flag is
      raised exactly when some new entry launched. */
  ghost predicate InsertInv(idl: map<string, VrfRow>, zebraOk: string -> bool, done: set<string>,
                            vrfs0: map<string, VrfInfo>, free0: seq<bool>, stray0: bool, commit0: bool,
                            vrfs: map<string, VrfInfo>, free: seq<bool>, stray: bool, commit: bool)
  {
    && done <= idl.Keys
    && (forall u :: u in vrfs0 ==> u in vrfs && vrfs[u] == vrfs0[u])
    && (forall u :: u in vrfs && u !in vrfs0 ==> u in done)
    && AddedFrom(vrfs, vrfs0, idl, free, stray)
    && (stray0 ==> stray)
    && ((forall u :: u in idl ==> IdUsable(idl[u])) ==> stray == stray0)
    && (forall u :: u in done && u !in vrfs ==> idl[u].tableId.None? && AllTaken(free))
    && StaysTaken(free0, free)
    && commit == (commit0 || Launched(vrfs0, vrfs, zebraOk))
  }

  /** One more insert keeps or extends Launched by the UUID just treated. */
  lemma LaunchedStep(before: map<string, VrfInfo>, mid: map<string, VrfInfo>, after: map<string, VrfInfo>,
                     zebraOk: string -> bool, u: string)
    requires forall v :: v in mid ==> v in after && after[v] == mid[v]
    requires after.Keys <= mid.Keys + {u} && u !in mid && u !in before
    ensures Launched(before, after, zebraOk) <==>
              Launched(before, mid, zebraOk) || (u in after && (after[u].name == DEFAULT_VRF_NAME || zebraOk(u)))
  {
    if Launched(before, after, zebraOk) {
      var v :| v in after && v !in before && (after[v].name == DEFAULT_VRF_NAME || zebraOk(v));
      if v != u {
        assert v in mid;
      }
    }
    if Launched(before, mid, zebraOk) {
      var v :| v in mid && v !in before && (mid[v].name == DEFAULT_VRF_NAME || zebraOk(v));
      assert v in after;
    }
  }

  /** One more delete keeps or extends Dropped by the UUID just treated. */
  lemma DroppedStep(before: map<string, VrfInfo>, mid: map<string, VrfInfo>, after: map<string, VrfInfo>, u: string)
    requires mid.Keys <= before.Keys && (after == mid || after == mid - {u}) && u in mid
    ensures Dropped(before, after) <==> Dropped(before, mid) || after == mid - {u}
  {
    if after == mid - {u} {
      assert u in before && u !in after;
    }
  }

  /** The row UUIDs with, for each, the first row carrying it: the
      `sh_idl_vrfs` scratch map filled with `shash_add_once`. */
  method CollectIdlVrfs(rows: seq<VrfRow>) returns (m: map<string, VrfRow>)
    ensures forall u :: u in m <==> HasUuid(rows, u)
    ensures forall u :: u in m ==> exists i :: 0 <= i < |rows| && rows[i] == m[u] && rows[i].uuid == u
                                     && forall j :: 0 <= j < i ==> rows[j].uuid != u
  {
    m := map[];
    var i := 0;
    while i < |rows|
      invariant 0 <= i <= |rows|
      invariant forall u :: u in m <==> HasUuid(rows[..i], u)
      invariant forall u :: u in m ==> exists k :: 0 <= k < i && rows[k] == m[u] && rows[k].uuid == u
                                         && forall j :: 0 <= j < k ==> rows[j].uuid != u
    {
      var r := rows[i];
      if r.uuid !in m {
        m := m[r.uuid := r];
      }
      assert rows[..i + 1][i] == r;
      forall u
        ensures u in m <==> HasUuid(rows[..i + 1], u)
      {
        if HasUuid(rows[..i + 1], u) && u != r.uuid {
          var k :| 0 <= k < i + 1 && rows[..i + 1][k].uuid == u;
          assert rows[..i][k].uuid == u;
        }
        if u in m && u != r.uuid {
          var k :| 0 <= k < i && rows[..i][k].uuid == u;
          assert rows[..i + 1][k].uuid == u;
        }
      }
      i := i + 1;
    }
    assert rows[..i] == rows;
  }

  /** The daemon's state: `all_vrfs`, `idl_seqno`, `system_configured`,
      `commit_txn`, and the table-id allocator. */
  class Manager {
    var allVrfs: map<string, VrfInfo>
    var idlSeqno: nat
    var systemConfigured: bool
    var commitTxn: bool
    const allocator: VrfTableId.Allocator

    ghost predicate Valid()
      reads this, allocator
    {
      allocator.Valid()
    }

    /** `vrfmgrd_ovsdb_init`: the sequence number read at connection time
        and a freshly initialised allocator, with an empty cache. */
    constructor (seqno: nat)
      ensures Valid() && fresh(allocator) && fresh(allocator.free)
      ensures allVrfs == map[] && idlSeqno == seqno && !systemConfigured && !commitTxn
      ensures allocator.free[..] == VrfTableId.InitialFlags() && !allocator.strayWrite
    {
      allVrfs := map[];
      idlSeqno := seqno;
      systemConfigured := false;
      commitTxn := false;
      allocator := new VrfTableId.Allocator();
    }

    /** `vrfmgrd_system_is_configured`: latches true the first time the
        System row exists with cur_cfg > 0. */
    method SystemIsConfigured(curCfg: Option<int>) returns (configured: bool)
      modifies this`systemConfigured
      ensures configured == (old(systemConfigured) || (curCfg.Some? && curCfg.value > 0))
      ensures systemConfigured == configured
    {
      if systemConfigured {
        return true;
      }
      if curCfg.Some? && curCfg.value > 0 {
        systemConfigured := true;
        return true;
      }
      return false;
    }

    /** `reconfigure_ports`: the cached port list of VRF u is rebuilt, one
        name at a time, from the row's ports. */
    method ReconfigurePorts(u: string, row: VrfRow)
      requires u in allVrfs
      modifies this`allVrfs
      ensures allVrfs == old(allVrfs)[u := old(allVrfs)[u].(ports := row.ports)]
    {
      var ports: seq<string> := [];
      var i := 0;
      while i < |row.ports|
        invariant 0 <= i <= |row.ports|
        invariant ports == row.ports[..i]
      {
        ports := ports + [row.ports[i]];
        i := i + 1;
      }
      assert ports == row.ports;
      allVrfs := allVrfs[u := allVrfs[u].(ports := ports)];
    }

    /** The cache and table-id part of `vrf_create_namespace`: a row that
        already has a table id (a daemon restart) reserves it with
        `set_vrf_id`, unchecked, and caches it cast to 32 bits; otherwise an
        id is allocated, and if none is left nothing is cached and -1 is
        returned. The entry is cached before zebra is launched, so a failed
        launch (`zebraOk` false, never for the default VRF) returns -1 with
        the entry cached. */
    method CreateVrf(row: VrfRow, zebraOk: bool) returns (rc: int)
      requires Valid() && row.uuid !in allVrfs
      modifies this`allVrfs, allocator, allocator.free
      ensures Valid()
      ensures rc == 0 || rc == -1
      ensures row.uuid !in allVrfs ==>
                rc == -1 && row.tableId.None? && AllTaken(allocator.free[..])
                && allVrfs == old(allVrfs) && allocator.free[..] == old(allocator.free[..])
                && allocator.strayWrite == old(allocator.strayWrite)
      ensures row.uuid in allVrfs ==>
                var id := allVrfs[row.uuid].vrfId;
                && allVrfs == old(allVrfs)[row.uuid := VrfInfo(row.name, row.ports, id)]
                && (row.tableId.Some? ==> id == CachedId(row.tableId.value))
                && (IdUsable(row) ==>
                      id <= VrfTableId.MAX_VRF_ID && allocator.free[..] == old(allocator.free[..])[id := false]
                      && allocator.strayWrite == old(allocator.strayWrite))
                && (!IdUsable(row) ==> allocator.free[..] == old(allocator.free[..]) && allocator.strayWrite)
                && (row.tableId.None? ==> old(allocator.free[id]) && VrfTableId.MIN_VRF_ID <= id)
                && rc == (if row.name == DEFAULT_VRF_NAME || zebraOk then 0 else -1)
    {
      var id: nat;
      if row.tableId.Some? {
        allocator.SetVrfId(row.tableId.value);
        id := CachedId(row.tableId.value);
      } else {
        var got := allocator.AllocateFirstVrfId();
        if got < 0 {
          VrfTableId.NextAvailableSpec(old(allocator.free[..]), old(allocator.cursor));
          return -1;
        }
        id := got;
      }
      allVrfs := allVrfs[row.uuid := VrfInfo(row.name, [], id)];
      ReconfigurePorts(row.uuid, row);
      if row.name == DEFAULT_VRF_NAME {
        return 0;
      }
      rc := if zebraOk then 0 else -1;
    }

    /** The cache part of `vrf_delete_namespace`: the VRF's table id is
        freed and its entry dropped; if the id cannot be freed (out of
        range or already free) -1 is returned and the entry stays. */
    method DeleteVrf(u: string) returns (rc: int)
      requires Valid() && u in allVrfs
      modifies this`allVrfs, allocator.free
      ensures Valid()
      ensures var id := old(allVrfs)[u].vrfId;
              var ok := id <= VrfTableId.MAX_VRF_ID && !old(allocator.free[id]);
              && rc == (if ok then 0 else -1)
              && allVrfs == (if ok then old(allVrfs) - {u} else old(allVrfs))
              && allocator.free[..] == (if ok then old(allocator.free[..])[id := true] else old(allocator.free[..]))
    {
      var ok := allocator.FreeVrfAllocatedId(allVrfs[u].vrfId);
      if !ok {
        return -1;
      }
      allVrfs := allVrfs - {u};
      return 0;
    }

    /** The insert pass of `vrfmgrd_reconfigure`: every database VRF whose
        UUID is not cached gets cached, except when a table id was needed
        and none was left. `zebraOk` stands for the success of each zebra
        launch. */
    method InsertPass(idl: map<string, VrfRow>, zebraOk: string -> bool)
      requires Valid()
      requires forall u :: u in idl ==> idl[u].uuid == u
      modifies this`allVrfs, this`commitTxn, allocator, allocator.free
      ensures Valid()
      ensures forall u :: u in old(allVrfs) ==> u in allVrfs && allVrfs[u] == old(allVrfs)[u]
      ensures forall u :: u in allVrfs && u !in old(allVrfs) ==>
                u in idl && CachedFor(allVrfs[u], idl[u], allocator.free[..], allocator.strayWrite)
      ensures forall u :: u in idl && u !in allVrfs ==>
                idl[u].tableId.None? && AllTaken(allocator.free[..])
      ensures forall i :: 0 <= i < allocator.free.Length && !old(allocator.free[i]) ==> !allocator.free[i]
      ensures old(allocator.strayWrite) ==> allocator.strayWrite
      ensures (forall u :: u in idl ==> IdUsable(idl[u])) ==> allocator.strayWrite == old(allocator.strayWrite)
      ensures commitTxn == (old(commitTxn) || Launched(old(allVrfs), allVrfs, zebraOk))
    {
      var todo := idl.Keys;
      ghost var done: set<string> := {};
      ghost var vrfs0, free0, stray0, commit0 := allVrfs, allocator.free[..], allocator.strayWrite, commitTxn;
      while todo != {}
        invariant Valid()
        invariant todo + done == idl.Keys && todo !! done
        invariant InsertInv(idl, zebraOk, done, vrfs0, free0, stray0, commit0,
                            allVrfs, allocator.free[..], allocator.strayWrite, commitTxn)
        decreases todo
      {
        var u :| u in todo;
        todo := todo - {u};
        InsertStep(u, idl, zebraOk, done, vrfs0, free0, stray0, commit0);
        done := done + {u};
      }
    }

    /** One pass of the insert loop: the UUID `u` is created when it is
        not cached, and the commit flag is raised when `vrf_create`
        returns anything but -1. */
    method InsertStep(u: string, idl: map<string, VrfRow>, zebraOk: string -> bool, ghost done: set<string>,
                      ghost vrfs0: map<string, VrfInfo>, ghost free0: seq<bool>, ghost stray0: bool, ghost commit0: bool)
      requires Valid()
      requires forall v :: v in idl ==> idl[v].uuid == v
      requires u in idl && u !in done
      requires InsertInv(idl, zebraOk, done, vrfs0, free0, stray0, commit0,
                         allVrfs, allocator.free[..], allocator.strayWrite, commitTxn)
      modifies this`allVrfs, this`commitTxn, allocator, allocator.free
      ensures Valid()
      ensures InsertInv(idl, zebraOk, done + {u}, vrfs0, free0, stray0, commit0,
                        allVrfs, allocator.free[..], allocator.strayWrite, commitTxn)
    {
      if u !in allVrfs {
        ghost var freeMid := allocator.free[..];
        ghost var mid := allVrfs;
        var rc := InsertOne(idl[u], zebraOk(u), idl, vrfs0);
        LaunchedStep(vrfs0, mid, allVrfs, zebraOk, u);
        StaysTakenTrans(free0, freeMid, allocator.free[..]);
        if AllTaken(freeMid) {
          StaysAllTaken(freeMid, allocator.free[..]);
        }
        if rc != -1 {
          commitTxn := true;
        }
      }
    }

    /** One row of the insert pass: `vrf_create` for a UUID not yet cached. */
    method InsertOne(row: VrfRow, zebraOk: bool, ghost idl: map<string, VrfRow>,
                     ghost orig: map<string, VrfInfo>) returns (rc: int)
      requires Valid() && row.uuid !in allVrfs && row.uuid !in orig
      requires row.uuid in idl && idl[row.uuid] == row
      requires AddedFrom(allVrfs, orig, idl, allocator.free[..], allocator.strayWrite)
      modifies this`allVrfs, allocator, allocator.free
      ensures Valid()
      ensures rc == 0 || rc == -1
      ensures forall v :: v in old(allVrfs) ==> v in allVrfs && allVrfs[v] == old(allVrfs)[v]
      ensures allVrfs.Keys <= old(allVrfs).Keys + {row.uuid}
      ensures AddedFrom(allVrfs, orig, idl, allocator.free[..], allocator.strayWrite)
      ensures row.uuid !in allVrfs ==> row.tableId.None? && AllTaken(allocator.free[..])
      ensures StaysTaken(old(allocator.free[..]), allocator.free[..])
      ensures old(allocator.strayWrite) ==> allocator.strayWrite
      ensures IdUsable(row) ==> allocator.strayWrite == old(allocator.strayWrite)
      ensures rc == 0 <==> row.uuid in allVrfs && (allVrfs[row.uuid].name == DEFAULT_VRF_NAME || zebraOk)
    {
      ghost var vrfs0, free0, stray0 := allVrfs, allocator.free[..], allocator.strayWrite;
      rc := CreateVrf(row, zebraOk);
      if row.uuid in allVrfs {
        if IdUsable(row) {
          ClearStaysTaken(free0, allVrfs[row.uuid].vrfId);
        }
        AddedKeep(vrfs0, orig, idl, free0, allocator.free[..], stray0, allocator.strayWrite);
        AddedInsert(vrfs0, orig, idl, allocator.free[..], allocator.strayWrite, row.uuid, allVrfs[row.uuid]);
      }
    }

    /** The delete pass of `vrfmgrd_reconfigure`: every cached VRF whose
        UUID is gone from the database is removed and its table id freed;
        one whose id cannot be freed stays cached. */
    method DeletePass(idl: map<string, VrfRow>)
      requires Valid()
      modifies this`allVrfs, this`commitTxn, allocator.free
      ensures Valid()
      ensures allVrfs.Keys <= old(allVrfs.Keys)
      ensures forall u :: u in allVrfs ==> allVrfs[u] == old(allVrfs)[u]
      ensures forall u :: u in old(allVrfs) && u in idl ==> u in allVrfs
      ensures forall u :: u in old(allVrfs) && u !in allVrfs ==>
                old(allVrfs)[u].vrfId <= VrfTableId.MAX_VRF_ID && allocator.free[old(allVrfs)[u].vrfId]
      ensures forall u :: u in allVrfs && u !in idl ==>
                allVrfs[u].vrfId > VrfTableId.MAX_VRF_ID || allocator.free[allVrfs[u].vrfId]
      ensures commitTxn == (old(commitTxn) || Dropped(old(allVrfs), allVrfs))
    {
      var todo := allVrfs.Keys;
      ghost var done: set<string> := {};
      while todo != {}
        invariant Valid()
        invariant todo + done == old(allVrfs.Keys) && todo !! done
        invariant allVrfs.Keys <= old(allVrfs.Keys) && todo <= allVrfs.Keys
        invariant forall u :: u in allVrfs ==> allVrfs[u] == old(allVrfs)[u]
        invariant forall u :: u in old(allVrfs) && u in idl ==> u in allVrfs
        invariant forall u :: u in old(allVrfs) && u !in allVrfs ==>
                    old(allVrfs)[u].vrfId <= VrfTableId.MAX_VRF_ID && allocator.free[old(allVrfs)[u].vrfId]
        invariant forall u :: u in done && u in allVrfs && u !in idl ==>
                    allVrfs[u].vrfId > VrfTableId.MAX_VRF_ID || allocator.free[allVrfs[u].vrfId]
        invariant commitTxn == (old(commitTxn) || Dropped(old(allVrfs), allVrfs))
        decreases todo
      {
        var u :| u in todo;
        todo := todo - {u};
        done := done + {u};
        if u !in idl {
          ghost var mid := allVrfs;
          var rc := DeleteVrf(u);
          DroppedStep(old(allVrfs), mid, allVrfs, u);
          if rc != -1 {
            commitTxn := true;
          }
        }
      }
    }

    /** The port pass of `vrfmgrd_reconfigure`: each cached VRF takes the
        port list of its database row. */
    method PortsPass(rows: seq<VrfRow>)
      modifies this`allVrfs
      ensures allVrfs.Keys == old(allVrfs.Keys)
      ensures forall u :: u in allVrfs ==> allVrfs[u] == WithPorts(old(allVrfs)[u], LastPorts(rows, u))
    {
      var i := 0;
      while i < |rows|
        invariant 0 <= i <= |rows|
        invariant PortsApplied(allVrfs, old(allVrfs), rows[..i])
      {
        PortsAppliedStep(allVrfs, old(allVrfs), rows, i);
        if rows[i].uuid in allVrfs {
          ReconfigurePorts(rows[i].uuid, rows[i]);
        }
        i := i + 1;
      }
      assert rows[..i] == rows;
    }

    /** `vrfmgrd_reconfigure`. Nothing happens when the sequence number is
        unchanged, nor (and then the sequence number is not stored) when
        the VRF table saw no change. Inserted rows shadow deleted ones: a
        pass with both runs only the insert pass. */
    method Reconfigure(newSeqno: nat, changes: TableChanges, rows: seq<VrfRow>,
                       zebraOk: string -> bool)
      requires Valid()
      modifies this`allVrfs, this`commitTxn, this`idlSeqno, allocator, allocator.free
      ensures Valid()
      ensures (forall i :: 0 <= i < |rows| ==> IdUsable(rows[i])) ==>
                allocator.strayWrite == old(allocator.strayWrite)
      ensures newSeqno == old(idlSeqno) || !(changes.inserted || changes.deleted || changes.modified) ==>
                allVrfs == old(allVrfs) && idlSeqno == old(idlSeqno)
      ensures newSeqno != old(idlSeqno) && (changes.inserted || changes.deleted || changes.modified) ==>
                idlSeqno == newSeqno
      ensures newSeqno != old(idlSeqno) && changes.inserted ==>
                (forall u :: u in old(allVrfs) ==> u in allVrfs && allVrfs[u] == old(allVrfs)[u])
                && (forall u :: HasUuid(rows, u) && u !in allVrfs ==> AllTaken(allocator.free[..]))
                && (forall u :: u in allVrfs ==> u in old(allVrfs) || HasUuid(rows, u))
      ensures newSeqno != old(idlSeqno) && !changes.inserted && changes.deleted ==>
                allVrfs.Keys <= old(allVrfs.Keys)
                && (forall u :: u in old(allVrfs) && HasUuid(rows, u) ==> u in allVrfs)
                && (forall u :: u in old(allVrfs) && u !in allVrfs ==>
                      old(allVrfs)[u].vrfId <= VrfTableId.MAX_VRF_ID && allocator.free[old(allVrfs)[u].vrfId])
      ensures newSeqno != old(idlSeqno) && !changes.inserted && !changes.deleted && changes.modified ==>
                allVrfs.Keys == old(allVrfs.Keys)
                && (changes.portsModified ==> forall u :: u in allVrfs ==>
                      allVrfs[u] == WithPorts(old(allVrfs)[u], LastPorts(rows, u)))
                && (!changes.portsModified ==> allVrfs == old(allVrfs))
      // The transaction flag is raised exactly by a namespace create or
      // delete that reported success.
      ensures newSeqno == old(idlSeqno) || !(changes.inserted || changes.deleted) ==> commitTxn == old(commitTxn)
      ensures newSeqno != old(idlSeqno) && changes.inserted ==>
                commitTxn == (old(commitTxn) || Launched(old(allVrfs), allVrfs, zebraOk))
      ensures newSeqno != old(idlSeqno) && !changes.inserted && changes.deleted ==>
                commitTxn == (old(commitTxn) || Dropped(old(allVrfs), allVrfs))
    {
      if newSeqno == idlSeqno {
        return;
      }
      if !changes.modified && !changes.deleted && !changes.inserted {
        return;
      }
      var idl: map<string, VrfRow> := map[];
      if changes.deleted || changes.inserted {
        idl := CollectIdlVrfs(rows);
        forall u | u in idl
          ensures idl[u].uuid == u
          ensures (forall i :: 0 <= i < |rows| ==> IdUsable(rows[i])) ==> IdUsable(idl[u])
        {
          var i :| 0 <= i < |rows| && rows[i] == idl[u] && rows[i].uuid == u;
        }
      }
      if changes.inserted {
        InsertPass(idl, zebraOk);
      } else if changes.deleted {
        DeletePass(idl);
      } else if changes.modified {
        if changes.portsModified {
          PortsPass(rows);
        }
      }
      idlSeqno := newSeqno;
    }

    /** `vrfmgrd_run`: without the database lock, or before the system is
        configured, nothing happens; otherwise the transaction flag is
        cleared and the cache reconciled. Returns whether the transaction
        is committed. */
    method Run(hasLock: bool, curCfg: Option<int>, newSeqno: nat, changes: TableChanges,
               rows: seq<VrfRow>, zebraOk: string -> bool) returns (committed: bool)
      requires Valid()
      modifies this, allocator, allocator.free
      ensures Valid()
      ensures (forall i :: 0 <= i < |rows| ==> IdUsable(rows[i])) ==>
                allocator.strayWrite == old(allocator.strayWrite)
      ensures !hasLock ==> allVrfs == old(allVrfs) && !committed
      ensures hasLock ==> systemConfigured == (old(systemConfigured) || (curCfg.Some? && curCfg.value > 0))
      ensures !systemConfigured ==> allVrfs == old(allVrfs) && !committed
      ensures committed ==> commitTxn
      ensures hasLock && systemConfigured ==>
                (committed <==>
                   newSeqno != old(idlSeqno)
                   && ((changes.inserted && Launched(old(allVrfs), allVrfs, zebraOk))
                       || (!changes.inserted && changes.deleted && Dropped(old(allVrfs), allVrfs))))
    {
      if !hasLock {
        return false;
      }
      var configured := SystemIsConfigured(curCfg);
      if !configured {
        return false;
      }
      commitTxn := false;
      Reconfigure(newSeqno, changes, rows, zebraOk);
      committed := commitTxn;
    }
  }
}
