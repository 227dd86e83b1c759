/** The VRF manager's routing-table-id allocator: a fixed table of
    free/taken flags indexed by id, 0..MAX_VRF_ID, and a round-robin cursor
    (`used_vrf_id_num`) holding the id handed out last. */
module VrfTableId {

  const MAX_VRF_ID: nat := 1023
  const DEFAULT_VRF_ID: nat := 0
  const MIN_VRF_ID: nat := 1

  /** An id `free_vrf_id[]` has a slot for. */
  predicate InTable(id: int)
  {
    0 <= id <= MAX_VRF_ID
  }

  /** Least index i in [lo, hi) whose flag is set, or -1 if there is none. */
  function FirstFree(flags: seq<bool>, lo: nat, hi: nat): (r: int)
    requires hi <= |flags|
    ensures r == -1 <==> forall i :: lo <= i < hi ==> !flags[i]
    ensures r != -1 ==> lo <= r < hi && flags[r] && forall i :: lo <= i < r ==> !flags[i]
    decreases hi - lo
  {
    if lo >= hi then -1
    else if flags[lo] then lo
    else FirstFree(flags, lo + 1, hi)
  }

  /** The flag table right after initialisation: the default id is taken,
      every other id is free. */
  function InitialFlags(): (flags: seq<bool>)
    ensures |flags| == MAX_VRF_ID + 1
    ensures !flags[DEFAULT_VRF_ID]
    ensures forall i :: MIN_VRF_ID <= i <= MAX_VRF_ID ==> flags[i]
  {
    seq(MAX_VRF_ID + 1, i => i != DEFAULT_VRF_ID)
  }

  predicate WellFormed(flags: seq<bool>, cursor: nat)
  {
    |flags| == MAX_VRF_ID + 1 && MIN_VRF_ID <= cursor <= MAX_VRF_ID
  }

  /** The id the allocator hands out next: the first free id from the
      cursor up to MAX_VRF_ID, otherwise the first free id from MIN_VRF_ID
      up to the cursor - 1, otherwise -1. */
  function NextAvailable(flags: seq<bool>, cursor: nat): int
    requires WellFormed(flags, cursor)
  {
    var above := FirstFree(flags, cursor, MAX_VRF_ID + 1);
    if above != -1 then above else FirstFree(flags, MIN_VRF_ID, cursor)
  }

  /** The allocator fails exactly when no id in [MIN_VRF_ID, MAX_VRF_ID] is
      free; otherwise it returns a free id of that range. */
  lemma NextAvailableSpec(flags: seq<bool>, cursor: nat)
    requires WellFormed(flags, cursor)
    ensures var r := NextAvailable(flags, cursor);
      (r == -1 <==> forall i :: MIN_VRF_ID <= i <= MAX_VRF_ID ==> !flags[i]) &&
      (r != -1 ==> MIN_VRF_ID <= r <= MAX_VRF_ID && flags[r])
  {
    var r := NextAvailable(flags, cursor);
    if r == -1 {
      forall i | MIN_VRF_ID <= i <= MAX_VRF_ID
        ensures !flags[i]
      {
        if i >= cursor {
          assert FirstFree(flags, cursor, MAX_VRF_ID + 1) == -1;
        } else {
          assert FirstFree(flags, MIN_VRF_ID, cursor) == -1;
        }
      }
    }
  }

  /** Round-robin: while some id at or after the cursor is free, no id
      below the cursor is handed out. */
  lemma NoReuseBelowCursor(flags: seq<bool>, cursor: nat, j: nat)
    requires WellFormed(flags, cursor)
    requires cursor <= j <= MAX_VRF_ID && flags[j]
    ensures cursor <= NextAvailable(flags, cursor) <= j
  {
  }

  /** With every id taken the allocator returns -1. */
  lemma FullTableFails(flags: seq<bool>, cursor: nat)
    requires WellFormed(flags, cursor)
    requires forall i :: MIN_VRF_ID <= i <= MAX_VRF_ID ==> !flags[i]
    ensures NextAvailable(flags, cursor) == -1
  {
    NextAvailableSpec(flags, cursor);
  }

  /** The ids returned by n successive allocations with no free in between,
      starting from the given table and cursor, with the final table. */
  function AllocateRun(flags: seq<bool>, cursor: nat, n: nat): (r: (seq<int>, seq<bool>))
    requires WellFormed(flags, cursor)
    ensures |r.1| == |flags|
    decreases n
  {
    if n == 0 then ([], flags)
    else
      var id := NextAvailable(flags, cursor);
      if id == -1 then
        var rest := AllocateRun(flags, cursor, n - 1);
        ([-1] + rest.0, rest.1)
      else
        NextAvailableSpec(flags, cursor);
        var rest := AllocateRun(flags[id := false], id, n - 1);
        ([id] + rest.0, rest.1)
  }

  /** Every id handed out by a run of allocations was free before the run
      and is taken after it. */
  lemma {:induction false} AllocateRunTakes(flags: seq<bool>, cursor: nat, n: nat, k: nat)
    requires WellFormed(flags, cursor)
    requires k < |AllocateRun(flags, cursor, n).0|
    requires AllocateRun(flags, cursor, n).0[k] != -1
    ensures var id := AllocateRun(flags, cursor, n).0[k];
      MIN_VRF_ID <= id <= MAX_VRF_ID && flags[id] && !AllocateRun(flags, cursor, n).1[id]
    decreases n
  {
    var id := NextAvailable(flags, cursor);
    NextAvailableSpec(flags, cursor);
    if id == -1 {
      AllocateRunTakes(flags, cursor, n - 1, k - 1);
    } else {
      var f' := flags[id := false];
      if k == 0 {
        AllocateRunKeepsTaken(f', id, n - 1, id);
      } else {
        AllocateRunTakes(f', id, n - 1, k - 1);
      }
    }
  }

  /** An id taken before a run of allocations is still taken after it. */
  lemma {:induction false} AllocateRunKeepsTaken(flags: seq<bool>, cursor: nat, n: nat, t: nat)
    requires WellFormed(flags, cursor)
    requires t < |flags| && !flags[t]
    ensures !AllocateRun(flags, cursor, n).1[t]
    decreases n
  {
    if n > 0 {
      var id := NextAvailable(flags, cursor);
      NextAvailableSpec(flags, cursor);
      if id == -1 {
        AllocateRunKeepsTaken(flags, cursor, n - 1, t);
      } else {
        AllocateRunKeepsTaken(flags[id := false], id, n - 1, t);
      }
    }
  }

  /** Successive allocations with no free in between never return the same
      id twice. */
  lemma {:induction false} AllocateRunDistinct(flags: seq<bool>, cursor: nat, n: nat, a: nat, b: nat)
    requires WellFormed(flags, cursor)
    requires a < b < |AllocateRun(flags, cursor, n).0|
    requires AllocateRun(flags, cursor, n).0[a] != -1
    ensures AllocateRun(flags, cursor, n).0[a] != AllocateRun(flags, cursor, n).0[b]
    decreases n
  {
    var id := NextAvailable(flags, cursor);
    NextAvailableSpec(flags, cursor);
    if id == -1 {
      AllocateRunDistinct(flags, cursor, n - 1, a - 1, b - 1);
    } else {
      var f' := flags[id := false];
      if a == 0 {
        var rest := AllocateRun(f', id, n - 1).0;
        if rest[b - 1] != -1 {
          AllocateRunTakes(f', id, n - 1, b - 1);
        }
      } else {
        AllocateRunDistinct(f', id, n - 1, a - 1, b - 1);
      }
    }
  }

  /** An id restored with set_vrf_id is not handed out again. */
  lemma RestoredIdNotReissued(flags: seq<bool>, cursor: nat, id: nat)
    requires WellFormed(flags, cursor) && id <= MAX_VRF_ID
    ensures NextAvailable(flags[id := false], cursor) != id
  {
    NextAvailableSpec(flags[id := false], cursor);
  }

  /** The allocator state: `free_vrf_id[]` and `used_vrf_id_num`. */
  class Allocator {
    const free: array<bool>
    var cursor: nat
    /** Set once `set_vrf_id` has written outside `free_vrf_id[]`; what
        that write overwrites is not part of the model. */
    var strayWrite: bool

    ghost predicate Valid()
      reads this
    {
      free.Length == MAX_VRF_ID + 1 && MIN_VRF_ID <= cursor <= MAX_VRF_ID
    }

    /** The static initialiser (cursor at MIN_VRF_ID) followed by
        `initialize_free_vrf_id_list`. */
    constructor ()
      ensures Valid() && fresh(free)
      ensures free[..] == InitialFlags() && cursor == MIN_VRF_ID && !strayWrite
    {
      free := new bool[MAX_VRF_ID + 1];
      cursor := MIN_VRF_ID;
      strayWrite := false;
      new;
      InitializeFreeList();
    }

    /** `initialize_free_vrf_id_list`: the default id taken, every other id
        free; the cursor is left where it is. */
    method InitializeFreeList()
      requires free.Length == MAX_VRF_ID + 1
      modifies free
      ensures free[..] == InitialFlags()
    {
      free[DEFAULT_VRF_ID] := false;
      var id := MIN_VRF_ID;
      while id <= MAX_VRF_ID
        invariant MIN_VRF_ID <= id <= MAX_VRF_ID + 1
        invariant !free[DEFAULT_VRF_ID]
        invariant forall i :: MIN_VRF_ID <= i < id ==> free[i]
      {
        free[id] := true;
        id := id + 1;
      }
      assert free[..] == InitialFlags();
    }

    /** `get_available_id`: the round-robin search; the cursor moves to the
        returned id. */
    method GetAvailableId() returns (id: int)
      requires Valid()
      modifies this`cursor
      ensures Valid()
      ensures id == NextAvailable(free[..], old(cursor))
      ensures cursor == if id == -1 then old(cursor) else id
    {
      var v := cursor;
      while v <= MAX_VRF_ID
        invariant cursor <= v <= MAX_VRF_ID + 1
        invariant forall i :: cursor <= i < v ==> !free[i]
      {
        if free[v] {
          assert FirstFree(free[..], cursor, MAX_VRF_ID + 1) == v;
          cursor := v;
          return v;
        }
        v := v + 1;
      }
      assert FirstFree(free[..], cursor, MAX_VRF_ID + 1) == -1;
      v := MIN_VRF_ID;
      while v < cursor
        invariant MIN_VRF_ID <= v <= cursor
        invariant forall i :: MIN_VRF_ID <= i < v ==> !free[i]
      {
        if free[v] {
          assert FirstFree(free[..], MIN_VRF_ID, cursor) == v;
          cursor := v;
          return v;
        }
        v := v + 1;
      }
      return -1;
    }

    /** `allocate_first_vrf_id`: hands out the next available id and marks
        it taken, or returns -1 and changes no flag. */
    method AllocateFirstVrfId() returns (id: int)
      requires Valid()
      modifies this`cursor, free
      ensures Valid()
      ensures id == NextAvailable(old(free[..]), old(cursor))
      ensures id == -1 ==> free[..] == old(free[..]) && cursor == old(cursor)
      ensures id != -1 ==> MIN_VRF_ID <= id <= MAX_VRF_ID && old(free[id])
                           && free[..] == old(free[..])[id := false] && cursor == id
    {
      NextAvailableSpec(free[..], cursor);
      id := GetAvailableId();
      if id < MIN_VRF_ID {
        return -1;
      }
      free[id] := false;
    }

    /** `set_vrf_id`: marks an id read back from the database as taken.
        The id is not checked: one without a slot is written outside the
        table, which leaves every flag as it was. */
    method SetVrfId(id: int)
      requires Valid()
      modifies free, this`strayWrite
      ensures Valid()
      ensures InTable(id) ==> free[..] == old(free[..])[id := false] && strayWrite == old(strayWrite)
      ensures !InTable(id) ==> free[..] == old(free[..]) && strayWrite
    {
      if InTable(id) {
        free[id] := false;
      } else {
        strayWrite := true;
      }
    }

    /** `allocate_vrf_id`: takes a specific id if it is in range and free. */
    method AllocateVrfId(id: nat) returns (ok: bool)
      requires Valid()
      modifies free
      ensures ok == (id <= MAX_VRF_ID && old(free[id]))
      ensures free[..] == if ok then old(free[..])[id := false] else old(free[..])
    {
      if id > MAX_VRF_ID {
        return false;
      }
      if free[id] {
        free[id] := false;
        return true;
      }
      return false;
    }

    /** `free_vrf_allocated_id`: frees an id if it is in range and taken. */
    method FreeVrfAllocatedId(id: nat) returns (ok: bool)
      requires Valid()
      modifies free
      ensures ok == (id <= MAX_VRF_ID && !old(free[id]))
      ensures free[..] == if ok then old(free[..])[id := true] else old(free[..])
    {
      if id > MAX_VRF_ID {
        return false;
      }
      if free[id] {
        return false;
      }
      free[id] := true;
      return true;
    }
  }
}
