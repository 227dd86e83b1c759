/** The software FDB of the XPliant plugin: the table of learned MAC
    entries keyed by hardware index, the ageing parameters, and the two
    event buffers that hand learned and aged MACs to the switch daemon.
    Every call into the XPliant SDK is an oracle parameter (its verdict). */
module XpMacLearning {
  import opened Common
  import XpUtil

  const IDLE_TIME_MIN: nat := 15
  const IDLE_TIME_MAX: nat := 3600
  const MAX_ENTRIES_MIN: nat := 10
  const MAX_ENTRIES_MAX: nat := 1000 * 1000
  /** The ageing clock, in cycles per second (10000000 * 55). */
  const AGING_CLOCK: nat := 10000000 * 55
  const TWO_POW_32: nat := 0x1_0000_0000
  const ETH_HEADER_LEN: nat := 14
  const MAC_ADDR_LEN: nat := 6

  /** `ops_xp_ml_addr_is_multicast`: the group bit is the low bit of the
      first octet in network order, of the last octet in the SDK's
      reversed order. */
  predicate IsMulticast(mac: seq<byte>, normalOrder: bool)
    requires |mac| == MAC_ADDR_LEN
  {
    if normalOrder then mac[0] % 2 == 1 else mac[5] % 2 == 1
  }

  /** Both byte orders name the same group bit. */
  lemma MulticastAgreesAcrossOrders(mac: seq<byte>)
    requires |mac| == MAC_ADDR_LEN
    ensures IsMulticast(Reverse(mac), false) <==> IsMulticast(mac, true)
  {
    ReverseAt(mac, 5);
  }

  /** `normalize_idle_time`: clamped to [15, 3600]. */
  function NormalizeIdleTime(t: nat): (r: nat)
    ensures IDLE_TIME_MIN <= r <= IDLE_TIME_MAX
    ensures IDLE_TIME_MIN <= t <= IDLE_TIME_MAX ==> r == t
    ensures t < IDLE_TIME_MIN ==> r == IDLE_TIME_MIN
    ensures t > IDLE_TIME_MAX ==> r == IDLE_TIME_MAX
  {
    if t < 15 then 15 else if t > 3600 then 3600 else t
  }

  /** The clamp of `ops_xp_mac_learning_set_max_entries`: [10, 1000000]. */
  function ClampMaxEntries(n: nat): (r: nat)
    ensures MAX_ENTRIES_MIN <= r <= MAX_ENTRIES_MAX
    ensures MAX_ENTRIES_MIN <= n <= MAX_ENTRIES_MAX ==> r == n
    ensures n < MAX_ENTRIES_MIN ==> r == MAX_ENTRIES_MIN
    ensures n > MAX_ENTRIES_MAX ==> r == MAX_ENTRIES_MAX
  {
    if n < 10 then 10 else if n > 1000 * 1000 then 1000 * 1000 else n
  }

  lemma ModOfMultiple(p: nat, k: nat)
    requires p > 0
    ensures (p * k) % p == 0 && (p * k) / p == k
  {
    var q, r := (p * k) / p, (p * k) % p;
    assert p * k == p * q + r;
    assert p * (k - q) == r;
    if k - q >= 1 {
      MulAtLeast(p, k - q);
    } else if k - q <= -1 {
      MulAtLeast(p, q - k);
    }
  }

  lemma MulAtLeast(p: nat, d: int)
    requires p > 0 && d >= 1
    ensures p * d >= p
  {
  }

  lemma DividesHalf(x: nat, p: nat)
    requires p > 0 && x % (2 * p) == 0
    ensures x % p == 0
  {
    var q := x / (2 * p);
    assert x == (2 * p) * q;
    assert x == p * (2 * q);
    ModOfMultiple(p, 2 * q);
  }

  lemma DivisorBelow(x: nat, m: nat)
    requires x > 0 && m > 0 && x % m == 0
    ensures m <= x
  {
    var q := x / m;
    assert x == m * q;
    assert q >= 1;
  }

  /** The loop of `calc_aging_params` computed without the final store into
      32 bits: the largest even exponent e with 2^e dividing
      idle * 550000000, and the quotient by 2^e. */
  method AgingParamsWide(idleTime: nat) returns (unitTime: nat, ageExpo: nat)
    requires idleTime > 0
    ensures ageExpo % 2 == 0
    ensures unitTime * Pow2(ageExpo) == idleTime * AGING_CLOCK
    ensures (idleTime * AGING_CLOCK) % Pow2(ageExpo + 2) != 0
  {
    var x := idleTime * AGING_CLOCK;
    assert x == 2 * (idleTime * 275000000);
    ModOfMultiple(2, idleTime * 275000000);
    ageExpo := 1;
    var i: nat := 2;
    while x % (i * 2) == 0
      invariant ageExpo >= 1 && i == Pow2(ageExpo)
      invariant x % i == 0 && i <= x
      decreases x - i
    {
      DivisorBelow(x, i * 2);
      i := i * 2;
      ageExpo := ageExpo + 1;
    }
    var top := ageExpo;
    ageExpo := if top % 2 == 0 then top else top - 1;
    EvenFloor(x, top, ageExpo);
    unitTime := x / Pow2(ageExpo);
    ExactQuotient(x, ageExpo);
  }

  /** Rounding the exact power of two in `x` down to an even exponent. */
  lemma EvenFloor(x: nat, e: nat, f: nat)
    requires e >= 1 && x % Pow2(e) == 0 && x % Pow2(e + 1) != 0
    requires f == if e % 2 == 0 then e else e - 1
    ensures f % 2 == 0 && x % Pow2(f) == 0 && x % Pow2(f + 2) != 0
  {
    if e % 2 != 0 {
      assert Pow2(e) == 2 * Pow2(f);
      DividesHalf(x, Pow2(f));
    } else if x % Pow2(f + 2) == 0 {
      DividesHalf(x, Pow2(f + 1));
    }
  }

  lemma ExactQuotient(x: nat, e: nat)
    requires x % Pow2(e) == 0
    ensures (x / Pow2(e)) * Pow2(e) == x
  {
  }

  /** `calc_aging_params` as written: the 64-bit quotient is stored in the
      32-bit `unit_time`, i.e. reduced modulo 2^32. */
  method CalcAgingParams(idleTime: nat) returns (unitTime: nat, ageExpo: nat)
    requires idleTime > 0
    ensures unitTime < TWO_POW_32
    ensures ageExpo % 2 == 0
    ensures (idleTime * AGING_CLOCK) % Pow2(ageExpo) == 0
    ensures (idleTime * AGING_CLOCK) % Pow2(ageExpo + 2) != 0
    ensures unitTime == (idleTime * AGING_CLOCK / Pow2(ageExpo)) % TWO_POW_32
  {
    var wide;
    wide, ageExpo := AgingParamsWide(idleTime);
    ModOfMultiple(Pow2(ageExpo), wide);
    assert Pow2(ageExpo) * wide == idleTime * AGING_CLOCK;
    unitTime := wide % TWO_POW_32;
  }

  lemma Pow2Small()
    ensures Pow2(6) == 64 && Pow2(8) == 256
  {
    assert Pow2(2) == 4;
    assert Pow2(4) == 16;
  }

  /** For an idle time of 1001 s the exponent is 6 and the quotient,
      8602343750, does not fit in 32 bits: the stored unit time times
      2^6 is not the requested period. */
  lemma AgingUnitTimeWrapsAt1001()
    ensures (1001 * AGING_CLOCK) % Pow2(6) == 0
    ensures (1001 * AGING_CLOCK) % Pow2(8) != 0
    ensures (1001 * AGING_CLOCK / Pow2(6)) % TWO_POW_32 * Pow2(6) != 1001 * AGING_CLOCK
  {
    Pow2Small();
  }

  /** The parameters are exact whenever the quotient fits in 32 bits. */
  lemma AgingParamsExactWhenSmall(idleTime: nat, ageExpo: nat)
    requires idleTime > 0
    requires (idleTime * AGING_CLOCK) % Pow2(ageExpo) == 0
    requires idleTime * AGING_CLOCK / Pow2(ageExpo) < TWO_POW_32
    ensures (idleTime * AGING_CLOCK / Pow2(ageExpo)) % TWO_POW_32 * Pow2(ageExpo)
            == idleTime * AGING_CLOCK
  {
    var q := idleTime * AGING_CLOCK / Pow2(ageExpo);
    assert q % TWO_POW_32 == q;
  }

  // ---------------------------------------------------------------------
  // The two MAC-learning event buffers.

  datatype MacEvent = MlearnAdd | MlearnDel

  /** One FDB entry: VLAN, MAC in the SDK's reversed byte order, the
      interface, the static flag and the service instance (VNI). */
  datatype FdbEntry = FdbEntry(vlan: int, mac: seq<byte>, intf: int, isStatic: bool, serviceInst: int)

  /** One event node handed to the switch daemon. */
  datatype EventNode = EventNode(mac: seq<byte>, port: int, vlan: int, oper: MacEvent)

  /** The abstract state of the pair of buffers: per buffer, the nodes by
      hash and `actual_size`; and the index of the buffer in use. */
  datatype EventState = EventState(tables: seq<map<nat, EventNode>>, sizes: seq<nat>, cur: nat)

  predicate EventStateOk(st: EventState, size: nat)
  {
    |st.tables| == 2 && |st.sizes| == 2 && st.cur < 2
    && st.sizes[0] <= size && st.sizes[1] <= size
  }

  /** `ops_xp_mac_learning_mlearn_entry_fill_data`: the MAC back in
      network order, the interface, the VLAN and the operation. */
  function FillNode(e: FdbEntry, ev: MacEvent): EventNode
  {
    EventNode(Reverse(e.mac), e.intf, e.vlan, ev)
  }

  /** The update of one buffer by `ops_xp_mac_learning_mlearn_action_add`:
      an existing node is refilled (after a copy is placed at the rehash
      index if there is room), a new node takes the next free slot if
      there is one. */
  function RecordInBuffer(m: map<nat, EventNode>, used: nat, index: nat, reHash: nat,
                          node: EventNode, size: nat): (r: (map<nat, EventNode>, nat))
    requires used <= size
    ensures r.1 <= size
    ensures r.1 == used || r.1 == used + 1
    ensures (index in r.0 && r.0[index] == node) <==> (index in m || used < size)
    ensures m.Keys <= r.0.Keys
    ensures forall k :: k in m && k != index && k != reHash ==> r.0[k] == m[k]
    ensures index in m && index != reHash && used < size ==> reHash in r.0 && r.0[reHash] == m[index]
  {
    if index in m then
      if index != reHash && used < size then (m[reHash := m[index]][index := node], used + 1)
      else (m[index := node], used)
    else if used < size then (m[index := node], used + 1)
    else (m, used)
  }

  /** `ops_xp_mac_learning_process_mlearn`: with a plugin and a non-empty
      current buffer, the buffer index toggles and the new current buffer
      is cleared; otherwise nothing changes. */
  function ProcessMlearnSpec(st: EventState, hasPlugin: bool): (r: EventState)
    requires EventStateOk(st, 0) || (|st.tables| == 2 && |st.sizes| == 2 && st.cur < 2)
  {
    if hasPlugin && st.sizes[st.cur] > 0 then
      var next := 1 - st.cur;
      EventState(st.tables[next := map[]], st.sizes[next := 0], next)
    else st
  }

  /** `ops_xp_mac_learning_mlearn_action_add`: record in the buffer in use,
      then process the buffers when that buffer has become full. */
  function ActionAddSpec(st: EventState, size: nat, hasPlugin: bool, index: nat, reHash: nat,
                         node: EventNode): (r: EventState)
    requires EventStateOk(st, size)
    ensures EventStateOk(r, size)
  {
    var rec := RecordInBuffer(st.tables[st.cur], st.sizes[st.cur], index, reHash, node, size);
    var st1 := EventState(st.tables[st.cur := rec.0], st.sizes[st.cur := rec.1], st.cur);
    if rec.1 == size then ProcessMlearnSpec(st1, hasPlugin) else st1
  }

  /** When recording fills the buffer in use, a plugin is present and the
      buffer size is positive, the full buffer is left for the daemon, the
      other becomes current and is emptied. */
  lemma ActionAddTogglesWhenFull(st: EventState, size: nat, hasPlugin: bool, index: nat,
                                 reHash: nat, node: EventNode)
    requires EventStateOk(st, size) && size > 0
    requires RecordInBuffer(st.tables[st.cur], st.sizes[st.cur], index, reHash, node, size).1 == size
    ensures var r := ActionAddSpec(st, size, hasPlugin, index, reHash, node);
            && (hasPlugin ==> r.cur == 1 - st.cur && r.tables[r.cur] == map[] && r.sizes[r.cur] == 0
                              && r.sizes[st.cur] == size
                              && r.tables[st.cur] == RecordInBuffer(st.tables[st.cur], st.sizes[st.cur], index, reHash, node, size).0)
            && (!hasPlugin ==> r.cur == st.cur)
  {
  }

  /** Below capacity a new node is always recorded in the buffer in use,
      which stays current. */
  lemma ActionAddRecordsBelowCapacity(st: EventState, size: nat, hasPlugin: bool, index: nat,
                                      reHash: nat, node: EventNode)
    requires EventStateOk(st, size) && st.sizes[st.cur] + 1 < size
    ensures var r := ActionAddSpec(st, size, hasPlugin, index, reHash, node);
            r.cur == st.cur && index in r.tables[r.cur] && r.tables[r.cur][index] == node
            && r.tables[1 - r.cur] == st.tables[1 - st.cur]
  {
  }

  /** The buffers that hold the events and the switch from one to the
      other. */
  class EventBuffers {
    var tables: seq<map<nat, EventNode>>
    var sizes: seq<nat>
    var cur: nat
    /** `buffer.size` (BUFFER_SIZE, whose value is not part of this model). */
    const size: nat
    /** Whether the MAC-learning plugin extension was found. */
    const hasPlugin: bool
    /** Number of `mac_learning_trigger_callback` notifications sent. */
    ghost var notifications: nat

    function State(): EventState
      reads this
    {
      EventState(tables, sizes, cur)
    }

    ghost predicate Valid()
      reads this
    {
      size > 0 && EventStateOk(State(), size)
    }

    constructor (bufferSize: nat, pluginFound: bool)
      requires bufferSize > 0
      ensures Valid() && size == bufferSize && hasPlugin == pluginFound
      ensures State() == EventState([map[], map[]], [0, 0], 0) && notifications == 0
    {
      tables := [map[], map[]];
      sizes := [0, 0];
      cur := 0;
      size := bufferSize;
      hasPlugin := pluginFound;
      notifications := 0;
    }

    /** `ops_xp_mac_learning_process_mlearn`. */
    method ProcessMlearn()
      requires Valid()
      modifies this
      ensures Valid()
      ensures State() == ProcessMlearnSpec(old(State()), hasPlugin)
      ensures notifications == old(notifications) + (if hasPlugin && old(sizes[cur]) > 0 then 1 else 0)
    {
      if hasPlugin {
        if sizes[cur] > 0 {
          notifications := notifications + 1;
          cur := 1 - cur;
          tables := tables[cur := map[]];
          sizes := sizes[cur := 0];
        }
      }
    }

    /** `ops_xp_mac_learning_mlearn_action_add`. */
    method ActionAdd(index: nat, reHash: nat, node: EventNode)
      requires Valid()
      modifies this
      ensures Valid()
      ensures State() == ActionAddSpec(old(State()), size, hasPlugin, index, reHash, node)
    {
      var m := tables[cur];
      var used := sizes[cur];
      if index in m {
        if index != reHash {
          if used < size {
            m := m[reHash := m[index]];
            used := used + 1;
          }
        }
        m := m[index := node];
      } else {
        if used < size {
          m := m[index := node];
          used := used + 1;
        }
      }
      tables := tables[cur := m];
      sizes := sizes[cur := used];
      if used == size {
        ProcessMlearn();
      }
    }

    /** `ops_xp_mac_learning_hmap_get`: the buffer not in use, if it holds
        any node. */
    function PendingTable(): (r: Option<map<nat, EventNode>>)
      reads this
      requires Valid()
      ensures r.Some? <==> sizes[1 - cur] > 0
      ensures r.Some? ==> r.value == tables[1 - cur]
    {
      if sizes[1 - cur] > 0 then Some(tables[1 - cur]) else None
    }
  }

  // ---------------------------------------------------------------------
  // The software FDB.

  /** What `ops_xp_mac_learning_insert` does to the table: EPERM when the
      table is full or the hardware refuses the entry; ENOENT when the
      hardware moved an entry the table does not hold; otherwise the
      relocated entry moves to its new index and the new entry takes
      `index`. */
  function InsertOutcome(t: map<nat, FdbEntry>, maxEntries: nat, e: FdbEntry, hwOk: bool,
                         index: nat, reHash: nat): (map<nat, FdbEntry>, int)
  {
    if |t| >= maxEntries then (t, EPERM)
    else if !hwOk then (t, EPERM)
    else if index != reHash && index !in t then (t, ENOENT)
    else
      var moved := if index != reHash then t[reHash := t[index]] else t;
      (moved[index := e], OK)
  }

  /** Insertion fails exactly on a full table, a hardware refusal or an
      unknown relocation, and leaves the table alone when it fails; when
      it succeeds the new entry is at its index and the table grows by at
      most one, so a table below its maximum never exceeds it. */
  lemma InsertOutcomeSpec(t: map<nat, FdbEntry>, maxEntries: nat, e: FdbEntry, hwOk: bool,
                          index: nat, reHash: nat)
    ensures var (t2, rc) := InsertOutcome(t, maxEntries, e, hwOk, index, reHash);
            && (rc == OK <==> |t| < maxEntries && hwOk && (index == reHash || index in t))
            && (rc != OK ==> t2 == t && (rc == EPERM || rc == ENOENT))
            && (rc == OK ==> index in t2 && t2[index] == e && |t2| <= |t| + 1 && |t2| <= maxEntries)
  {
    var (t2, rc) := InsertOutcome(t, maxEntries, e, hwOk, index, reHash);
    if rc == OK {
      if index != reHash {
        assert t2.Keys == t.Keys + {reHash};
      } else {
        assert t2.Keys == t.Keys + {index};
      }
    }
  }

  /** The entries `ExpireWhere` keeps: those not selected, and those whose
      hardware removal failed. */
  function Remaining(t: map<nat, FdbEntry>, sel: FdbEntry -> bool, hwOk: nat -> bool): map<nat, FdbEntry>
  {
    map k | k in t && !(sel(t[k]) && hwOk(k)) :: t[k]
  }

  /** The filter of `ops_xp_mac_learning_flush`. */
  predicate FlushSelects(dynamicOnly: bool, e: FdbEntry)
  {
    !dynamicOnly || !e.isStatic
  }

  /** The filter of `ops_xp_mac_learning_flush_intfId`. */
  predicate FlushIntfSelects(intf: int, dynamicOnly: bool, e: FdbEntry)
  {
    e.intf == intf && (!dynamicOnly || !e.isStatic)
  }

  /** The filter of `ops_xp_mac_learning_flush_vlan`. */
  predicate FlushVlanSelects(vlan: int, e: FdbEntry)
  {
    e.vlan == vlan
  }

  /** The filter of `ops_xp_mac_learning_flush_vlan_intf`. */
  predicate FlushVlanIntfSelects(vlan: int, intf: int, e: FdbEntry)
  {
    e.vlan == vlan && e.intf == intf
  }

  /** The filter of `ops_xp_mac_learning_on_vni_removed`. */
  predicate VniRemovedSelects(vlan: int, vni: int, intf: int, e: FdbEntry)
  {
    e.vlan == vlan && e.intf == intf && e.serviceInst == vni
  }

  /** With the hardware agreeing, a dynamic-only flush leaves exactly the
      static entries and a full flush leaves nothing. */
  lemma FlushFilters(t: map<nat, FdbEntry>, hwOk: nat -> bool)
    requires forall k :: k in t ==> hwOk(k)
    ensures forall k :: k in Remaining(t, e => FlushSelects(true, e), hwOk) <==> k in t && t[k].isStatic
    ensures Remaining(t, e => FlushSelects(false, e), hwOk) == map[]
  {
  }

  /** A VLAN flush removes the VLAN's static entries too, while a
      dynamic-only interface flush keeps them. */
  lemma FlushVlanRemovesStatic(t: map<nat, FdbEntry>, hwOk: nat -> bool, k: nat)
    requires k in t && t[k].isStatic && hwOk(k)
    ensures k !in Remaining(t, e => FlushVlanSelects(t[k].vlan, e), hwOk)
    ensures k in Remaining(t, e => FlushIntfSelects(t[k].intf, true, e), hwOk)
  {
  }

  /** Where an entry stays and where it goes under any flush: an entry
      outside the filter is never touched. */
  lemma RemainingIsSubmap(t: map<nat, FdbEntry>, sel: FdbEntry -> bool, hwOk: nat -> bool)
    ensures forall k :: k in Remaining(t, sel, hwOk) ==> k in t && Remaining(t, sel, hwOk)[k] == t[k]
    ensures forall k :: k in t && !sel(t[k]) ==> k in Remaining(t, sel, hwOk)
    ensures forall k :: k in t && sel(t[k]) && hwOk(k) ==> k !in Remaining(t, sel, hwOk)
  {
  }

  /** SDK learning reason codes the handler distinguishes. */
  datatype Reason = SaNew | IvifSaMiss | SaMove | OtherReason

  /** Outcome of `xpsFdbFindEntry`. */
  datatype FindResult = Found(index: nat) | NotFound | FindError

  /** Outcome of the learning callback registered in the SDK. */
  datatype XpStatus = XpNoErr | XpErrInvalidData

  class MacLearning {
    var table: map<nat, FdbEntry>
    var maxEntries: nat
    var idleTime: nat
    const events: EventBuffers

    ghost predicate Valid()
      reads this, events
    {
      events.Valid() && IDLE_TIME_MIN <= idleTime <= IDLE_TIME_MAX
    }

    /** `ops_xp_mac_learning_create`: an empty table with the default
        maximum and the normalized idle time. */
    constructor (idle: nat, defaultMax: nat, bufferSize: nat, pluginFound: bool)
      requires bufferSize > 0
      ensures Valid() && fresh(events)
      ensures table == map[] && maxEntries == defaultMax && idleTime == NormalizeIdleTime(idle)
      ensures events.State() == EventState([map[], map[]], [0, 0], 0)
      ensures events.size == bufferSize && events.hasPlugin == pluginFound
    {
      table := map[];
      maxEntries := defaultMax;
      idleTime := NormalizeIdleTime(idle);
      events := new EventBuffers(bufferSize, pluginFound);
    }

    /** `ops_xp_mac_learning_set_idle_time`: EPERM when either SDK call
        fails, in which case the idle time is not stored. */
    method SetIdleTime(t: nat, unitTimeOk: bool, ageTimeOk: bool) returns (rc: int)
      requires Valid()
      modifies this
      ensures Valid()
      ensures rc == (if unitTimeOk && ageTimeOk then OK else EPERM)
      ensures idleTime == (if rc == OK then NormalizeIdleTime(t) else old(idleTime))
      ensures table == old(table) && maxEntries == old(maxEntries)
    {
      var normalized := NormalizeIdleTime(t);
      var unitTime, ageExpo := CalcAgingParams(normalized);
      if !unitTimeOk {
        return EPERM;
      }
      if !ageTimeOk {
        return EPERM;
      }
      idleTime := normalized;
      rc := OK;
    }

    /** `ops_xp_mac_learning_set_max_entries`. */
    method SetMaxEntries(n: nat)
      modifies this
      ensures maxEntries == ClampMaxEntries(n)
      ensures table == old(table) && idleTime == old(idleTime)
    {
      maxEntries := ClampMaxEntries(n);
    }

    /** `ops_xp_mac_learning_may_learn`: the VLAN learns (`vlanLearning`,
        read from the VLAN manager) and the source MAC, in SDK order, is
        not multicast. */
    predicate MayLearn(mac: seq<byte>, vlanLearning: bool)
      requires |mac| == MAC_ADDR_LEN
    {
      vlanLearning && !IsMulticast(mac, false)
    }

    /** `ops_xp_mac_learning_insert`. */
    method Insert(e: FdbEntry, hwOk: bool, index: nat, reHash: nat) returns (rc: int)
      requires Valid()
      modifies this, events
      ensures Valid()
      ensures (table, rc) == InsertOutcome(old(table), maxEntries, e, hwOk, index, reHash)
      ensures events.State() == (if rc == OK
        then ActionAddSpec(old(events.State()), events.size, events.hasPlugin, index, reHash, FillNode(e, MlearnAdd))
        else old(events.State()))
      ensures maxEntries == old(maxEntries) && idleTime == old(idleTime)
    {
      if |table| >= maxEntries {
        return EPERM;
      }
      if !hwOk {
        return EPERM;
      }
      if index != reHash {
        if index in table {
          var oldEntry := table[index];
          table := table[reHash := oldEntry];
        } else {
          return ENOENT;
        }
      }
      table := table[index := e];
      events.ActionAdd(index, reHash, FillNode(e, MlearnAdd));
      rc := OK;
    }

    /** `ops_xp_mac_learning_lookup_by_vlan_and_mac`: some entry with this
        VLAN and MAC, in hash order, or None. */
    method LookupByVlanAndMac(vlan: int, mac: seq<byte>) returns (r: Option<nat>)
      ensures r.None? <==> forall k :: k in table ==> !(table[k].vlan == vlan && table[k].mac == mac)
      ensures r.Some? ==> r.value in table && table[r.value].vlan == vlan && table[r.value].mac == mac
    {
      var todo := table.Keys;
      while todo != {}
        invariant todo <= table.Keys
        invariant forall k :: k in table && k !in todo ==> !(table[k].vlan == vlan && table[k].mac == mac)
        decreases |todo|
      {
        var k :| k in todo;
        if table[k].mac == mac && table[k].vlan == vlan {
          return Some(k);
        }
        todo := todo - {k};
      }
      r := None;
    }

    /** `ops_xp_mac_learning_expire`: EPERM and the entry is kept when the
        hardware removal fails; otherwise it is removed and a delete event
        is recorded. */
    method Expire(k: nat, hwOk: bool) returns (rc: int)
      requires Valid() && k in table
      modifies this, events
      ensures Valid()
      ensures rc == (if hwOk then OK else EPERM)
      ensures table == (if hwOk then old(table) - {k} else old(table))
      ensures events.State() == (if hwOk
        then ActionAddSpec(old(events.State()), events.size, events.hasPlugin, k, k, FillNode(old(table)[k], MlearnDel))
        else old(events.State()))
      ensures maxEntries == old(maxEntries) && idleTime == old(idleTime)
    {
      if !hwOk {
        return EPERM;
      }
      var e := table[k];
      table := table - {k};
      events.ActionAdd(k, k, FillNode(e, MlearnDel));
      rc := OK;
    }

    /** The loop shared by every flush: expire each entry the filter
        selects, in hash order; entries whose hardware removal fails stay. */
    method ExpireWhere(sel: FdbEntry -> bool, hwOk: nat -> bool)
      requires Valid()
      modifies this, events
      ensures Valid()
      ensures table == Remaining(old(table), sel, hwOk)
      ensures maxEntries == old(maxEntries) && idleTime == old(idleTime)
    {
      ghost var t0 := table;
      var todo := table.Keys;
      while todo != {}
        invariant Valid()
        invariant todo <= t0.Keys && todo <= table.Keys
        invariant forall k :: k in todo ==> table[k] == t0[k]
        invariant table == map k | k in t0 && (k in todo || !(sel(t0[k]) && hwOk(k))) :: t0[k]
        invariant maxEntries == old(maxEntries) && idleTime == old(idleTime)
        decreases |todo|
      {
        var k :| k in todo;
        if sel(table[k]) {
          var _ := Expire(k, hwOk(k));
        }
        todo := todo - {k};
      }
    }

    /** `ops_xp_mac_learning_flush`. */
    method Flush(dynamicOnly: bool, hwOk: nat -> bool)
      requires Valid()
      modifies this, events
      ensures Valid()
      ensures table == Remaining(old(table), e => FlushSelects(dynamicOnly, e), hwOk)
      ensures maxEntries == old(maxEntries) && idleTime == old(idleTime)
    {
      ExpireWhere(e => FlushSelects(dynamicOnly, e), hwOk);
    }

    /** `ops_xp_mac_learning_flush_intfId`; always returns 0. */
    method FlushIntf(intf: int, dynamicOnly: bool, hwOk: nat -> bool) returns (rc: int)
      requires Valid()
      modifies this, events
      ensures Valid() && rc == OK
      ensures table == Remaining(old(table), e => FlushIntfSelects(intf, dynamicOnly, e), hwOk)
      ensures maxEntries == old(maxEntries) && idleTime == old(idleTime)
    {
      ExpireWhere(e => FlushIntfSelects(intf, dynamicOnly, e), hwOk);
      rc := OK;
    }

    /** `ops_xp_mac_learning_process_port_down`: the dynamic entries of the
        interface go. */
    method ProcessPortDown(intf: int, hwOk: nat -> bool) returns (rc: int)
      requires Valid()
      modifies this, events
      ensures Valid() && rc == OK
      ensures table == Remaining(old(table), e => FlushIntfSelects(intf, true, e), hwOk)
      ensures maxEntries == old(maxEntries) && idleTime == old(idleTime)
    {
      rc := FlushIntf(intf, true, hwOk);
    }

    /** `ops_xp_mac_learning_flush_vlan`: every entry of the VLAN, static
        ones included. */
    method FlushVlan(vlan: int, hwOk: nat -> bool) returns (rc: int)
      requires Valid()
      modifies this, events
      ensures Valid() && rc == OK
      ensures table == Remaining(old(table), e => FlushVlanSelects(vlan, e), hwOk)
      ensures maxEntries == old(maxEntries) && idleTime == old(idleTime)
    {
      ExpireWhere(e => FlushVlanSelects(vlan, e), hwOk);
      rc := OK;
    }

    /** `ops_xp_mac_learning_flush_vlan_intf`. */
    method FlushVlanIntf(vlan: int, intf: int, hwOk: nat -> bool) returns (rc: int)
      requires Valid()
      modifies this, events
      ensures Valid() && rc == OK
      ensures table == Remaining(old(table), e => FlushVlanIntfSelects(vlan, intf, e), hwOk)
      ensures maxEntries == old(maxEntries) && idleTime == old(idleTime)
    {
      ExpireWhere(e => FlushVlanIntfSelects(vlan, intf, e), hwOk);
      rc := OK;
    }

    /** `ops_xp_mac_learning_process_vlan_removed`. */
    method ProcessVlanRemoved(vlan: int, hwOk: nat -> bool) returns (rc: int)
      requires Valid()
      modifies this, events
      ensures Valid() && rc == OK
      ensures table == Remaining(old(table), e => FlushVlanSelects(vlan, e), hwOk)
      ensures maxEntries == old(maxEntries) && idleTime == old(idleTime)
    {
      rc := FlushVlan(vlan, hwOk);
    }

    /** `ops_xp_mac_learning_on_vni_removed`. */
    method OnVniRemoved(vlan: int, vni: int, intf: int, hwOk: nat -> bool)
      requires Valid()
      modifies this, events
      ensures Valid()
      ensures table == Remaining(old(table), e => VniRemovedSelects(vlan, vni, intf, e), hwOk)
      ensures maxEntries == old(maxEntries) && idleTime == old(idleTime)
    {
      ExpireWhere(e => VniRemovedSelects(vlan, vni, intf, e), hwOk);
    }

    /** `ops_xp_mac_learning_age_by_index`: 0 when no entry has the index. */
    method AgeByIndex(index: nat, hwOk: bool) returns (rc: int)
      requires Valid()
      modifies this, events
      ensures Valid()
      ensures index !in old(table) ==> rc == OK && table == old(table) && events.State() == old(events.State())
      ensures index in old(table) ==>
                rc == (if hwOk then OK else EPERM) && table == (if hwOk then old(table) - {index} else old(table))
      ensures maxEntries == old(maxEntries) && idleTime == old(idleTime)
    {
      if index in table {
        rc := Expire(index, hwOk);
      } else {
        rc := OK;
      }
    }

    /** `ops_xp_mac_learning_age_by_vlan_and_mac`: EPERM when no entry
        matches. */
    method AgeByVlanAndMac(vlan: int, mac: seq<byte>, hwOk: bool) returns (rc: int)
      requires Valid()
      modifies this, events
      ensures Valid()
      ensures (forall k :: k in old(table) ==> !(old(table)[k].vlan == vlan && old(table)[k].mac == mac)) ==>
                rc == EPERM && table == old(table)
      ensures rc == OK ==> exists k :: k in old(table) && old(table)[k].vlan == vlan && old(table)[k].mac == mac
                                       && table == old(table) - {k}
      ensures maxEntries == old(maxEntries) && idleTime == old(idleTime)
    {
      var found := LookupByVlanAndMac(vlan, mac);
      if found.None? {
        return EPERM;
      }
      rc := Expire(found.value, hwOk);
    }

    /** `ops_xp_mac_learning_learn` for one learning event carrying `vlan`,
        the MAC in SDK order, the ingress interface and the service
        instance. The SDK's answers are parameters: `find` for
        xpsFdbFindEntry, `addOk`/`index`/`reHash` for xpsFdbAddEntry,
        `writeOk` for xpsFdbWriteEntry and `removeOk` for the removal by
        index. */
    method Learn(vlan: int, mac: seq<byte>, intf: int, serviceInst: int, reason: Reason,
                 vlanLearning: bool, find: FindResult, addOk: bool, index: nat, reHash: nat,
                 writeOk: bool, removeOk: bool) returns (rc: int)
      requires Valid() && |mac| == MAC_ADDR_LEN
      modifies this, events
      ensures Valid()
      ensures maxEntries == old(maxEntries) && idleTime == old(idleTime)
      ensures !MayLearn(mac, vlanLearning) ==> rc == EPERM && table == old(table)
      ensures MayLearn(mac, vlanLearning) && (reason == SaNew || reason == IvifSaMiss) ==>
                match find
                case NotFound =>
                  (table, rc) == InsertOutcome(old(table), maxEntries, FdbEntry(vlan, mac, intf, false, serviceInst),
                                               addOk, index, reHash)
                case FindError => rc == ENOENT && table == old(table)
                case Found(_) => rc == EEXIST && table == old(table)
      ensures MayLearn(mac, vlanLearning) && reason == SaMove ==>
                if find.NotFound? || find.FindError? then rc == ENOENT && table == old(table)
                else if find.index !in old(table) then rc == EPERM && table == old(table)
                else rc == OK &&
                     table == (if !writeOk && removeOk then old(table) - {find.index}
                               else old(table)[find.index := old(table)[find.index].(intf := intf)])
      ensures MayLearn(mac, vlanLearning) && reason == OtherReason ==> rc == OK && table == old(table)
    {
      if !MayLearn(mac, vlanLearning) {
        return EPERM;
      }
      match reason
      case SaNew =>
        rc := LearnNew(vlan, mac, intf, serviceInst, find, addOk, index, reHash);
      case IvifSaMiss =>
        rc := LearnNew(vlan, mac, intf, serviceInst, find, addOk, index, reHash);
      case SaMove =>
        if !find.Found? {
          return ENOENT;
        }
        var at := find.index;
        if at !in table {
          return EPERM;
        }
        var updated := table[at].(intf := intf);
        table := table[at := updated];
        events.ActionAdd(at, at, FillNode(updated, MlearnAdd));
        if !writeOk {
          var _ := Expire(at, removeOk);
        }
        rc := OK;
      case OtherReason =>
        rc := OK;
    }

    /** The SA_NEW / IVIF_SA_MISS branch of `ops_xp_mac_learning_learn`. */
    method LearnNew(vlan: int, mac: seq<byte>, intf: int, serviceInst: int, find: FindResult,
                    addOk: bool, index: nat, reHash: nat) returns (rc: int)
      requires Valid()
      modifies this, events
      ensures Valid()
      ensures maxEntries == old(maxEntries) && idleTime == old(idleTime)
      ensures match find
              case NotFound =>
                (table, rc) == InsertOutcome(old(table), maxEntries, FdbEntry(vlan, mac, intf, false, serviceInst),
                                             addOk, index, reHash)
              case FindError => rc == ENOENT && table == old(table)
              case Found(_) => rc == EEXIST && table == old(table)
    {
      match find
      case NotFound =>
        rc := Insert(FdbEntry(vlan, mac, intf, false, serviceInst), addOk, index, reHash);
      case FindError =>
        rc := ENOENT;
      case Found(_) =>
        rc := EEXIST;
    }

    /** `ops_xp_mac_learning_on_learning`: a frame shorter than an Ethernet
        header is refused; otherwise the source MAC (octets 6 to 11) is
        reversed into SDK order and learned as a dynamic entry. The
        callback reports success whatever learning returns. */
    method OnLearning(frame: seq<byte>, bufSize: nat, ingressIntf: int, reason: Reason, bdId: int,
                      vlanLearning: bool, find: FindResult, addOk: bool, index: nat, reHash: nat,
                      writeOk: bool, removeOk: bool) returns (status: XpStatus)
      requires Valid() && bufSize <= |frame|
      modifies this, events
      ensures Valid()
      ensures status == (if bufSize < ETH_HEADER_LEN then XpErrInvalidData else XpNoErr)
      ensures bufSize < ETH_HEADER_LEN ==> table == old(table) && events.State() == old(events.State())
      ensures bufSize >= ETH_HEADER_LEN && reason == SaNew && find.NotFound? && vlanLearning
              && !IsMulticast(frame[6..12], true) ==>
                ((table, OK) == InsertOutcome(old(table), maxEntries,
                                              FdbEntry(bdId, Reverse(frame[6..12]), ingressIntf, false, 0),
                                              addOk, index, reHash)
                 || (table == old(table) && !(|old(table)| < maxEntries && addOk && (index == reHash || index in old(table)))))
      ensures maxEntries == old(maxEntries) && idleTime == old(idleTime)
    {
      if bufSize < ETH_HEADER_LEN {
        return XpErrInvalidData;
      }
      var mac := Reverse(frame[6..12]);
      MulticastAgreesAcrossOrders(frame[6..12]);
      var _ := Learn(bdId, mac, ingressIntf, 0, reason, vlanLearning, find, addOk, index, reHash,
                     writeOk, removeOk);
      InsertOutcomeSpec(old(table), maxEntries, FdbEntry(bdId, mac, ingressIntf, false, 0), addOk, index, reHash);
      status := XpNoErr;
    }

    /** `ops_xp_mac_learning_on_mlearn_timer_expired`. */
    method OnMlearnTimerExpired()
      requires Valid()
      modifies events
      ensures Valid()
      ensures events.State() == ProcessMlearnSpec(old(events.State()), events.hasPlugin)
    {
      events.ProcessMlearn();
    }
  }
}
