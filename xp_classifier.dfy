/** ACL bookkeeping of the XPliant plugin: the table-type choice, the key
    encoding of IPv4 addresses and masks, the per-field key sizes, rule
    priorities, entry validation, and the shadow tables in which one
    ACL id is shared by every table entry of a classifier list. */
module XpClassifier {
  import opened Common

  // ---------------------------------------------------------------------
  // Table type.

  datatype Direction = DirIn | DirOut | DirOther
  datatype InterfaceKind = IntfPort | IntfVlan | IntfOther

  /** The SDK's ACL table types; AclTotal is the "invalid" marker. */
  datatype AclType = Iacl0 | Iacl1 | Iacl2 | Eacl | AclTotal

  /** `ops_xp_cls_get_type`: port ingress ACLs go to IACL0, VLAN ingress
      ACLs to IACL2 when L3-only and IACL1 otherwise, egress ACLs to EACL,
      and everything else is invalid. */
  function GetType(kind: InterfaceKind, l3Only: bool, dir: Direction): (t: AclType)
    ensures t == Iacl0 <==> dir == DirIn && kind == IntfPort
    ensures t == Iacl1 <==> dir == DirIn && kind == IntfVlan && !l3Only
    ensures t == Iacl2 <==> dir == DirIn && kind == IntfVlan && l3Only
    ensures t == Eacl <==> dir == DirOut
    ensures t == AclTotal <==> dir == DirOther || (dir == DirIn && kind == IntfOther)
  {
    match dir
    case DirIn =>
      (match kind
       case IntfPort => Iacl0
       case IntfVlan => if l3Only then Iacl2 else Iacl1
       case IntfOther => AclTotal)
    case DirOut => Eacl
    case DirOther => AclTotal
  }

  /** The three ingress types are the ones with a shadow hmap (PACL, BACL
      and RACL); egress and invalid lookups always miss. */
  predicate HasShadowTable(t: AclType)
  {
    t == Iacl0 || t == Iacl1 || t == Iacl2
  }

  // ---------------------------------------------------------------------
  // Byte order and IP masks.

  /** An octet as its eight bits, x0 the least significant. */
  datatype Octet = Octet(x0: bool, x1: bool, x2: bool, x3: bool, x4: bool, x5: bool, x6: bool, x7: bool)

  const OCTET_ZERO: Octet := Octet(false, false, false, false, false, false, false, false)
  const OCTET_ONES: Octet := Octet(true, true, true, true, true, true, true, true)

  function OctetAnd(a: Octet, b: Octet): Octet
  {
    Octet(a.x0 && b.x0, a.x1 && b.x1, a.x2 && b.x2, a.x3 && b.x3,
          a.x4 && b.x4, a.x5 && b.x5, a.x6 && b.x6, a.x7 && b.x7)
  }

  function OctetOr(a: Octet, b: Octet): Octet
  {
    Octet(a.x0 || b.x0, a.x1 || b.x1, a.x2 || b.x2, a.x3 || b.x3,
          a.x4 || b.x4, a.x5 || b.x5, a.x6 || b.x6, a.x7 || b.x7)
  }

  /** Xor with 0xff. */
  function OctetComplement(a: Octet): Octet
  {
    Octet(!a.x0, !a.x1, !a.x2, !a.x3, !a.x4, !a.x5, !a.x6, !a.x7)
  }

  /** A 32-bit word as its four bytes, b0 the least significant. */
  datatype Word32 = Word32(b0: Octet, b1: Octet, b2: Octet, b3: Octet)

  const ALL_ONES: Word32 := Word32(OCTET_ONES, OCTET_ONES, OCTET_ONES, OCTET_ONES)
  const ZERO_WORD: Word32 := Word32(OCTET_ZERO, OCTET_ZERO, OCTET_ZERO, OCTET_ZERO)

  function And(x: Word32, y: Word32): Word32
  {
    Word32(OctetAnd(x.b0, y.b0), OctetAnd(x.b1, y.b1), OctetAnd(x.b2, y.b2), OctetAnd(x.b3, y.b3))
  }

  function Or(x: Word32, y: Word32): Word32
  {
    Word32(OctetOr(x.b0, y.b0), OctetOr(x.b1, y.b1), OctetOr(x.b2, y.b2), OctetOr(x.b3, y.b3))
  }

  /** Xor with 0xffffffff. */
  function Complement(x: Word32): Word32
  {
    Word32(OctetComplement(x.b0), OctetComplement(x.b1), OctetComplement(x.b2), OctetComplement(x.b3))
  }

  /** `ops_xp_cls_reverse_byte_order`: byte k moves to byte 3-k. */
  function ReverseByteOrder(src: Word32): Word32
  {
    Word32(src.b3, src.b2, src.b1, src.b0)
  }

  /** The hardware mask of an IPv4 key field: the SDK matches on the bits
      that are zero in its mask, so the byte-swapped configured mask is
      xored with 0xffffffff. */
  function HwIpMask(cfgMask: Word32): (m: Word32)
    ensures And(m, ReverseByteOrder(cfgMask)) == ZERO_WORD
    ensures Or(m, ReverseByteOrder(cfgMask)) == ALL_ONES
    ensures ReverseByteOrder(Complement(m)) == cfgMask
  {
    Complement(ReverseByteOrder(cfgMask))
  }

  // ---------------------------------------------------------------------
  // Key fields.

  datatype PortOp = OpEq | OpNeq | OpLt | OpGt | OpRange | OpOther

  datatype EntryFlag =
    | SrcIpValid | DstIpValid | L4SrcPortValid | L4DstPortValid | ProtocolValid
    | TosValid | IcmpCodeValid | IcmpTypeValid | VlanValid | EtherTypeValid

  /** One entry of a classifier list as the switch daemon hands it over;
      addresses and masks are the 32-bit words read from memory. */
  datatype ClsEntry = ClsEntry(flags: set<EntryFlag>,
                               srcIp: Word32, srcIpMask: Word32, dstIp: Word32, dstIpMask: Word32,
                               l4SrcMin: int, l4SrcOp: PortOp, l4DstMin: int, l4DstOp: PortOp,
                               protocol: int, tos: int, tosMask: int, icmpCode: int, icmpType: int,
                               vlan: int, etherType: int,
                               permit: bool, deny: bool, count: bool)

  /** A key field as written to the SDK: untouched after the reset (value
      zero, mask all ones: matches anything), an exact match (mask zero),
      an IPv4 value with its hardware mask, or the TOS value with the
      configured mask copied as is. */
  datatype KeyField = Wildcard | Exact(value: int) | Ip(ipValue: Word32, hwMask: Word32) | Tos(tosValue: int, tosMask: int)

  datatype IaclKey = IaclKey(aclId: KeyField, sip: KeyField, dip: KeyField, l4Src: KeyField,
                             l4Dst: KeyField, protocol: KeyField, tos: KeyField, icmpCode: KeyField,
                             icmpType: KeyField, bd: KeyField, etherType: KeyField)

  datatype PktCmd = PktCmdUnset | PktCmdFwd | PktCmdDrop

  /** The IPv4 key field for a configured address and mask. */
  function IpField(ip: Word32, cfgMask: Word32): KeyField
  {
    Ip(ReverseByteOrder(ip), HwIpMask(cfgMask))
  }

  /** The hardware's view of an IPv4 field: a header word x matches when
      it agrees with the value on every bit whose mask bit is zero. */
  predicate IpFieldMatches(f: KeyField, x: Word32)
    requires f.Ip?
  {
    And(x, Complement(f.hwMask)) == And(f.ipValue, Complement(f.hwMask))
  }

  /** The encoded IPv4 field matches the byte-swapped address a exactly
      when a agrees with the configured address under the configured mask. */
  lemma IpFieldMatchesConfiguredPrefix(ip: Word32, cfgMask: Word32, a: Word32)
    ensures IpFieldMatches(IpField(ip, cfgMask), ReverseByteOrder(a)) <==> And(a, cfgMask) == And(ip, cfgMask)
  {
  }

  /** A key field that is set only when its valid flag is. */
  function Guarded(valid: bool, f: KeyField): (r: KeyField)
    requires !f.Wildcard?
    ensures r != Wildcard <==> valid
    ensures valid ==> r == f
  {
    if valid then f else Wildcard
  }

  /** `ops_xp_cls_populate_iacl_entires` after the field reset, together
      with the ACL-id field the caller fills in. */
  function PopulateIaclEntry(e: ClsEntry, aclId: int): (r: (IaclKey, PktCmd))
    ensures r.0.aclId == Exact(aclId)
    ensures (r.0.sip != Wildcard <==> SrcIpValid in e.flags) && (r.0.dip != Wildcard <==> DstIpValid in e.flags)
    ensures (r.0.l4Src != Wildcard <==> L4SrcPortValid in e.flags) && (r.0.l4Dst != Wildcard <==> L4DstPortValid in e.flags)
    ensures (r.0.protocol != Wildcard <==> ProtocolValid in e.flags) && (r.0.tos != Wildcard <==> TosValid in e.flags)
    ensures (r.0.icmpCode != Wildcard <==> IcmpCodeValid in e.flags) && (r.0.icmpType != Wildcard <==> IcmpTypeValid in e.flags)
    ensures (r.0.bd != Wildcard <==> VlanValid in e.flags) && (r.0.etherType != Wildcard <==> EtherTypeValid in e.flags)
    ensures SrcIpValid in e.flags ==> r.0.sip == IpField(e.srcIp, e.srcIpMask)
    ensures DstIpValid in e.flags ==> r.0.dip == IpField(e.dstIp, e.dstIpMask)
    ensures r.1 == PktCmdFwd <==> e.permit
    ensures r.1 == PktCmdDrop <==> !e.permit && e.deny
  {
    var key := IaclKey(
      Exact(aclId),
      Guarded(SrcIpValid in e.flags, IpField(e.srcIp, e.srcIpMask)),
      Guarded(DstIpValid in e.flags, IpField(e.dstIp, e.dstIpMask)),
      Guarded(L4SrcPortValid in e.flags, Exact(e.l4SrcMin)),
      Guarded(L4DstPortValid in e.flags, Exact(e.l4DstMin)),
      Guarded(ProtocolValid in e.flags, Exact(e.protocol)),
      Guarded(TosValid in e.flags, Tos(e.tos, e.tosMask)),
      Guarded(IcmpCodeValid in e.flags, Exact(e.icmpCode)),
      Guarded(IcmpTypeValid in e.flags, Exact(e.icmpType)),
      Guarded(VlanValid in e.flags, Exact(e.vlan)),
      Guarded(EtherTypeValid in e.flags, Exact(e.etherType)));
    var cmd := if e.permit then PktCmdFwd else if e.deny then PktCmdDrop else PktCmdUnset;
    (key, cmd)
  }

  // ---------------------------------------------------------------------
  // Key field sizes.

  /** `iaclV4KeyByteMask`: for each SDK key field, the bytes it occupies. */
  const KEY_BYTE_MASK: seq<nat> := [0x1, 0x1, 0x3f, 0x3f, 0x3, 0x3, 0x3, 0xf, 0xf, 0x3, 0x3,
                                    0x3, 0x1, 0x1, 0x1, 0x1, 0x3, 0x1, 0x1, 0x1, 0x3, 0x1]

  /** The bit widths `iacl_key_v4` declares for its fifteen fields. */
  const KEY_FIELD_BITS: seq<nat> := [8, 8, 48, 48, 16, 32, 32, 16, 16, 16, 8, 8, 8, 8, 16]

  /** Where each of the fifteen fields sits in the SDK's field enumeration,
      read off the names annotating `iaclV4KeyByteMask` (the enumeration
      itself belongs to the SDK). */
  const SDK_FIELD_INDEX: seq<nat> := [0, 1, 2, 3, 4, 7, 8, 10, 9, 11, 12, 13, 14, 15, 16]

  /** Number of one bits. */
  function PopCount(n: nat): nat
  {
    if n == 0 then 0 else n % 2 + PopCount(n / 2)
  }

  /** The inner loop of `ops_xp_alloc_reset_field_data`: shifts the mask
      right and counts the one bits. */
  method FieldSize(byteMask: nat) returns (size: nat)
    ensures size == PopCount(byteMask)
  {
    var m := byteMask;
    size := 0;
    while m != 0
      invariant size + PopCount(m) == PopCount(byteMask)
      decreases m
    {
      if m % 2 == 1 {
        size := size + 1;
      }
      m := m / 2;
    }
  }

  /** `ops_xp_alloc_reset_field_data`: the size of each key field is the
      number of bytes its SDK field occupies. */
  method ResetFieldSizes(sdkIndex: seq<nat>) returns (sizes: seq<nat>)
    requires forall i :: 0 <= i < |sdkIndex| ==> sdkIndex[i] < |KEY_BYTE_MASK|
    ensures |sizes| == |sdkIndex|
    ensures forall i :: 0 <= i < |sizes| ==> sizes[i] == PopCount(KEY_BYTE_MASK[sdkIndex[i]])
  {
    sizes := [];
    var i := 0;
    while i < |sdkIndex|
      invariant 0 <= i <= |sdkIndex| && |sizes| == i
      invariant forall k :: 0 <= k < i ==> sizes[k] == PopCount(KEY_BYTE_MASK[sdkIndex[k]])
    {
      var s := FieldSize(KEY_BYTE_MASK[sdkIndex[i]]);
      sizes := sizes + [s];
      i := i + 1;
    }
  }

  /** With the SDK's field order, every field size in bytes is its
      declared bit width divided by eight. */
  lemma KeySizesMatchWidths()
    ensures forall i :: 0 <= i < |SDK_FIELD_INDEX| ==> SDK_FIELD_INDEX[i] < |KEY_BYTE_MASK|
    ensures forall i :: 0 <= i < |SDK_FIELD_INDEX| ==> PopCount(KEY_BYTE_MASK[SDK_FIELD_INDEX[i]]) * 8 == KEY_FIELD_BITS[i]
  {
    MaskPopCounts();
  }

  lemma MaskPopCounts()
    ensures PopCount(0x3f) == 6 && PopCount(0xf) == 4 && PopCount(0x3) == 2 && PopCount(0x1) == 1
  {
    assert PopCount(0x3f) == 6;
    assert PopCount(0xf) == 4;
  }

  // ---------------------------------------------------------------------
  // Validation and rule lists.

  predicate UnsupportedOp(op: PortOp)
  {
    op == OpNeq || op == OpLt || op == OpGt || op == OpRange
  }

  /** The hardware only matches an L4 port for equality. */
  predicate Unsupported(e: ClsEntry)
  {
    UnsupportedOp(e.l4SrcOp) || UnsupportedOp(e.l4DstOp)
  }

  /** The index of the last unsupported entry, if any. */
  function LastUnsupported(entries: seq<ClsEntry>): (r: Option<nat>)
    ensures r.None? <==> forall i :: 0 <= i < |entries| ==> !Unsupported(entries[i])
    ensures r.Some? ==> r.value < |entries| && Unsupported(entries[r.value])
    ensures r.Some? ==> forall j :: r.value < j < |entries| ==> !Unsupported(entries[j])
  {
    if entries == [] then None
    else if Unsupported(entries[|entries| - 1]) then Some(|entries| - 1)
    else LastUnsupported(entries[..|entries| - 1])
  }

  datatype StatusCode = StatusSuccess | StatusHwUnsupported | StatusHwResourceErr | StatusHwConfigErr
  datatype PdStatus = PdStatus(code: StatusCode, entryId: nat)

  /** `ops_xp_cls_validate_entries`: HW_UNSUPPORTED with the index of the
      last offending entry, or the status untouched. */
  method ValidateEntries(entries: seq<ClsEntry>, status: PdStatus) returns (r: PdStatus)
    ensures LastUnsupported(entries).None? ==> r == status
    ensures LastUnsupported(entries).Some? ==> r == PdStatus(StatusHwUnsupported, LastUnsupported(entries).value)
  {
    r := status;
    var i := 0;
    while i < |entries|
      invariant 0 <= i <= |entries|
      invariant LastUnsupported(entries[..i]).None? ==> r == status
      invariant LastUnsupported(entries[..i]).Some? ==> r == PdStatus(StatusHwUnsupported, LastUnsupported(entries[..i]).value)
    {
      assert entries[..i + 1][..i] == entries[..i];
      if UnsupportedOp(entries[i].l4SrcOp) {
        r := PdStatus(StatusHwUnsupported, i);
      }
      if UnsupportedOp(entries[i].l4DstOp) {
        r := PdStatus(StatusHwUnsupported, i);
      }
      i := i + 1;
    }
    assert entries[..i] == entries;
  }

  /** A TCAM rule of a classifier: the rule index the TCAM manager gave,
      the priority it was allocated with, and the counter flag. */
  datatype XpRule = XpRule(ruleId: nat, priority: nat, counterEn: bool)

  /** The rule list of a classifier: rule i was allocated with priority
      n - i at the index the TCAM manager returned for it (`tcamIndex`),
      and counts when its entry asks for it. */
  function RuleList(cls: seq<ClsEntry>, tcamIndex: seq<nat>): (rules: seq<XpRule>)
    requires |tcamIndex| == |cls|
    ensures |rules| == |cls|
    ensures forall i :: 0 <= i < |rules| ==> rules[i].ruleId == tcamIndex[i] && rules[i].counterEn == cls[i].count
  {
    seq(|cls|, i requires 0 <= i < |cls| => XpRule(tcamIndex[i], |cls| - i, cls[i].count))
  }

  /** Priorities follow the list order, highest first, and are all at
      least one. */
  lemma RulePrioritiesDecrease(cls: seq<ClsEntry>, tcamIndex: seq<nat>)
    requires |tcamIndex| == |cls|
    ensures forall i, j :: 0 <= i < j < |cls| ==> RuleList(cls, tcamIndex)[i].priority > RuleList(cls, tcamIndex)[j].priority
    ensures forall i :: 0 <= i < |cls| ==> RuleList(cls, tcamIndex)[i].priority >= 1
  {
  }

  /** `ops_xp_cls_create_rule_entry_list`, bookkeeping part: one TCAM rule
      per list entry, in order. */
  method CreateRuleEntryList(cls: seq<ClsEntry>, tcamIndex: seq<nat>) returns (rules: seq<XpRule>)
    requires |tcamIndex| == |cls|
    ensures rules == RuleList(cls, tcamIndex)
  {
    rules := [];
    var i := 0;
    while i < |cls|
      invariant 0 <= i <= |cls| && |rules| == i
      invariant forall k :: 0 <= k < i ==> rules[k] == XpRule(tcamIndex[k], |cls| - k, cls[k].count)
    {
      var priority := |cls| - i;
      rules := rules + [XpRule(tcamIndex[i], priority, cls[i].count)];
      i := i + 1;
    }
  }

  // ---------------------------------------------------------------------
  // Shadow tables.

  type Uuid = string

  /** `num_intfs` is a uint16_t. */
  const UINT16_LIMIT: nat := 0x1_0000

  function Inc16(n: nat): (r: nat)
    requires n < UINT16_LIMIT
    ensures r < UINT16_LIMIT && (n + 1 < UINT16_LIMIT ==> r == n + 1) && (n + 1 == UINT16_LIMIT ==> r == 0)
  {
    if n + 1 == UINT16_LIMIT then 0 else n + 1
  }

  function Dec16(n: nat): (r: nat)
    requires n < UINT16_LIMIT
    ensures r < UINT16_LIMIT && (n > 0 ==> r == n - 1) && (n == 0 ==> r == UINT16_LIMIT - 1)
  {
    if n == 0 then UINT16_LIMIT - 1 else n - 1
  }

  /** The status `ops_xp_cls_validate_entries` leaves. */
  function ValidatedStatus(cls: seq<ClsEntry>, status: PdStatus): PdStatus
  {
    match LastUnsupported(cls)
    case None => status
    case Some(i) => PdStatus(StatusHwUnsupported, i)
  }

  /** A classifier applied to interfaces of one table type. */
  datatype AclEntry = AclEntry(aclId: nat, numIntfs: nat, rules: seq<XpRule>,
                               kind: InterfaceKind, l3Only: bool, dir: Direction)

  type AclMap = map<(AclType, Uuid), AclEntry>

  /** Every entry's interface count fits its 16 bits. */
  predicate CountsFit(es: AclMap)
  {
    forall k :: k in es ==> es[k].numIntfs < UINT16_LIMIT
  }

  /** Some entry of the UUID carries the id. */
  predicate HoldsId(es: AclMap, u: Uuid, id: nat)
  {
    exists k :: k in es && k.1 == u && es[k].aclId == id
  }

  /** The hmap entries after `ops_xp_cls_apply` of a list that passed
      validation: the entry at `k` counts one more interface, or enters
      as `newEntry` when it was not there. */
  function AppliedEntries(es: AclMap, k: (AclType, Uuid), newEntry: AclEntry): AclMap
    requires k in es ==> es[k].numIntfs < UINT16_LIMIT
  {
    if k in es then es[k := es[k].(numIntfs := Inc16(es[k].numIntfs))] else es[k := newEntry]
  }

  /** The end of `ops_xp_cls_replace` on the entries: after a success the
      entry is deleted at zero interfaces, after a failure it counts its
      interface again. */
  function SettledEntries(es: AclMap, k: (AclType, Uuid), success: bool): AclMap
    requires k in es && es[k].numIntfs < UINT16_LIMIT
  {
    if success then (if es[k].numIntfs == 0 then es - {k} else es)
    else es[k := es[k].(numIntfs := Inc16(es[k].numIntfs))]
  }

  /** The entries after `ops_xp_cls_replace` found the original entry at
      `kOrig`: it gives up the interface, the new list is applied at
      `kNew` when it passed validation (`applied`), and the original is
      settled by the status. */
  function ReplacedEntries(es: AclMap, kOrig: (AclType, Uuid), kNew: (AclType, Uuid), newEntry: AclEntry,
                           applied: bool, success: bool): AclMap
    requires kOrig in es && CountsFit(es)
  {
    var detached := es[kOrig := es[kOrig].(numIntfs := Dec16(es[kOrig].numIntfs))];
    var mid := if applied then AppliedEntries(detached, kNew, newEntry) else detached;
    SettledEntries(mid, kOrig, success)
  }

  /** The allocator's ids after `ops_xp_cls_replace`: the new list's add
      allocates (`idsAfterAdd`) when it was not yet in its table, and the
      original's id is released when its entry is deleted and no other
      entry of its UUID carries it. */
  function ReplacedIds(es: AclMap, ids: set<nat>, kOrig: (AclType, Uuid), kNew: (AclType, Uuid), newEntry: AclEntry,
                       idsAfterAdd: set<nat>, applied: bool, success: bool): set<nat>
    requires kOrig in es && CountsFit(es)
  {
    var after := ReplacedEntries(es, kOrig, kNew, newEntry, applied, success);
    var appliedIds := if applied && kNew !in es then idsAfterAdd else ids;
    var origId := es[kOrig].aclId;
    if kOrig !in after && !HoldsId(after, kOrig.1, origId) then appliedIds - {origId} else appliedIds
  }

  /** A list refused by validation leaves the tables as they were: the
      interface the original gave up is counted again. */
  lemma {:induction false} RefusedReplaceKeepsTables(es: AclMap, ids: set<nat>, kOrig: (AclType, Uuid), kNew: (AclType, Uuid),
                                                     newEntry: AclEntry, idsAfterAdd: set<nat>)
    requires kOrig in es && CountsFit(es)
    ensures ReplacedEntries(es, kOrig, kNew, newEntry, false, false) == es
    ensures ReplacedIds(es, ids, kOrig, kNew, newEntry, idsAfterAdd, false, false) == ids
  {
    var e := es[kOrig];
    assert Inc16(Dec16(e.numIntfs)) == e.numIntfs;
    assert es[kOrig := e.(numIntfs := Dec16(e.numIntfs))][kOrig := e] == es;
  }

  /** Replacing by another list gives that list's entry the interface:
      one more on an entry already in the table, its id kept; a new entry
      counts one interface. */
  lemma {:induction false} ReplaceAttachesNewList(es: AclMap, kOrig: (AclType, Uuid), kNew: (AclType, Uuid),
                                                  newEntry: AclEntry, success: bool)
    requires kOrig in es && CountsFit(es) && kNew != kOrig && newEntry.numIntfs == 1
    ensures var r := ReplacedEntries(es, kOrig, kNew, newEntry, true, success);
            && kNew in r
            && (kNew in es ==> r[kNew] == es[kNew].(numIntfs := Inc16(es[kNew].numIntfs)) && r[kNew].aclId == es[kNew].aclId)
            && (kNew !in es ==> r[kNew] == newEntry && r[kNew].numIntfs == 1)
  {
  }

  /** Replacing by another list: the original entry loses the interface
      after a success, and is deleted when it reaches zero; after a
      failure it is as it was. */
  lemma {:induction false} ReplaceDetachesOriginal(es: AclMap, kOrig: (AclType, Uuid), kNew: (AclType, Uuid),
                                                   newEntry: AclEntry, applied: bool, success: bool)
    requires kOrig in es && CountsFit(es) && kNew != kOrig
    ensures var r := ReplacedEntries(es, kOrig, kNew, newEntry, applied, success);
            var n := Dec16(es[kOrig].numIntfs);
            && (success && n == 0 ==> kOrig !in r)
            && (success && n != 0 ==> kOrig in r && r[kOrig] == es[kOrig].(numIntfs := n))
            && (!success ==> kOrig in r && r[kOrig] == es[kOrig])
  {
    assert Inc16(Dec16(es[kOrig].numIntfs)) == es[kOrig].numIntfs;
  }

  /** Replacing a list by itself: a success leaves the entry as it was
      (deleting it only at a count of 0); a failure counts the interface
      a second time. */
  lemma {:induction false} ReplaceBySameList(es: AclMap, k: (AclType, Uuid), newEntry: AclEntry, success: bool)
    requires k in es && CountsFit(es)
    ensures var r := ReplacedEntries(es, k, k, newEntry, true, success);
            && (success && es[k].numIntfs != 0 ==> r == es)
            && (success && es[k].numIntfs == 0 ==> r == es - {k})
            && (!success ==> r == es[k := es[k].(numIntfs := Inc16(es[k].numIntfs))])
  {
    var e := es[k];
    assert Inc16(Dec16(e.numIntfs)) == e.numIntfs;
    assert es[k := e.(numIntfs := Dec16(e.numIntfs))][k := e] == es;
  }

  /** No entry but the original's and the new list's changes, and only
      the new list's can appear. */
  lemma {:induction false} ReplaceFrame(es: AclMap, kOrig: (AclType, Uuid), kNew: (AclType, Uuid), newEntry: AclEntry,
                                        applied: bool, success: bool)
    requires kOrig in es && CountsFit(es)
    ensures var r := ReplacedEntries(es, kOrig, kNew, newEntry, applied, success);
            && (forall k :: k in es && k != kOrig && k != kNew ==> k in r && r[k] == es[k])
            && (forall k :: k in r ==> k in es || k == kNew)
  {
  }

  /** The original's id leaves the allocator only when its entry is
      deleted and no entry of its UUID is left with it; the new list's
      allocation is kept unless it is that same id. */
  lemma {:induction false} ReplacedIdsRelease(es: AclMap, ids: set<nat>, kOrig: (AclType, Uuid), kNew: (AclType, Uuid),
                                              newEntry: AclEntry, idsAfterAdd: set<nat>, applied: bool, success: bool)
    requires kOrig in es && CountsFit(es)
    ensures var after := ReplacedEntries(es, kOrig, kNew, newEntry, applied, success);
            var r := ReplacedIds(es, ids, kOrig, kNew, newEntry, idsAfterAdd, applied, success);
            var appliedIds := if applied && kNew !in es then idsAfterAdd else ids;
            var origId := es[kOrig].aclId;
            && r - {origId} == appliedIds - {origId}
            && (origId in appliedIds && origId !in r <==> origId in appliedIds && kOrig !in after && !HoldsId(after, kOrig.1, origId))
  {
  }

  /** The PACL, BACL and RACL hmaps, keyed by table type and list UUID,
      and the set of ACL ids the SDK allocator has handed out. */
  class AclTables {
    var entries: map<(AclType, Uuid), AclEntry>
    var allocatedIds: set<nat>

    /** Only ingress tables hold entries, counts fit their 16 bits, and
        all entries of one UUID share an ACL id. */
    ghost predicate Valid()
      reads this
    {
      && (forall k :: k in entries ==> HasShadowTable(k.0) && entries[k].numIntfs < UINT16_LIMIT)
      && (forall k1, k2 :: k1 in entries && k2 in entries && k1.1 == k2.1 ==> entries[k1].aclId == entries[k2].aclId)
    }

    /** Every entry is applied to at least one interface. */
    ghost predicate Attached()
      reads this
    {
      forall k :: k in entries ==> entries[k].numIntfs >= 1
    }

    constructor ()
      ensures Valid() && Attached() && entries == map[] && allocatedIds == {}
    {
      entries := map[];
      allocatedIds := {};
    }

    /** The ACL id an existing entry of the UUID carries: the add path
        scans PACL, BACL and RACL and keeps the last match. */
    function SharedAclId(u: Uuid): (r: Option<nat>)
      reads this
      ensures r.None? <==> (Iacl0, u) !in entries && (Iacl1, u) !in entries && (Iacl2, u) !in entries
      ensures r.Some? ==> exists t :: (t, u) in entries && entries[(t, u)].aclId == r.value
    {
      if (Iacl2, u) in entries then Some(entries[(Iacl2, u)].aclId)
      else if (Iacl1, u) in entries then Some(entries[(Iacl1, u)].aclId)
      else if (Iacl0, u) in entries then Some(entries[(Iacl0, u)].aclId)
      else None
    }

    /** The id an added entry of the UUID receives. */
    function AclIdFor(u: Uuid, newId: nat): nat
      reads this
    {
      if SharedAclId(u).Some? then SharedAclId(u).value else newId
    }

    /** The allocator's ids after adding an entry of the UUID. */
    function IdsAfterAdd(u: Uuid, allocOk: bool, newId: nat): set<nat>
      reads this
    {
      if SharedAclId(u).None? && allocOk then allocatedIds + {newId} else allocatedIds
    }

    /** Some remaining entry with the UUID still carries the id. */
    predicate StillReferenced(u: Uuid, id: nat)
      reads this
    {
      HoldsId(entries, u, id)
    }

    /** `ops_xp_cls_acl_add`: the ACL id of another table's entry of the
        same UUID is reused, otherwise the SDK allocates `newId` (when
        `allocOk`; on failure the status is HW_RESOURCE_ERR and the entry
        keeps `newId`, standing for the uninitialised byte). The entry,
        not yet counted on any interface, enters the hmap of its type; an
        egress or invalid type has none. */
    method AclAdd(u: Uuid, cls: seq<ClsEntry>, kind: InterfaceKind, l3Only: bool, dir: Direction,
                  allocOk: bool, newId: nat, tcamIndex: seq<nat>) returns (status: PdStatus)
      requires Valid()
      requires |tcamIndex| == |cls|
      requires (GetType(kind, l3Only, dir), u) !in entries
      modifies this
      ensures Valid()
      ensures var t := GetType(kind, l3Only, dir);
              && (HasShadowTable(t) ==>
                    entries == old(entries)[(t, u) := AclEntry(old(AclIdFor(u, newId)), 0, RuleList(cls, tcamIndex),
                                                               kind, l3Only, dir)])
              && (!HasShadowTable(t) ==> entries == old(entries))
      ensures allocatedIds == old(IdsAfterAdd(u, allocOk, newId))
      ensures status == PdStatus(if old(SharedAclId(u)).None? && !allocOk then StatusHwResourceErr else StatusSuccess, 0)
    {
      status := PdStatus(StatusSuccess, 0);
      var shared := SharedAclId(u);
      var id := newId;
      if shared.Some? {
        id := shared.value;
      } else {
        if !allocOk {
          status := PdStatus(StatusHwResourceErr, 0);
        } else {
          allocatedIds := allocatedIds + {newId};
        }
      }
      var rules := CreateRuleEntryList(cls, tcamIndex);
      var t := GetType(kind, l3Only, dir);
      if HasShadowTable(t) {
        entries := entries[(t, u) := AclEntry(id, 0, rules, kind, l3Only, dir)];
      }
    }

    /** `ops_xp_cls_acl_delete`: the entry leaves its hmap, and its ACL id
        is released only when no remaining entry of the UUID carries it. */
    method AclDelete(t: AclType, u: Uuid)
      requires Valid() && (t, u) in entries
      modifies this
      ensures Valid()
      ensures entries == old(entries) - {(t, u)}
      ensures var id := old(entries[(t, u)].aclId);
              allocatedIds == (if StillReferenced(u, id) then old(allocatedIds) else old(allocatedIds) - {id})
    {
      var id := entries[(t, u)].aclId;
      entries := entries - {(t, u)};
      var inUse := false;
      if (Iacl0, u) in entries && entries[(Iacl0, u)].aclId == id {
        inUse := true;
      }
      if (Iacl1, u) in entries && entries[(Iacl1, u)].aclId == id {
        inUse := true;
      }
      if (Iacl2, u) in entries && entries[(Iacl2, u)].aclId == id {
        inUse := true;
      }
      assert inUse <==> StillReferenced(u, id);
      if !inUse {
        allocatedIds := allocatedIds - {id};
      }
    }

    /** `ops_xp_cls_apply`. `bundleOk` says the bundle exists and, for an
        L3-only ACL, has its L3 interface; `pdIn` is the caller's status.
        Entries that fail validation stop here with return code 0. A
        classifier not yet in the hmap of its type is added; either way
        its interface count goes up by one. The status the add path
        produces stays local (the code reassigns its own copy of the
        pointer), so the caller only sees the validation outcome. */
    method Apply(u: Uuid, cls: seq<ClsEntry>, kind: InterfaceKind, l3Only: bool, dir: Direction,
                 bundleOk: bool, pdIn: PdStatus, allocOk: bool, newId: nat, tcamIndex: seq<nat>)
      returns (rc: int, pd: PdStatus)
      requires Valid()
      requires |tcamIndex| == |cls|
      modifies this
      ensures Valid()
      ensures !bundleOk ==> rc == EPERM && pd == pdIn && entries == old(entries) && allocatedIds == old(allocatedIds)
      ensures bundleOk ==> rc == OK && pd == ValidatedStatus(cls, pdIn)
      ensures bundleOk && pd.code == StatusHwUnsupported ==>
                entries == old(entries) && allocatedIds == old(allocatedIds)
      ensures bundleOk && pd.code != StatusHwUnsupported ==>
                var t := GetType(kind, l3Only, dir);
                && (HasShadowTable(t) && (t, u) in old(entries) ==>
                      && entries == old(entries)[(t, u) := old(entries)[(t, u)].(numIntfs := Inc16(old(entries)[(t, u)].numIntfs))]
                      && allocatedIds == old(allocatedIds))
                && (HasShadowTable(t) && (t, u) !in old(entries) ==>
                      && entries == old(entries)[(t, u) := AclEntry(old(AclIdFor(u, newId)), 1, RuleList(cls, tcamIndex),
                                                                    kind, l3Only, dir)]
                      && allocatedIds == old(IdsAfterAdd(u, allocOk, newId)))
                && (!HasShadowTable(t) ==>
                      entries == old(entries) && allocatedIds == old(IdsAfterAdd(u, allocOk, newId)))
      ensures forall k :: k in old(entries) ==> k in entries
      ensures forall k :: k in old(entries) && k.1 != u ==> entries[k] == old(entries)[k]
      ensures old(Attached()) && (forall k :: k in old(entries) ==> old(entries)[k].numIntfs + 1 < UINT16_LIMIT) ==>
                Attached()
    {
      if !bundleOk {
        return EPERM, pdIn;
      }
      pd := ValidateEntries(cls, pdIn);
      if pd.code == StatusHwUnsupported {
        return OK, pd;
      }
      var t := GetType(kind, l3Only, dir);
      if HasShadowTable(t) && (t, u) in entries {
        AttachAgain(t, u);
      } else {
        AddAttached(u, cls, kind, l3Only, dir, allocOk, newId, tcamIndex);
      }
      rc := OK;
    }

    /** The path of `ops_xp_cls_apply` for a classifier already in its
        hmap: one more interface. */
    method AttachAgain(t: AclType, u: Uuid)
      requires Valid() && (t, u) in entries
      modifies `entries
      ensures Valid()
      ensures entries == old(entries)[(t, u) := old(entries)[(t, u)].(numIntfs := Inc16(old(entries)[(t, u)].numIntfs))]
      ensures old(Attached()) && old(entries)[(t, u)].numIntfs + 1 < UINT16_LIMIT ==> Attached()
    {
      var e := entries[(t, u)];
      entries := entries[(t, u) := e.(numIntfs := Inc16(e.numIntfs))];
    }

    /** The path of `ops_xp_cls_apply` for a new classifier: `xp_cls_add`,
        after which the entry counts its first interface. */
    method AddAttached(u: Uuid, cls: seq<ClsEntry>, kind: InterfaceKind, l3Only: bool, dir: Direction,
                       allocOk: bool, newId: nat, tcamIndex: seq<nat>)
      requires Valid()
      requires |tcamIndex| == |cls|
      requires (GetType(kind, l3Only, dir), u) !in entries
      modifies this
      ensures Valid()
      ensures var t := GetType(kind, l3Only, dir);
              && (HasShadowTable(t) ==>
                    entries == old(entries)[(t, u) := AclEntry(old(AclIdFor(u, newId)), 1, RuleList(cls, tcamIndex),
                                                               kind, l3Only, dir)])
              && (!HasShadowTable(t) ==> entries == old(entries))
      ensures allocatedIds == old(IdsAfterAdd(u, allocOk, newId))
      ensures old(Attached()) ==> Attached()
    {
      var addStatus := AclAdd(u, cls, kind, l3Only, dir, allocOk, newId, tcamIndex);
      var t := GetType(kind, l3Only, dir);
      if HasShadowTable(t) {
        var e := entries[(t, u)];
        entries := entries[(t, u) := e.(numIntfs := 1)];
      }
    }

    /** `ops_xp_cls_remove`: an applied classifier loses one interface and
        is deleted when its count reaches zero; an unknown one is ignored. */
    method Remove(u: Uuid, kind: InterfaceKind, l3Only: bool, dir: Direction, bundleOk: bool) returns (rc: int)
      requires Valid()
      modifies this
      ensures Valid()
      ensures !bundleOk ==> rc == EPERM
      ensures bundleOk ==> rc == OK
      ensures var t := GetType(kind, l3Only, dir);
              !bundleOk || (t, u) !in old(entries) ==> entries == old(entries) && allocatedIds == old(allocatedIds)
      ensures var t := GetType(kind, l3Only, dir);
              bundleOk && (t, u) in old(entries) && Dec16(old(entries)[(t, u)].numIntfs) != 0 ==>
                && entries == old(entries)[(t, u) := old(entries)[(t, u)].(numIntfs := Dec16(old(entries)[(t, u)].numIntfs))]
                && allocatedIds == old(allocatedIds)
      ensures var t := GetType(kind, l3Only, dir);
              bundleOk && (t, u) in old(entries) && Dec16(old(entries)[(t, u)].numIntfs) == 0 ==>
                && entries == old(entries) - {(t, u)}
                && var id := old(entries)[(t, u)].aclId;
                   allocatedIds == (if StillReferenced(u, id) then old(allocatedIds) else old(allocatedIds) - {id})
      ensures old(Attached()) ==> Attached()
    {
      if !bundleOk {
        return EPERM;
      }
      var t := GetType(kind, l3Only, dir);
      if (t, u) in entries {
        var e := entries[(t, u)];
        var n := Dec16(e.numIntfs);
        entries := entries[(t, u) := e.(numIntfs := n)];
        if n == 0 {
          AclDelete(t, u);
        }
      }
      rc := OK;
    }

    /** `ops_xp_cls_replace`: the original classifier gives up the
        interface, the new list is applied, and then the original is
        deleted at zero interfaces if the status reads success, or gets
        its interface back otherwise. */
    method Replace(uOrig: Uuid, uNew: Uuid, cls: seq<ClsEntry>, kind: InterfaceKind, l3Only: bool, dir: Direction,
                   bundleOk: bool, pdIn: PdStatus, allocOk: bool, newId: nat, tcamIndex: seq<nat>)
      returns (rc: int, pd: PdStatus)
      requires Valid()
      requires |tcamIndex| == |cls|
      modifies this
      ensures Valid()
      ensures !bundleOk ==> rc == EPERM && entries == old(entries) && allocatedIds == old(allocatedIds)
      ensures bundleOk ==> rc == OK
      ensures var t := GetType(kind, l3Only, dir);
              bundleOk && (t, uOrig) !in old(entries) ==>
                pd == pdIn && entries == old(entries) && allocatedIds == old(allocatedIds)
      ensures var t := GetType(kind, l3Only, dir);
              bundleOk && (t, uOrig) in old(entries) ==> pd == ValidatedStatus(cls, pdIn)
      ensures var t := GetType(kind, l3Only, dir);
              bundleOk && (t, uOrig) in old(entries) && uNew != uOrig && pd.code != StatusSuccess ==>
                (t, uOrig) in entries && entries[(t, uOrig)] == old(entries)[(t, uOrig)]
      ensures var t := GetType(kind, l3Only, dir);
              bundleOk && (t, uOrig) in old(entries) && uNew != uOrig && pd.code == StatusSuccess ==>
                var n := Dec16(old(entries)[(t, uOrig)].numIntfs);
                && (n == 0 ==> (t, uOrig) !in entries)
                && (n != 0 ==> (t, uOrig) in entries && entries[(t, uOrig)] == old(entries)[(t, uOrig)].(numIntfs := n))
      // The whole new state, as the replace reference gives it.
      ensures var t := GetType(kind, l3Only, dir);
              bundleOk && (t, uOrig) in old(entries) ==>
                var newEntry := AclEntry(old(AclIdFor(uNew, newId)), 1, RuleList(cls, tcamIndex), kind, l3Only, dir);
                && entries == ReplacedEntries(old(entries), (t, uOrig), (t, uNew), newEntry,
                                              pd.code != StatusHwUnsupported, pd.code == StatusSuccess)
                && allocatedIds == ReplacedIds(old(entries), old(allocatedIds), (t, uOrig), (t, uNew), newEntry,
                                               old(IdsAfterAdd(uNew, allocOk, newId)),
                                               pd.code != StatusHwUnsupported, pd.code == StatusSuccess)
    {
      if !bundleOk {
        return EPERM, pdIn;
      }
      pd := pdIn;
      var t := GetType(kind, l3Only, dir);
      if (t, uOrig) in entries {
        ghost var es := entries;
        ghost var newEntry := AclEntry(AclIdFor(uNew, newId), 1, RuleList(cls, tcamIndex), kind, l3Only, dir);
        pd := ReplaceFound(t, uOrig, uNew, cls, kind, l3Only, dir, pd, allocOk, newId, tcamIndex);
        if uNew != uOrig {
          ReplaceDetachesOriginal(es, (t, uOrig), (t, uNew), newEntry, pd.code != StatusHwUnsupported, pd.code == StatusSuccess);
        }
      }
      rc := OK;
    }

    /** The body of `ops_xp_cls_replace` once the original entry is found
        at `(t, uOrig)`: it gives up the interface, the new list is
        applied, and the original is settled by the status. */
    method ReplaceFound(t: AclType, uOrig: Uuid, uNew: Uuid, cls: seq<ClsEntry>, kind: InterfaceKind, l3Only: bool,
                        dir: Direction, pdIn: PdStatus, allocOk: bool, newId: nat, tcamIndex: seq<nat>)
      returns (pd: PdStatus)
      requires Valid()
      requires |tcamIndex| == |cls|
      requires t == GetType(kind, l3Only, dir) && (t, uOrig) in entries
      modifies this
      ensures Valid()
      ensures pd == ValidatedStatus(cls, pdIn)
      ensures var newEntry := AclEntry(old(AclIdFor(uNew, newId)), 1, RuleList(cls, tcamIndex), kind, l3Only, dir);
              && entries == ReplacedEntries(old(entries), (t, uOrig), (t, uNew), newEntry,
                                            pd.code != StatusHwUnsupported, pd.code == StatusSuccess)
              && allocatedIds == ReplacedIds(old(entries), old(allocatedIds), (t, uOrig), (t, uNew), newEntry,
                                             old(IdsAfterAdd(uNew, allocOk, newId)),
                                             pd.code != StatusHwUnsupported, pd.code == StatusSuccess)
    {
      var e := entries[(t, uOrig)];
      var detached := e.(numIntfs := Dec16(e.numIntfs));
      ghost var es := entries;
      ghost var ids := allocatedIds;
      ghost var idsAfterAdd := IdsAfterAdd(uNew, allocOk, newId);
      ghost var shared := SharedAclId(uNew);
      entries := entries[(t, uOrig) := detached];
      assert SharedAclId(uNew) == shared;
      assert IdsAfterAdd(uNew, allocOk, newId) == idsAfterAdd;
      pd := ApplyInReplace(uNew, cls, kind, l3Only, dir, pdIn, allocOk, newId, tcamIndex);
      ghost var appliedIds := if pd.code != StatusHwUnsupported && (t, uNew) !in es then idsAfterAdd else ids;
      assert allocatedIds == appliedIds;
      assert (t, uOrig) in entries && entries[(t, uOrig)].aclId == e.aclId;
      Settle(t, uOrig, pd.code == StatusSuccess);
    }

    /** `ops_xp_cls_apply` as `ops_xp_cls_replace` calls it, with the
        bundle known to exist and an ingress table type. */
    method ApplyInReplace(u: Uuid, cls: seq<ClsEntry>, kind: InterfaceKind, l3Only: bool, dir: Direction,
                          pdIn: PdStatus, allocOk: bool, newId: nat, tcamIndex: seq<nat>)
      returns (pd: PdStatus)
      requires Valid()
      requires |tcamIndex| == |cls|
      requires HasShadowTable(GetType(kind, l3Only, dir))
      modifies this
      ensures Valid()
      ensures pd == ValidatedStatus(cls, pdIn)
      ensures pd.code == StatusHwUnsupported ==> entries == old(entries) && allocatedIds == old(allocatedIds)
      ensures pd.code != StatusHwUnsupported ==>
                var k := (GetType(kind, l3Only, dir), u);
                && entries == AppliedEntries(old(entries), k, AclEntry(old(AclIdFor(u, newId)), 1, RuleList(cls, tcamIndex),
                                                                       kind, l3Only, dir))
                && allocatedIds == (if k in old(entries) then old(allocatedIds) else old(IdsAfterAdd(u, allocOk, newId)))
    {
      var rc;
      rc, pd := Apply(u, cls, kind, l3Only, dir, true, pdIn, allocOk, newId, tcamIndex);
    }

    /** The end of a replace: the original entry is deleted at zero
        interfaces after a successful apply, and gets its interface back
        after a failed one. */
    method Settle(t: AclType, u: Uuid, success: bool)
      requires Valid() && (t, u) in entries
      modifies this
      ensures Valid()
      ensures var e := old(entries)[(t, u)];
              && (success && e.numIntfs == 0 ==> entries == old(entries) - {(t, u)})
              && (success && e.numIntfs != 0 ==> entries == old(entries) && allocatedIds == old(allocatedIds))
              && (!success ==> entries == old(entries)[(t, u) := e.(numIntfs := Inc16(e.numIntfs))]
                               && allocatedIds == old(allocatedIds))
      ensures entries == SettledEntries(old(entries), (t, u), success)
      ensures var id := old(entries)[(t, u)].aclId;
              allocatedIds == (if (t, u) !in entries && !HoldsId(entries, u, id) then old(allocatedIds) - {id} else old(allocatedIds))
    {
      if success {
        if entries[(t, u)].numIntfs == 0 {
          AclDelete(t, u);
        }
      } else {
        var e := entries[(t, u)];
        entries := entries[(t, u) := e.(numIntfs := Inc16(e.numIntfs))];
      }
    }
  }
}
