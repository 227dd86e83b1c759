/** The netlink side of the password server's client lookup: the
    attributes of a `unix_diag_msg` reply are walked with `RTA_OK` /
    `RTA_NEXT` into a table indexed by attribute type, and the peer inode
    is read from the table. A reply is given as its header fields and the
    attribute headers laid out one after another; the socket I/O is not
    modelled. */
module PasswdNetlink {
  import opened Common
  import opened PasswdPub

  /** `UNIX_DIAG_PEER` and `UNIX_DIAG_MAX` of the Linux 4.x
      `linux/unix_diag.h` (NAME, VFS, PEER, ICONS, RQLEN, MEMINFO,
      SHUTDOWN). */
  const UNIX_DIAG_PEER: nat := 2
  const UNIX_DIAG_MAX: nat := 6

  /** `sizeof(struct rtattr)`. */
  const RTA_HDR_LEN: nat := 4

  /** `NLMSG_LENGTH(sizeof(struct unix_diag_msg))`: a 16-byte netlink
      header and a 16-byte `unix_diag_msg`. */
  const NLMSG_DIAG_LEN: nat := 32

  const U16: nat := 0x1_0000
  const U32: nat := 0x1_0000_0000

  /** One attribute header: `rta_len`, `rta_type` (16 bits) and the u32
      at `RTA_DATA`. */
  datatype Attr = Attr(rtaLen: nat, rtaType: nat, value: nat)

  /** `RTA_ALIGN`: rounded up to a multiple of 4. */
  function RtaAlign(n: nat): (r: nat)
    ensures n <= r < n + 4 && r % 4 == 0
  {
    (n + 3) / 4 * 4
  }

  /** `RTA_OK(rta, len)` for the attribute at the head of `attrs`. */
  predicate RtaOk(attrs: seq<Attr>, len: int)
  {
    attrs != [] && len >= RTA_HDR_LEN as int && attrs[0].rtaLen >= RTA_HDR_LEN && attrs[0].rtaLen as int <= len
  }

  /** How many attributes the walk visits: it moves on while `RTA_OK`
      holds, taking `RTA_ALIGN(rta_len)` off the remaining length. */
  function Visits(attrs: seq<Attr>, len: int): (n: nat)
    ensures n <= |attrs|
    decreases |attrs|
  {
    if !RtaOk(attrs, len) then 0 else 1 + Visits(attrs[1..], len - RtaAlign(attrs[0].rtaLen) as int)
  }

  lemma VisitsStep(attrs: seq<Attr>, i: nat, len: int)
    requires i < |attrs| && RtaOk(attrs[i..], len)
    ensures Visits(attrs[i..], len) == 1 + Visits(attrs[i + 1..], len - RtaAlign(attrs[i].rtaLen) as int)
  {
    assert attrs[i..][1..] == attrs[i + 1..];
  }

  /** The space a well-formed attribute list takes. */
  function Footprint(attrs: seq<Attr>): nat
  {
    if attrs == [] then 0 else RtaAlign(attrs[0].rtaLen) + Footprint(attrs[1..])
  }

  /** A list whose headers are all well-formed and that fits in the
      length is visited in full. */
  lemma {:induction false} WellFormedIsVisited(attrs: seq<Attr>, len: int)
    requires forall j :: 0 <= j < |attrs| ==> attrs[j].rtaLen >= RTA_HDR_LEN
    requires Footprint(attrs) as int <= len
    ensures Visits(attrs, len) == |attrs|
    decreases |attrs|
  {
    if attrs != [] {
      assert attrs[0].rtaLen >= RTA_HDR_LEN;
      WellFormedIsVisited(attrs[1..], len - RtaAlign(attrs[0].rtaLen) as int);
    }
  }

  /** `a & ~b` on the low `k` bits. */
  function AndNot(a: nat, b: nat, k: nat): (r: nat)
    ensures r < Pow2(k)
  {
    if k == 0 then 0
    else (if b % 2 == 1 then 0 else a % 2) + 2 * AndNot(a / 2, b / 2, k - 1)
  }

  /** `rta_type & ~flags` as an unsigned short. */
  function MaskType(rtaType: nat, flags: nat): (t: nat)
    ensures t < U16
  {
    Pow2Is16();
    AndNot(rtaType, flags, 16)
  }

  lemma Pow2Is16()
    ensures Pow2(16) == U16
  {
    assert Pow2(4) == 16;
    assert Pow2(8) == 256;
    assert Pow2(12) == 4096;
  }

  /** Masking with no flags keeps a value that fits in the bits. */
  lemma {:induction false} AndNotNothing(a: nat, k: nat)
    requires a < Pow2(k)
    ensures AndNot(a, 0, k) == a
  {
    if k > 0 {
      AndNotNothing(a / 2, k - 1);
    }
  }

  /** With flags 0, as `get_peer_inode` passes them, the type is
      `rta_type` itself. */
  lemma NoFlagsKeepType(rtaType: nat)
    requires rtaType < U16
    ensures MaskType(rtaType, 0) == rtaType
  {
    Pow2Is16();
    AndNotNothing(rtaType, 16);
  }

  /** A flag bit clears the same bit of the type: with the lowest bit in
      the flags, the masked type is even. */
  lemma LowFlagClearsLowBit(rtaType: nat, flags: nat)
    requires flags % 2 == 1
    ensures MaskType(rtaType, flags) % 2 == 0
  {
  }

  /** The table entry of type `t` after the first `n` attributes: the
      first of them whose masked type is `t`. */
  function FirstTyped(attrs: seq<Attr>, n: nat, flags: nat, t: nat): (r: Option<nat>)
    requires n <= |attrs|
    ensures r.Some? ==> r.value < n
  {
    if n == 0 then None
    else match FirstTyped(attrs, n - 1, flags, t) {
      case Some(j) => Some(j)
      case None => if MaskType(attrs[n - 1].rtaType, flags) == t then Some(n - 1) else None
    }
  }

  /** The entry `FirstTyped` picks has masked type t and no earlier one
      has; without an entry, none of the first n has. */
  lemma {:induction false} FirstTypedIsFirst(attrs: seq<Attr>, n: nat, flags: nat, t: nat)
    requires n <= |attrs|
    ensures var r := FirstTyped(attrs, n, flags, t);
            && (r.Some? ==> MaskType(attrs[r.value].rtaType, flags) == t)
            && (r.Some? ==> forall j :: 0 <= j < r.value ==> MaskType(attrs[j].rtaType, flags) != t)
            && (r.None? ==> forall j :: 0 <= j < n ==> MaskType(attrs[j].rtaType, flags) != t)
  {
    if n > 0 {
      FirstTypedIsFirst(attrs, n - 1, flags, t);
    }
  }

  /** The table `parse_socket_attributes` fills for a message. */
  ghost predicate TableFilled(table: seq<Option<nat>>, attrs: seq<Attr>, msgLen: int, flags: nat)
  {
    |table| == UNIX_DIAG_MAX + 1 &&
    forall t :: 0 <= t < |table| ==> table[t] == FirstTyped(attrs, Visits(attrs, msgLen), flags, t)
  }

  /** Entry `t` of the table is the first of the first `n` attributes of
      masked type `t`. */
  ghost predicate FilledUpTo(table: seq<Option<nat>>, attrs: seq<Attr>, n: nat, flags: nat)
    requires n <= |attrs|
  {
    forall t :: 0 <= t < |table| ==> table[t] == FirstTyped(attrs, n, flags, t)
  }

  /** Visiting attribute n fills its type's entry if that is still empty. */
  lemma FilledStep(table: seq<Option<nat>>, attrs: seq<Attr>, n: nat, flags: nat)
    requires n < |attrs| && FilledUpTo(table, attrs, n, flags)
    ensures var t := MaskType(attrs[n].rtaType, flags);
            FilledUpTo(if t < |table| && table[t].None? then table[t := Some(n)] else table, attrs, n + 1, flags)
  {
  }

  /** `parse_socket_attributes`: a NULL table or message is FATAL and
      touches nothing; otherwise the table is cleared and entry `t` is the
      first visited attribute of masked type `t`; types above
      UNIX_DIAG_MAX are skipped. */
  method ParseSocketAttributes(table: array?<Option<nat>>, msg: Option<seq<Attr>>, msgLen: int, flags: nat)
    returns (rc: int)
    requires table != null ==> table.Length == UNIX_DIAG_MAX + 1
    modifies table
    ensures table == null || msg.None? ==> rc == PASSWD_ERR_FATAL
    ensures table != null && msg.None? ==> table[..] == old(table[..])
    ensures table != null && msg.Some? ==> rc == PASSWD_ERR_SUCCESS && TableFilled(table[..], msg.value, msgLen, flags)
  {
    if table == null || msg.None? {
      return PASSWD_ERR_FATAL;
    }
    var attrs := msg.value;
    for t := 0 to table.Length
      invariant forall u :: 0 <= u < t ==> table[u].None?
    {
      table[t] := None;
    }
    WalkAttributes(table, attrs, msgLen, flags);
    rc := PASSWD_ERR_SUCCESS;
  }

  /** The `RTA_OK` / `RTA_NEXT` walk of `parse_socket_attributes` over a
      cleared table. */
  method WalkAttributes(table: array<Option<nat>>, attrs: seq<Attr>, msgLen: int, flags: nat)
    requires table.Length == UNIX_DIAG_MAX + 1 && forall t :: 0 <= t < table.Length ==> table[t].None?
    modifies table
    ensures TableFilled(table[..], attrs, msgLen, flags)
  {
    var i := 0;
    var len := msgLen;
    while RtaOk(attrs[i..], len)
      invariant 0 <= i <= |attrs|
      invariant i + Visits(attrs[i..], len) == Visits(attrs, msgLen)
      invariant FilledUpTo(table[..], attrs, i, flags)
      decreases |attrs| - i
    {
      VisitsStep(attrs, i, len);
      VisitOne(table, attrs, i, flags);
      len := len - RtaAlign(attrs[i].rtaLen) as int;
      i := i + 1;
    }
    assert i == Visits(attrs, msgLen);
  }

  /** One visited attribute: its masked type's entry is set to it unless
      the type is above UNIX_DIAG_MAX or the entry is already set. */
  method VisitOne(table: array<Option<nat>>, attrs: seq<Attr>, i: nat, flags: nat)
    requires table.Length == UNIX_DIAG_MAX + 1
    requires i < |attrs| && FilledUpTo(table[..], attrs, i, flags)
    modifies table
    ensures FilledUpTo(table[..], attrs, i + 1, flags)
  {
    ghost var before := table[..];
    FilledStep(before, attrs, i, flags);
    var type_ := MaskType(attrs[i].rtaType, flags);
    if type_ <= UNIX_DIAG_MAX && table[type_].None? {
      table[type_] := Some(i);
      assert table[..] == before[type_ := Some(i)];
    }
  }

  /** `get_attribute_from_array`: 0 for a NULL entry, the u32 otherwise. */
  function AttributeValue(attrs: seq<Attr>, entry: Option<nat>): (v: nat)
    requires entry.Some? ==> entry.value < |attrs|
    ensures entry.None? ==> v == 0
    ensures entry.Some? ==> v == attrs[entry.value].value
  {
    if entry.None? then 0 else attrs[entry.value].value
  }

  /** A u32 reinterpreted as a 32-bit int. */
  function ToInt32(v: nat): (r: int)
    requires v < U32
    ensures 0 <= v < U32 / 2 ==> r == v
    ensures -(U32 / 2) as int <= r < (U32 / 2) as int
  {
    if v < U32 / 2 then v else v - U32
  }

  /** A received `unix_diag_msg`: `nlmsg_len`, `udiag_ino` and the
      attributes after it. */
  datatype DiagMsg = DiagMsg(nlmsgLen: nat, udiagIno: nat, attrs: seq<Attr>)

  predicate WellTyped(m: DiagMsg)
  {
    m.nlmsgLen < U32 && m.udiagIno < U32 &&
    forall j :: 0 <= j < |m.attrs| ==> m.attrs[j].rtaType < U16 && m.attrs[j].value < U32
  }

  /** The attribute length `get_peer_inode` passes: the unsigned
      difference, as an int. */
  function AttrLength(m: DiagMsg): int
    requires m.nlmsgLen < U32
  {
    ToInt32((m.nlmsgLen - NLMSG_DIAG_LEN) % U32)
  }

  /** The peer inode a reply yields: 0 for NULL, for a reply about another
      socket (the server inode compared as unsigned) and for a reply
      without a PEER attribute; else the first PEER attribute's value as
      an int. */
  function PeerInodeOf(msg: Option<DiagMsg>, srvIno: int): (r: int)
    requires msg.Some? ==> WellTyped(msg.value)
    ensures msg.None? ==> r == 0
    ensures msg.Some? && srvIno % U32 != msg.value.udiagIno ==> r == 0
    ensures msg.Some? && srvIno % U32 == msg.value.udiagIno ==>
              var m := msg.value;
              var peer := FirstTyped(m.attrs, Visits(m.attrs, AttrLength(m)), 0, UNIX_DIAG_PEER);
              r == if peer.None? then 0 else ToInt32(m.attrs[peer.value].value)
  {
    if msg.None? then 0
    else
      var m := msg.value;
      if srvIno % U32 != m.udiagIno then 0
      else
        var peer := FirstTyped(m.attrs, Visits(m.attrs, AttrLength(m)), 0, UNIX_DIAG_PEER);
        if peer.None? then 0 else ToInt32(AttributeValue(m.attrs, peer))
  }

  /** `get_peer_inode`. */
  method GetPeerInode(msg: Option<DiagMsg>, srvIno: int) returns (r: int)
    requires msg.Some? ==> WellTyped(msg.value)
    ensures r == PeerInodeOf(msg, srvIno)
  {
    if msg.None? {
      return 0;
    }
    var m := msg.value;
    var table := new Option<nat>[UNIX_DIAG_MAX + 1];
    var _ := ParseSocketAttributes(table, Some(m.attrs), AttrLength(m), 0);
    if srvIno % U32 != m.udiagIno {
      return 0;
    }
    var entry := table[UNIX_DIAG_PEER];
    if entry.Some? {
      r := ToInt32(AttributeValue(m.attrs, entry));
    } else {
      r := 0;
    }
  }

  /** In a well-formed reply about the server's socket whose PEER
      attribute is the only one of its type, the peer inode is that
      attribute's value. */
  lemma {:induction false} PeerIsFound(m: DiagMsg, srvIno: int, k: nat)
    requires WellTyped(m)
    requires forall j :: 0 <= j < |m.attrs| ==> m.attrs[j].rtaLen >= RTA_HDR_LEN
    requires Footprint(m.attrs) as int <= AttrLength(m)
    requires srvIno % U32 == m.udiagIno
    requires k < |m.attrs| && m.attrs[k].rtaType == UNIX_DIAG_PEER
    requires forall j :: 0 <= j < |m.attrs| && j != k ==> m.attrs[j].rtaType != UNIX_DIAG_PEER
    requires m.attrs[k].value < U32 / 2
    ensures PeerInodeOf(Some(m), srvIno) == m.attrs[k].value
  {
    WellFormedIsVisited(m.attrs, AttrLength(m));
    forall j | 0 <= j < |m.attrs|
      ensures MaskType(m.attrs[j].rtaType, 0) == m.attrs[j].rtaType
    {
      NoFlagsKeepType(m.attrs[j].rtaType);
    }
    var peer := FirstTyped(m.attrs, |m.attrs|, 0, UNIX_DIAG_PEER);
    FirstTypedIsFirst(m.attrs, |m.attrs|, 0, UNIX_DIAG_PEER);
    assert peer.Some? by {
      assert MaskType(m.attrs[k].rtaType, 0) == UNIX_DIAG_PEER;
    }
    assert peer.value == k;
  }
}
