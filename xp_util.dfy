/** Helpers of the XPliant plugin: bitmap XOR, address byte reversal, the
    netmask length, prefix-length parsing, frame classification and string
    equality. Bitmaps are sequences of bits (the C code stores them in
    machine words and XORs word by word, which is the same bit by bit). */
module XpUtil {
  import opened Common

  const ETH_ADDR_LEN: nat := 6
  const IPV4_ADDR_LEN: nat := 4
  const IPV6_ADDR_LEN: nat := 16
  /** sizeof(struct ethhdr) and sizeof(struct arp_hdr) (packed). */
  const ETH_HEADER_LEN: nat := 14
  const ARP_HEADER_LEN: nat := 28
  const ETH_TYPE_IP: int := 0x0800
  const ETH_TYPE_ARP: int := 0x0806
  const AF_INET: int := 2
  const AF_INET6: int := 10

  /** Bitwise XOR of two bitmaps of the same size. */
  function XorBits(a: seq<bool>, b: seq<bool>): (r: seq<bool>)
    requires |a| == |b|
    ensures |r| == |a|
    ensures forall i :: 0 <= i < |r| ==> (r[i] <==> a[i] != b[i])
  {
    seq(|a|, i requires 0 <= i < |a| => a[i] != b[i])
  }

  /** What `ops_xp_bitmap_xor` returns: with a NULL input a copy of the
      other input (NULL if both are NULL), otherwise the bitwise XOR. */
  function XorSpec(a: Option<seq<bool>>, b: Option<seq<bool>>): Option<seq<bool>>
    requires a.Some? && b.Some? ==> |a.value| == |b.value|
  {
    if a.None? then b
    else if b.None? then a
    else Some(XorBits(a.value, b.value))
  }

  /** XOR with the same bitmap twice gives back the original, which is
      what lets a caller recover the new set from the old set and the
      XOR of the two. */
  lemma XorCancel(a: seq<bool>, b: seq<bool>)
    requires |a| == |b|
    ensures XorBits(XorBits(a, b), b) == a
    ensures XorBits(a, b) == XorBits(b, a)
  {
    assert XorBits(XorBits(a, b), b) == a by {
      forall i | 0 <= i < |a|
        ensures XorBits(XorBits(a, b), b)[i] == a[i]
      {
      }
    }
  }

  /** The XOR of two bitmaps is all zero exactly when they are equal. */
  lemma XorZeroIffEqual(a: seq<bool>, b: seq<bool>)
    requires |a| == |b|
    ensures (forall i :: 0 <= i < |a| ==> !XorBits(a, b)[i]) <==> a == b
  {
    if forall i :: 0 <= i < |a| ==> !XorBits(a, b)[i] {
      forall i | 0 <= i < |a|
        ensures a[i] == b[i]
      {
        assert !XorBits(a, b)[i];
      }
    }
  }

  /** `ops_xp_bitmap_xor`: the word loop over the two bitmaps, bit by bit. */
  method BitmapXor(a: Option<seq<bool>>, b: Option<seq<bool>>, n: nat) returns (r: Option<seq<bool>>)
    requires a.Some? ==> |a.value| == n
    requires b.Some? ==> |b.value| == n
    ensures r == XorSpec(a, b)
  {
    if a.None? || b.None? {
      r := if a.Some? then a else if b.Some? then b else None;
      return;
    }
    var x := new bool[n];
    var i := 0;
    while i < n
      invariant 0 <= i <= n
      invariant forall k :: 0 <= k < i ==> (x[k] <==> a.value[k] != b.value[k])
    {
      x[i] := a.value[i] != b.value[i];
      i := i + 1;
    }
    assert x[..] == XorBits(a.value, b.value);
    r := Some(x[..]);
  }

  /** `ops_xp_mac_copy_and_reverse`: dst[i] = src[5 - i]. */
  method MacCopyAndReverse(dst: array<byte>, src: array<byte>)
    requires dst.Length == ETH_ADDR_LEN && src.Length == ETH_ADDR_LEN && dst != src
    modifies dst
    ensures forall i :: 0 <= i < ETH_ADDR_LEN ==> dst[i] == src[ETH_ADDR_LEN - 1 - i]
    ensures dst[..] == Reverse(src[..])
  {
    var i, j := 0, ETH_ADDR_LEN - 1;
    while i < ETH_ADDR_LEN
      invariant 0 <= i <= ETH_ADDR_LEN && j == ETH_ADDR_LEN - 1 - i
      invariant forall k :: 0 <= k < i ==> dst[k] == src[ETH_ADDR_LEN - 1 - k]
    {
      dst[i] := src[j];
      i, j := i + 1, j - 1;
    }
    forall k | 0 <= k < ETH_ADDR_LEN
      ensures dst[..][k] == Reverse(src[..])[k]
    {
      ReverseAt(src[..], k);
    }
  }

  /** `ops_xp_ip_addr_copy_and_reverse`: reverses the 16 bytes of an IPv6
      address or the 4 bytes of an IPv4 address; any further byte of dst is
      left as it was. */
  method IpAddrCopyAndReverse(dst: array<byte>, src: array<byte>, isIpv6: bool)
    requires dst != src
    requires var size := if isIpv6 then IPV6_ADDR_LEN else IPV4_ADDR_LEN;
             dst.Length >= size && src.Length >= size
    modifies dst
    ensures var size := if isIpv6 then IPV6_ADDR_LEN else IPV4_ADDR_LEN;
            && dst[..size] == Reverse(src[..size])
            && dst[size..] == old(dst[size..])
  {
    var size := if isIpv6 then IPV6_ADDR_LEN else IPV4_ADDR_LEN;
    var i, j := 0, size - 1;
    while i < size
      invariant 0 <= i <= size && j == size - 1 - i
      invariant forall k :: 0 <= k < i ==> dst[k] == src[size - 1 - k]
      invariant dst[size..] == old(dst[size..])
    {
      dst[i] := src[j];
      i, j := i + 1, j - 1;
    }
    forall k | 0 <= k < size
      ensures dst[..size][k] == Reverse(src[..size])[k]
    {
      ReverseAt(src[..size], k);
    }
  }

  /** `ops_xp_netmask_len_get`: the number of right shifts that bring the
      mask to 0, i.e. the index of its highest set bit plus one. */
  method NetmaskLenGet(netmask: nat) returns (len: nat)
    requires netmask < 0x1_0000_0000
    ensures len <= 32
    ensures netmask == 0 ==> len == 0
    ensures netmask > 0 ==> len >= 1 && Pow2(len - 1) <= netmask < Pow2(len)
  {
    var m := netmask;
    len := 0;
    ghost var p := 1;
    ShiftedStart(netmask);
    while m > 0
      invariant p == Pow2(len)
      invariant Shifted(m, p, netmask)
      invariant len > 0 ==> Pow2(len - 1) <= netmask
      decreases m
    {
      HalveStep(m, p, netmask);
      m, p := m / 2, 2 * p;
      len := len + 1;
    }
    ShiftedEnd(p, netmask);
    if len > 32 {
      PowMonotone(32, len - 1);
      Pow2Of32();
    }
  }

  /** `m` is the mask `x` shifted right by the bits `p` stands for. */
  ghost predicate Shifted(m: nat, p: nat, x: nat)
  {
    m * p <= x < (m + 1) * p
  }

  lemma ShiftedStart(x: nat)
    ensures Shifted(x, 1, x)
  {
  }

  lemma ShiftedEnd(p: nat, x: nat)
    requires Shifted(0, p, x)
    ensures x < p
  {
  }

  /** One right shift: if m is the mask shifted by k bits, m / 2 is the
      mask shifted by k + 1 bits, and 2^k does not exceed the mask. */
  lemma HalveStep(m: nat, p: nat, x: nat)
    requires m > 0 && p > 0
    requires Shifted(m, p, x)
    ensures Shifted(m / 2, 2 * p, x)
    ensures p <= x
  {
    var h, e := m / 2, m % 2;
    assert m == 2 * h + e;
    assert m * p == 2 * h * p + e * p;
    assert (m + 1) * p == 2 * h * p + e * p + p;
    assert (h + 1) * (2 * p) == 2 * h * p + 2 * p;
    assert h * (2 * p) == 2 * h * p;
    assert p <= m * p;
  }

  lemma PowMonotone(a: nat, b: nat)
    requires a <= b
    ensures Pow2(a) <= Pow2(b)
    decreases b - a
  {
    if a < b {
      PowMonotone(a + 1, b);
    }
  }

  lemma {:induction false} Pow2Add(a: nat, b: nat)
    ensures Pow2(a + b) == Pow2(a) * Pow2(b)
  {
    if a > 0 {
      Pow2Add(a - 1, b);
    }
  }

  lemma Pow2Of32()
    ensures Pow2(32) == 0x1_0000_0000
  {
    assert Pow2(4) == 16;
    Pow2Add(4, 4);
    Pow2Add(8, 8);
    Pow2Add(16, 16);
  }

  /** Index of the first '/' in s, or |s|. */
  function SlashIndex(s: string): (i: nat)
    ensures i <= |s|
    ensures i < |s| ==> s[i] == '/'
  {
    if s == [] then 0 else if s[0] == '/' then 0 else 1 + SlashIndex(s[1..])
  }

  /** No character before the index is a '/'. */
  lemma {:induction false} SlashIndexIsFirst(s: string)
    ensures forall k :: 0 <= k < SlashIndex(s) ==> s[k] != '/'
  {
    if s != [] && s[0] != '/' {
      SlashIndexIsFirst(s[1..]);
      forall k | 0 <= k < SlashIndex(s)
        ensures s[k] != '/'
      {
        if k > 0 {
          assert s[k] == s[1..][k - 1];
        }
      }
    }
  }

  /** Conversion of an int to unsigned char: reduction modulo 256. */
  function ToUnsignedChar(x: int): (r: nat)
    ensures r < 256
    ensures 0 <= x < 256 ==> r == x
    ensures (r - x) % 256 == 0
  {
    x % 256
  }

  /** The prefix length `ops_xp_string_to_prefix` parses before it checks
      the range: 32 or 128 without a '/', otherwise atoi of the suffix
      stored in an unsigned char, i.e. modulo 256. */
  function ParsedPrefixLen(family: int, s: string): (len: nat)
    ensures len < 256
  {
    var maxlen := if family == AF_INET then 32 else 128;
    var slash := SlashIndex(s);
    if slash == |s| then maxlen else ToUnsignedChar(Atoi(s[slash + 1..]))
  }

  /** `ops_xp_string_to_prefix`, the length part, as written: EINVAL when
      the stored (truncated) length exceeds the family's maximum, then
      EINVAL when the address part does not parse (`addrOk`, the verdict of
      inet_network / inet_pton). */
  function StringToPrefix(family: int, s: string, addrOk: bool): (r: (int, nat))
    ensures var maxlen := if family == AF_INET then 32 else 128;
            && (SlashIndex(s) == |s| ==> r.1 == maxlen)
            && (r.0 == 0 <==> r.1 <= maxlen && addrOk)
            && (r.0 != 0 ==> r.0 == EINVAL)
  {
    var maxlen := if family == AF_INET then 32 else 128;
    var len := ParsedPrefixLen(family, s);
    if len > maxlen then (EINVAL, len)
    else if !addrOk then (EINVAL, len)
    else (0, len)
  }

  lemma {:induction false} SlashIndexAfter(p: string, t: string)
    requires forall k :: 0 <= k < |p| ==> p[k] != '/'
    ensures SlashIndex(p + "/" + t) == |p|
  {
    if p != [] {
      assert (p + "/" + t)[1..] == p[1..] + "/" + t;
      SlashIndexAfter(p[1..], t);
    }
  }

  lemma Atoi288()
    ensures Atoi("288") == 288
  {
    assert DigitPrefixLen("") == 0;
    assert "288"[1..] == "88" && "88"[1..] == "8" && "8"[1..] == "";
    assert DigitPrefixLen("288") == 3;
    assert "288"[..3] == "288";
    assert "288"[..2] == "28" && "28"[..1] == "2" && "2"[..0] == "";
    assert DecimalValue("2") == 2;
    assert DecimalValue("28") == 28;
    assert DecimalValue("288") == 288;
  }

  /** An out-of-range suffix wraps modulo 256 and passes the check:
      "10.0.0.0/288" is accepted with length 32. */
  lemma StringToPrefixAcceptsWrappedLength()
    ensures StringToPrefix(AF_INET, "10.0.0.0/288", true) == (0, 32)
  {
    WrappedSuffix();
  }

  lemma WrappedSuffix()
    ensures ParsedPrefixLen(AF_INET, "10.0.0.0/288") == 32
  {
    var s := "10.0.0.0/288";
    SlashOfExample();
    assert s[9..] == "288";
    Atoi288();
    Wrap288();
    assert ParsedPrefixLen(AF_INET, s) == ToUnsignedChar(Atoi(s[9..]));
  }

  lemma Wrap288()
    ensures ToUnsignedChar(288) == 32
  {
  }

  lemma SlashOfExample()
    ensures SlashIndex("10.0.0.0/288") == 8
  {
    assert "10.0.0.0/288" == "10.0.0.0" + "/" + "288";
    SlashIndexAfter("10.0.0.0", "288");
  }

  /** The intended parse: the whole suffix value is compared against the
      maximum, so any suffix above it is refused. */
  function StringToPrefixChecked(family: int, s: string, addrOk: bool): (r: (int, nat))
    ensures var maxlen := if family == AF_INET then 32 else 128;
            var slash := SlashIndex(s);
            && (slash == |s| ==> r == (if addrOk then 0 else EINVAL, maxlen))
            && (slash < |s| && Atoi(s[slash + 1..]) > maxlen ==> r.0 == EINVAL)
            && (slash < |s| && 0 <= Atoi(s[slash + 1..]) <= maxlen ==>
                  r == (if addrOk then 0 else EINVAL, Atoi(s[slash + 1..])))
  {
    var maxlen := if family == AF_INET then 32 else 128;
    var slash := SlashIndex(s);
    if slash == |s| then (if addrOk then 0 else EINVAL, maxlen)
    else
      var v := Atoi(s[slash + 1..]);
      if v < 0 || v > maxlen then (EINVAL, 0)
      else (if addrOk then 0 else EINVAL, v)
  }

  /** The corrected parse refuses exactly what is above the maximum, and
      agrees with the code as written on every in-range suffix. */
  lemma CheckedAgreesInRange(family: int, s: string, addrOk: bool)
    requires SlashIndex(s) < |s|
    requires 0 <= Atoi(s[SlashIndex(s) + 1..]) <= (if family == AF_INET then 32 else 128)
    ensures StringToPrefixChecked(family, s, addrOk) == StringToPrefix(family, s, addrOk)
  {
    var v := Atoi(s[SlashIndex(s) + 1..]);
    var expected := (if addrOk then 0 else EINVAL, v);
    ParsedLenInRange(family, s);
    assert StringToPrefix(family, s, addrOk) == expected;
    assert StringToPrefixChecked(family, s, addrOk) == expected;
  }

  /** An in-range suffix survives the unsigned-char store unchanged. */
  lemma ParsedLenInRange(family: int, s: string)
    requires SlashIndex(s) < |s|
    requires 0 <= Atoi(s[SlashIndex(s) + 1..]) < 256
    ensures ParsedPrefixLen(family, s) == Atoi(s[SlashIndex(s) + 1..])
  {

  }

  /** The big-endian 16-bit EtherType at bytes 12 and 13 of a frame. */
  function EtherType(buf: seq<byte>): int
    requires |buf| >= ETH_HEADER_LEN
  {
    buf[12] as int * 256 + buf[13] as int
  }

  /** `ops_xp_is_l3_packet`: at least an Ethernet header and an IPv4 or
      ARP EtherType. */
  predicate IsL3Packet(buf: Option<seq<byte>>, bufSize: nat)
    requires buf.Some? ==> bufSize <= |buf.value|
  {
    buf.Some? && bufSize >= ETH_HEADER_LEN
    && (EtherType(buf.value) == ETH_TYPE_IP || EtherType(buf.value) == ETH_TYPE_ARP)
  }

  /** `ops_xp_is_arp_packet`: an Ethernet header plus an ARP header and an
      ARP EtherType. */
  predicate IsArpPacket(buf: Option<seq<byte>>, bufSize: nat)
    requires buf.Some? ==> bufSize <= |buf.value|
  {
    buf.Some? && bufSize >= ETH_HEADER_LEN + ARP_HEADER_LEN && EtherType(buf.value) == ETH_TYPE_ARP
  }

  /** `ops_xp_is_ip_packet`: an Ethernet header and an IPv4 EtherType. */
  predicate IsIpPacket(buf: Option<seq<byte>>, bufSize: nat)
    requires buf.Some? ==> bufSize <= |buf.value|
  {
    buf.Some? && bufSize >= ETH_HEADER_LEN && EtherType(buf.value) == ETH_TYPE_IP
  }

  /** The three frame tests partition as the code intends: IP or ARP is
      L3, an ARP frame is L3, and a frame shorter than the Ethernet header
      is none of them. */
  lemma PacketClassesRelate(buf: Option<seq<byte>>, bufSize: nat)
    requires buf.Some? ==> bufSize <= |buf.value|
    ensures IsIpPacket(buf, bufSize) ==> IsL3Packet(buf, bufSize)
    ensures IsArpPacket(buf, bufSize) ==> IsL3Packet(buf, bufSize)
    ensures IsL3Packet(buf, bufSize) <==>
              (IsIpPacket(buf, bufSize) ||
               (buf.Some? && bufSize >= ETH_HEADER_LEN && EtherType(buf.value) == ETH_TYPE_ARP))
    ensures bufSize < ETH_HEADER_LEN ==>
              !IsL3Packet(buf, bufSize) && !IsArpPacket(buf, bufSize) && !IsIpPacket(buf, bufSize)
  {
  }

  /** `STR_EQ`: both strings present, equal lengths, and strncmp over the
      length of the second reports no difference. */
  predicate StrEq(a: Option<string>, b: Option<string>)
  {
    a.Some? && b.Some? && |a.value| == |b.value| && a.value[..|b.value|] == b.value
  }

  /** STR_EQ is plain equality of two present strings. */
  lemma StrEqIsEquality(a: Option<string>, b: Option<string>)
    ensures StrEq(a, b) <==> a.Some? && b.Some? && a.value == b.value
  {
    if a.Some? && b.Some? && a.value == b.value {
      assert a.value[..|b.value|] == a.value;
    }
  }
}
