/** 4096-bit VLAN bitmaps: one bit per VLAN id, None for a NULL bitmap. */
module XpVlanBitmap {
  import opened Common
  import opened XpVlan
  import XpUtil

  /** A bit position inside the 4096-bit map. */
  predicate InBitmap(v: int)
  {
    0 <= v < VLAN_MAX_COUNT
  }

  /** The test of `ops_xp_vlan_bitmap_from_array__`: the id passes
      `ops_xp_is_vlan_id_valid` once cast to `xpsVlan_t`. */
  predicate Accepted(v: int)
  {
    IsVlanIdValid(VlanCast(v))
  }

  /** An id inside the map is accepted exactly when it is valid. */
  lemma AcceptedInBitmap(v: int)
    requires InBitmap(v)
    ensures Accepted(v) <==> IsVlanIdValid(v)
  {
  }

  /** Bit v of the map, where the bits past the map's end (or before its
      start) that are set are the set `outside`. */
  function BitAt(bits: seq<bool>, outside: set<int>, v: int): bool
    requires |bits| == VLAN_MAX_COUNT
  {
    if InBitmap(v) then bits[v] else v in outside
  }

  /** The ids of `vlans` that are accepted and whose bit is not yet set. */
  ghost function NewlySet(bits: seq<bool>, outside: set<int>, vlans: seq<int>): set<int>
    requires |bits| == VLAN_MAX_COUNT
  {
    set v | v in vlans && Accepted(v) && !BitAt(bits, outside, v)
  }

  /** The accepted ids of `vlans` that lie outside the map. */
  function StrayIds(vlans: seq<int>): set<int>
  {
    set v | v in vlans && Accepted(v) && !InBitmap(v)
  }

  /** `bits` is `start` with the bit of every valid id of `pre` set. */
  ghost predicate MarkedFrom(bits: seq<bool>, start: seq<bool>, pre: seq<int>)
  {
    && |bits| == |start| == VLAN_MAX_COUNT
    && forall v :: 0 <= v < VLAN_MAX_COUNT ==> (bits[v] <==> start[v] || (v in pre && IsVlanIdValid(v)))
  }

  /** One more id sets its own bit, when it is valid and lies in the map. */
  lemma MarkedStep(bits: seq<bool>, start: seq<bool>, pre: seq<int>, vlan: int)
    requires MarkedFrom(bits, start, pre)
    ensures InBitmap(vlan) && IsVlanIdValid(vlan) ==> MarkedFrom(bits[vlan := true], start, pre + [vlan])
    ensures InBitmap(vlan) && IsVlanIdValid(vlan) && bits[vlan] ==> MarkedFrom(bits, start, pre + [vlan])
    ensures !(InBitmap(vlan) && IsVlanIdValid(vlan)) ==> MarkedFrom(bits, start, pre + [vlan])
  {
    if InBitmap(vlan) && IsVlanIdValid(vlan) && bits[vlan] {
      assert bits[vlan := true] == bits;
    }
  }

  /** One more id adds itself to NewlySet, and one to its size, exactly
      when it is accepted, its bit is clear and it was not seen before. */
  lemma NewlySetStep(bits: seq<bool>, outside: set<int>, pre: seq<int>, vlan: int)
    requires |bits| == VLAN_MAX_COUNT
    ensures |NewlySet(bits, outside, pre + [vlan])| ==
              |NewlySet(bits, outside, pre)| + if Accepted(vlan) && !BitAt(bits, outside, vlan) && vlan !in pre then 1 else 0
  {
    if Accepted(vlan) && !BitAt(bits, outside, vlan) && vlan !in pre {
      assert NewlySet(bits, outside, pre + [vlan]) == NewlySet(bits, outside, pre) + {vlan};
      assert vlan !in NewlySet(bits, outside, pre);
    } else {
      assert NewlySet(bits, outside, pre + [vlan]) == NewlySet(bits, outside, pre);
    }
  }

  /** One more id adds itself to the stray bits exactly when it is
      accepted and outside the map. */
  lemma StrayIdsStep(acc: set<int>, outside: set<int>, pre: seq<int>, vlan: int)
    requires acc == outside + StrayIds(pre)
    ensures (if Accepted(vlan) && !InBitmap(vlan) then acc + {vlan} else acc) == outside + StrayIds(pre + [vlan])
  {
    assert StrayIds(pre + [vlan]) == StrayIds(pre) + (if Accepted(vlan) && !InBitmap(vlan) then {vlan} else {});
  }

  /** One step of `ops_xp_vlan_bitmap_from_array__`: sets the bit of
      `vlan` when it is accepted and not yet set, and says whether it did. */
  method MarkOne(vlan: int, b: array<bool>, outside: set<int>) returns (added: bool, outsideAfter: set<int>)
    requires b.Length == VLAN_MAX_COUNT
    modifies b
    ensures added <==> Accepted(vlan) && !BitAt(old(b[..]), outside, vlan)
    ensures b[..] == if added && InBitmap(vlan) then old(b[..])[vlan := true] else old(b[..])
    ensures outsideAfter == if added && !InBitmap(vlan) then outside + {vlan} else outside
  {
    var isSet := if InBitmap(vlan) then b[vlan] else vlan in outside;
    added := Accepted(vlan) && !isSet;
    outsideAfter := outside;
    if added {
      if InBitmap(vlan) {
        b[vlan] := true;
      } else {
        outsideAfter := outside + {vlan};
      }
    }
  }

  /** `ops_xp_vlan_bitmap_from_array__`: sets the bit of every accepted id
      of `vlans` and returns how many bits were newly set. An accepted id
      outside the map (65537 passes as VLAN 1) is read and set past the
      map by `bitmap_is_set` and `bitmap_set1`; `outside` holds the bits
      set there before, `outsideAfter` those set after. */
  method FromArrayInto(vlans: seq<int>, b: array<bool>, outside: set<int>) returns (n: int, outsideAfter: set<int>)
    requires b.Length == VLAN_MAX_COUNT
    modifies b
    ensures forall v :: 0 <= v < VLAN_MAX_COUNT ==>
              (b[v] <==> old(b[v]) || (v in vlans && IsVlanIdValid(v)))
    ensures outsideAfter == outside + StrayIds(vlans)
    ensures n == |NewlySet(old(b[..]), outside, vlans)|
  {
    ghost var b0 := b[..];
    n := 0;
    outsideAfter := outside;
    var i := 0;
    while i < |vlans|
      invariant 0 <= i <= |vlans|
      invariant MarkedFrom(b[..], b0, vlans[..i])
      invariant outsideAfter == outside + StrayIds(vlans[..i])
      invariant n == |NewlySet(b0, outside, vlans[..i])|
    {
      var vlan := vlans[i];
      ghost var pre := vlans[..i];
      ghost var bits := b[..];
      assert vlans[..i + 1] == pre + [vlan];
      MarkedStep(bits, b0, pre, vlan);
      NewlySetStep(b0, outside, pre, vlan);
      StrayIdsStep(outsideAfter, outside, pre, vlan);
      if InBitmap(vlan) {
        AcceptedInBitmap(vlan);
      }
      assert BitAt(bits, outsideAfter, vlan) <==> BitAt(b0, outside, vlan) || (vlan in pre && Accepted(vlan));
      ghost var acc := outsideAfter;
      var added;
      added, outsideAfter := MarkOne(vlan, b, outsideAfter);
      assert added <==> Accepted(vlan) && !BitAt(b0, outside, vlan) && vlan !in pre;
      if Accepted(vlan) && !InBitmap(vlan) && !added {
        assert vlan in acc;
        assert acc + {vlan} == acc;
      }
      if added {
        n := n + 1;
      }
      i := i + 1;
    }
    assert vlans[..i] == vlans;
    assert MarkedFrom(b[..], b0, vlans);
  }

  /** `ops_xp_vlan_bitmap_from_array`: the bitmap of the valid ids of
      `vlans`, or None when `vlans` is empty or no bit was newly set; the
      bits past the map follow FromArrayInto. */
  method FromArray(vlans: seq<int>, outside: set<int>) returns (r: Option<seq<bool>>, outsideAfter: set<int>)
    ensures |vlans| == 0 ==> r.None? && outsideAfter == outside
    ensures r.None? <==> forall v :: v in vlans ==> !Accepted(v) || (!InBitmap(v) && v in outside)
    ensures outsideAfter == outside + StrayIds(vlans)
    ensures r.Some? ==>
              && |r.value| == VLAN_MAX_COUNT
              && forall v :: 0 <= v < VLAN_MAX_COUNT ==> (r.value[v] <==> v in vlans && IsVlanIdValid(v))
  {
    if |vlans| == 0 {
      return None, outside;
    }
    var b := new bool[VLAN_MAX_COUNT](_ => false);
    ghost var empty := b[..];
    var n;
    n, outsideAfter := FromArrayInto(vlans, b, outside);
    if n == 0 {
      assert NewlySet(empty, outside, vlans) == {};
      forall v | v in vlans
        ensures !Accepted(v) || (!InBitmap(v) && v in outside)
      {
        assert v !in NewlySet(empty, outside, vlans);
      }
      return None, outsideAfter;
    }
    ghost var w :| w in NewlySet(empty, outside, vlans);
    assert w in vlans && Accepted(w) && !BitAt(empty, outside, w);
    r := Some(b[..]);
  }

  /** Through the cast, [65537] gives a map although no bit of it is set:
      the one bit set lies past its end. */
  lemma WrappedIdSetsBitPastMap()
    ensures Accepted(0x1_0000 + 1) && !InBitmap(0x1_0000 + 1)
    ensures StrayIds([0x1_0000 + 1]) == {0x1_0000 + 1}
    ensures !(forall v :: v in [0x1_0000 + 1] ==> !Accepted(v) || (!InBitmap(v) && v in {}))
  {
    assert VlanCast(0x1_0000 + 1) == 1;
    assert 0x1_0000 + 1 in StrayIds([0x1_0000 + 1]);
  }

  /** `ops_xp_vlan_bitmap_equal`: both NULL, or both present with the same
      bits. */
  predicate Equal(a: Option<seq<bool>>, b: Option<seq<bool>>)
  {
    (a.None? && b.None?) || (a.Some? && b.Some? && a.value == b.value)
  }

  /** `ops_xp_vlan_bitmap_xor`: the bitmap XOR over 4096 bits. */
  method Xor(a: Option<seq<bool>>, b: Option<seq<bool>>) returns (r: Option<seq<bool>>)
    requires a.Some? ==> |a.value| == VLAN_MAX_COUNT
    requires b.Some? ==> |b.value| == VLAN_MAX_COUNT
    ensures r == XpUtil.XorSpec(a, b)
  {
    r := XpUtil.BitmapXor(a, b, VLAN_MAX_COUNT);
  }

  /** `ops_xp_vlan_bitmap_clone`: a copy of the bitmap, NULL for NULL. */
  function Clone(vlans: Option<seq<bool>>): (r: Option<seq<bool>>)
    ensures Equal(r, vlans)
  {
    match vlans
    case None => None
    case Some(bits) => Some(bits[..])
  }
}
