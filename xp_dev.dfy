/** The XPliant device registry: the global table of device instances
    indexed by device id, each device's reference count, initialisation
    flag and interface-id-to-name map, the port-record lookup, and the
    frame `ops_xp_dev_send` builds. A `struct xpliant_dev *` is modelled by
    the device id it holds (None for NULL); the registry's bounds are the
    SDK's XP_MAX_DEVICES and XP_MAX_TOTAL_PORTS, whose values the model
    takes as parameters. */
module XpDev {
  import opened Common

  /** The fields of `struct xpliant_dev` the modelled operations touch. */
  datatype DevState = DevState(refCnt: nat, initDone: bool, intfNames: map<nat, string>)

  /** A freshly allocated device: one reference, not initialised, no
      interface names. */
  const FRESH_DEV: DevState := DevState(1, false, map[])

  /** The interface names after `ops_xp_dev_add_intf_entry`: an id already
      mapped gives EEXIST and keeps its name; otherwise the id is mapped to
      the name. */
  function NamesAfterAdd(names: map<nat, string>, intfId: nat, name: string): (r: (int, map<nat, string>))
    ensures intfId in names <==> r.0 == EEXIST
    ensures intfId in names ==> r.1 == names
    ensures intfId !in names ==> r.0 == OK && intfId in r.1 && r.1[intfId] == name
    ensures forall k :: k != intfId ==> (k in r.1 <==> k in names) && (k in names ==> r.1[k] == names[k])
  {
    if intfId in names then (EEXIST, names) else (OK, names[intfId := name])
  }

  /** The interface names after `ops_xp_dev_remove_intf_entry`. */
  function NamesAfterRemove(names: map<nat, string>, intfId: nat): (r: map<nat, string>)
    ensures intfId !in r
    ensures intfId !in names ==> r == names
    ensures forall k :: k != intfId ==> (k in r <==> k in names) && (k in names ==> r[k] == names[k])
  {
    map k | k in names && k != intfId :: names[k]
  }

  /** Removing an id that was just added restores the map. */
  lemma AddThenRemoveRestores(names: map<nat, string>, intfId: nat, name: string)
    requires intfId !in names
    ensures NamesAfterRemove(NamesAfterAdd(names, intfId, name).1, intfId) == names
  {
    var r := NamesAfterRemove(NamesAfterAdd(names, intfId, name).1, intfId);
    assert r.Keys == names.Keys;
  }

  class Registry {
    /** XP_MAX_DEVICES and XP_MAX_TOTAL_PORTS. */
    const maxDevices: nat
    const maxTotalPorts: nat
    /** `gXpDev[]`: the slots that hold a device. */
    var devs: map<nat, DevState>

    ghost predicate Valid()
      reads this
    {
      forall id :: id in devs ==> id < maxDevices
    }

    constructor (maxDevices: nat, maxTotalPorts: nat)
      ensures this.maxDevices == maxDevices && this.maxTotalPorts == maxTotalPorts
      ensures devs == map[] && Valid()
    {
      this.maxDevices := maxDevices;
      this.maxTotalPorts := maxTotalPorts;
      devs := map[];
    }

    /** `_xp_dev_by_id`: the device in slot `id`, None for an id out of
        range or an empty slot. */
    function Lookup(id: nat): (r: Option<nat>)
      reads this
      ensures r.Some? <==> id < maxDevices && id in devs
      ensures r.Some? ==> r.value == id
    {
      if id < maxDevices && id in devs then Some(id) else None
    }

    /** `ops_xp_dev_by_id`: the lookup, taking a reference on success. */
    method ById(id: nat) returns (dev: Option<nat>)
      modifies this
      ensures dev == old(Lookup(id))
      ensures dev.None? ==> devs == old(devs)
      ensures dev.Some? ==> devs == old(devs)[id := old(devs)[id].(refCnt := old(devs)[id].refCnt + 1)]
    {
      dev := Lookup(id);
      if dev.Some? {
        devs := devs[id := devs[id].(refCnt := devs[id].refCnt + 1)];
      }
    }

    /** `ops_xp_dev_ref`: one more reference to a device, none for NULL. */
    method Ref(dev: Option<nat>) returns (r: Option<nat>)
      requires dev.Some? ==> dev.value in devs
      modifies this
      ensures r == dev
      ensures dev.None? ==> devs == old(devs)
      ensures dev.Some? ==>
                devs == old(devs)[dev.value := old(devs)[dev.value].(refCnt := old(devs)[dev.value].refCnt + 1)]
    {
      if dev.Some? {
        devs := devs[dev.value := devs[dev.value].(refCnt := devs[dev.value].refCnt + 1)];
      }
      r := dev;
    }

    /** `ops_xp_dev_alloc`: None for an id out of range, the existing
        device when the slot is taken, otherwise a fresh device in the
        slot. */
    method Alloc(id: nat) returns (dev: Option<nat>)
      requires Valid()
      modifies this
      ensures Valid()
      ensures id >= maxDevices ==> dev.None? && devs == old(devs)
      ensures id < maxDevices && id in old(devs) ==> dev == Some(id) && devs == old(devs)
      ensures id < maxDevices && id !in old(devs) ==> dev == Some(id) && devs == old(devs)[id := FRESH_DEV]
    {
      if id >= maxDevices {
        return None;
      }
      if Lookup(id).Some? {
        return Some(id);
      }
      devs := devs[id := FRESH_DEV];
      return Some(id);
    }

    /** `ops_xp_dev_is_initialized`: false for NULL. */
    function IsInitialized(dev: Option<nat>): (r: bool)
      requires dev.Some? ==> dev.value in devs
      reads this
      ensures dev.None? ==> !r
      ensures dev.Some? ==> (r <==> devs[dev.value].initDone)
    {
      dev.Some? && devs[dev.value].initDone
    }

    /** `ops_xp_dev_free`: NULL and a device no longer registered are
        ignored; otherwise one reference is dropped, and the last one
        empties the slot. */
    method Free(dev: Option<nat>)
      requires Valid()
      modifies this
      ensures Valid()
      ensures dev.None? || dev.value !in old(devs) ==> devs == old(devs)
      ensures dev.Some? && dev.value in old(devs) && old(devs)[dev.value].refCnt <= 1 ==>
                devs == old(devs) - {dev.value}
      ensures dev.Some? && dev.value in old(devs) && old(devs)[dev.value].refCnt > 1 ==>
                devs == old(devs)[dev.value := old(devs)[dev.value].(refCnt := old(devs)[dev.value].refCnt - 1)]
    {
      if dev.None? || Lookup(dev.value).None? {
        return;
      }
      var id := dev.value;
      var previous := devs[id].refCnt;
      if previous <= 1 {
        devs := devs - {id};
      } else {
        devs := devs[id := devs[id].(refCnt := previous - 1)];
      }
    }

    /** `ops_xp_dev_get_port_info`: the record of port `port` on device
        `id` as (device, port), None for an unregistered device or a port
        number out of range. */
    function GetPortInfo(id: nat, port: nat): (r: Option<(nat, nat)>)
      reads this
      ensures r.Some? <==> id < maxDevices && id in devs && port < maxTotalPorts
      ensures r.Some? ==> r.value == (id, port)
    {
      match Lookup(id)
      case None => None
      case Some(d) => if port < maxTotalPorts then Some((d, port)) else None
    }

    /** `ops_xp_dev_add_intf_entry`: 0 without doing anything for NULL,
        EEXIST for an id already mapped. */
    method AddIntfEntry(dev: Option<nat>, intfId: nat, name: string) returns (rc: int)
      requires dev.Some? ==> dev.value in devs
      modifies this
      ensures dev.None? ==> rc == OK && devs == old(devs)
      ensures dev.Some? ==>
                var r := NamesAfterAdd(old(devs)[dev.value].intfNames, intfId, name);
                rc == r.0 && devs == old(devs)[dev.value := old(devs)[dev.value].(intfNames := r.1)]
    {
      if dev.None? {
        return OK;
      }
      var id := dev.value;
      if intfId in devs[id].intfNames {
        return EEXIST;
      }
      devs := devs[id := devs[id].(intfNames := devs[id].intfNames[intfId := name])];
      rc := OK;
    }

    /** `ops_xp_dev_remove_intf_entry`: NULL and an absent id are left
        alone. */
    method RemoveIntfEntry(dev: Option<nat>, intfId: nat)
      requires dev.Some? ==> dev.value in devs
      modifies this
      ensures dev.None? ==> devs == old(devs)
      ensures dev.Some? ==>
                devs == old(devs)[dev.value := old(devs)[dev.value].(
                          intfNames := NamesAfterRemove(old(devs)[dev.value].intfNames, intfId))]
    {
      if dev.None? {
        return;
      }
      var id := dev.value;
      if intfId in devs[id].intfNames {
        devs := devs[id := devs[id].(intfNames := NamesAfterRemove(devs[id].intfNames, intfId))];
      } else {
        assert NamesAfterRemove(devs[id].intfNames, intfId) == devs[id].intfNames;
      }
    }

    /** `ops_xp_dev_get_intf_name`: the name mapped to the id, None for
        NULL or an id not mapped. */
    function GetIntfName(dev: Option<nat>, intfId: nat): (name: Option<string>)
      requires dev.Some? ==> dev.value in devs
      reads this
      ensures name.Some? <==> dev.Some? && intfId in devs[dev.value].intfNames
      ensures name.Some? ==> name.value == devs[dev.value].intfNames[intfId]
    {
      if dev.Some? && intfId in devs[dev.value].intfNames then Some(devs[dev.value].intfNames[intfId])
      else None
    }
  }

  /** The minimum frame length `ops_xp_dev_send` pads to. */
  const MIN_FRAME: nat := 64

  /** The payload zero-padded to the minimum frame length. */
  function Padded(payload: seq<byte>): (r: seq<byte>)
    ensures |r| == if |payload| < MIN_FRAME then MIN_FRAME else |payload|
    ensures r[..|payload|] == payload
    ensures forall i :: |payload| <= i < |r| ==> r[i] == 0
  {
    if |payload| < MIN_FRAME then payload + seq(MIN_FRAME - |payload|, _ => 0 as byte) else payload
  }

  /** The buffer size `ops_xp_dev_send` computes in its 16-bit
      `pkt_size`: the padded length plus the header, modulo 2^16. */
  function PktSize16(buffSize: nat, hdrSize: nat): (n: nat)
    ensures n < 0x1_0000
  {
    ((if buffSize < MIN_FRAME then MIN_FRAME else buffSize) + hdrSize) % 0x1_0000
  }

  /** The 16-bit size falls short of the bytes the frame needs: a
      maximal payload with a 16-byte header gets a 15-byte buffer. */
  lemma PktSizeWrapsForLargePayload()
    ensures PktSize16(0xFFFF, 16) == 15
    ensures PktSize16(0xFFFF, 16) < 16 + 0xFFFF
  {
  }

  /** The buffer size needed, without the 16-bit truncation. */
  function PktSize(buffSize: nat, hdrSize: nat): (n: nat)
    ensures n >= hdrSize + buffSize && n >= hdrSize + MIN_FRAME
    ensures n < 0x1_0000 ==> n == PktSize16(buffSize, hdrSize)
  {
    (if buffSize < MIN_FRAME then MIN_FRAME else buffSize) + hdrSize
  }

  /** `ops_xp_dev_send`: EINVAL for a NULL buffer, EPERM when the CPU
      interface id is unknown; otherwise the frame is the Tx header
      `hdr`, the payload and zero padding up to 64 bytes, and EAGAIN
      reports a failed send. The buffer is sized by `PktSize`, so it
      holds the whole frame. */
  method DevSend(buff: Option<seq<byte>>, cpuIfOk: bool, hdr: seq<byte>, sendOk: bool)
    returns (rc: int, frame: Option<seq<byte>>)
    requires buff.Some? ==> |buff.value| < 0x1_0000
    ensures buff.None? ==> rc == EINVAL && frame.None?
    ensures buff.Some? && !cpuIfOk ==> rc == EPERM && frame.None?
    ensures buff.Some? && cpuIfOk ==>
              && frame == Some(hdr + Padded(buff.value))
              && rc == (if sendOk then OK else EAGAIN)
  {
    if buff.None? {
      return EINVAL, None;
    }
    if !cpuIfOk {
      return EPERM, None;
    }
    var payload := buff.value;
    var size := PktSize(|payload|, |hdr|);
    var buf := new byte[size];
    var i := 0;
    while i < |hdr|
      invariant 0 <= i <= |hdr|
      invariant buf[..i] == hdr[..i]
    {
      buf[i] := hdr[i];
      i := i + 1;
    }
    var j := 0;
    while j < |payload|
      invariant 0 <= j <= |payload|
      invariant buf[..|hdr|] == hdr
      invariant buf[|hdr|..|hdr| + j] == payload[..j]
    {
      buf[|hdr| + j] := payload[j];
      j := j + 1;
    }
    var k := |hdr| + |payload|;
    while k < size
      invariant |hdr| + |payload| <= k <= size
      invariant buf[..|hdr|] == hdr
      invariant buf[|hdr|..|hdr| + |payload|] == payload
      invariant forall m :: |hdr| + |payload| <= m < k ==> buf[m] == 0
    {
      buf[k] := 0;
      k := k + 1;
    }
    assert buf[..] == hdr + Padded(payload) by {
      var padded := Padded(payload);
      assert |buf[..]| == |hdr| + |padded|;
      forall m | 0 <= m < |buf[..]|
        ensures buf[..][m] == (hdr + padded)[m]
      {
        if m < |hdr| {
          assert buf[..|hdr|][m] == hdr[m];
        } else if m < |hdr| + |payload| {
          assert buf[|hdr|..|hdr| + |payload|][m - |hdr|] == payload[m - |hdr|];
          assert padded[..|payload|][m - |hdr|] == payload[m - |hdr|];
        }
      }
    }
    frame := Some(buf[..]);
    rc := if sendOk then OK else EAGAIN;
  }
}
