# OpenSwitch daemons and switch plugin: a verified Dafny model

This project models the core C code of several OpenSwitch components and
proves properties of that model:

- **ops-vrfmgrd**: the VRF table-id allocator (`vrfmgrd_tableid_if.c`) and
  the VRF reconciliation loop against the database (`vrfmgrd_ovsdb_if.c`).
- **ops-switchd-xpliant-plugin**: the XPliant switch plugin. This covers
  VLAN membership and its bitmap, prefix and MAC utilities, MAC learning and
  aging, the L3 host/route/ECMP manager, ACL classifier tables, the ofproto
  bundle/port registry, LAGs, spanning-tree groups, port and netdev
  configuration, device bring-up and the host tap interfaces.
- **ops-classifierd (QoS)**: switchd's QoS/queue profile reconciliation
  (`qos_profile.c`) and the `qos trust` CLI for ports (`qos_trust_port_vty.c`).
- **ops-snmpd**: the SNMP CLI (`snmp_vty.c`), its running-config writer
  (`vtysh_ovsdb_snmp_context.c`), the database-to-snmpd.conf reconciler
  (`snmp_ovsdb_if.c`) and the trap sender's session setup (`snmptrap_lib.c`).
- **ops-passwd-srv**: the password server's YAML configuration parser
  (`passwd_srv_yaml.c`), its request handling, salt generation and
  shadow-file update (`passwd_srv_util.c`), and the netlink socket-diag
  parsing that finds a client's peer inode (`passwd_srv_netlink.c`).

There is no LACP state machine in these sources. The model follows the
C code as written.

Each core file is one Dafny module, named after it. Code that updates
global or object state step by step is a `class`. Its fields are the
C globals or struct fields, and its methods carry `modifies` clauses and
loop invariants. Each such method is proved against a specification
function on values. Pure computations are functions, with lemmas about
them. Calls into code that is not part of this model become parameters
(oracles) of the operation that makes them. This covers the XPliant SDK
(XDK), the OVSDB IDL, `system()`, `crypt()`, `random()` and the file
system. `common.dfy` holds shared helpers: `Option`, C's `atoi`, decimal
formatting and Linux errno values.

## Model

| member | source | states |
|---|---|---|
| VrfTableId.FirstFree | ops-vrfmgrd/src/vrfmgrd_tableid_if.c:76-97 | the least free id in [lo, hi), or -1 exactly when none is free |
| VrfTableId.InitialFlags | ops-vrfmgrd/src/vrfmgrd_tableid_if.c:53-64 | after initialisation the default id 0 is taken and every id 1..1023 is free |
| VrfTableId.NextAvailableSpec | ops-vrfmgrd/src/vrfmgrd_tableid_if.c:76-97 | the round-robin search fails exactly when no id in 1..1023 is free; otherwise it returns a free id in that range |
| VrfTableId.NoReuseBelowCursor | ops-vrfmgrd/src/vrfmgrd_tableid_if.c:81-89 | while an id at or after the cursor is free, no id below the cursor is returned |
| VrfTableId.FullTableFails | ops-vrfmgrd/src/vrfmgrd_tableid_if.c:92-96 | with every id taken the search returns -1 |
| VrfTableId.AllocateRun | ops-vrfmgrd/src/vrfmgrd_tableid_if.c:102-115 | the ids from n successive allocations and the final table, which keeps its size |
| VrfTableId.AllocateRunTakes | ops-vrfmgrd/src/vrfmgrd_tableid_if.c:102-115 | each id handed out in a run was free before the run and is taken after it |
| VrfTableId.AllocateRunKeepsTaken | ops-vrfmgrd/src/vrfmgrd_tableid_if.c:102-115 | an id taken before a run of allocations stays taken |
| VrfTableId.AllocateRunDistinct | ops-vrfmgrd/src/vrfmgrd_tableid_if.c:102-115 | successive allocations with no free in between never return the same id twice |
| VrfTableId.RestoredIdNotReissued | ops-vrfmgrd/src/vrfmgrd_tableid_if.c:121-125 | an id marked taken by set_vrf_id is not returned by the next search |
| VrfTableId.Allocator.constructor | ops-vrfmgrd/src/vrfmgrd_tableid_if.c:43-64 | the cursor starts at MIN_VRF_ID and the flags are the initial table |
| VrfTableId.Allocator.InitializeFreeList | ops-vrfmgrd/src/vrfmgrd_tableid_if.c:53-64 | the flags become the initial table; the cursor is unchanged |
| VrfTableId.Allocator.GetAvailableId | ops-vrfmgrd/src/vrfmgrd_tableid_if.c:76-97 | returns the round-robin search result and moves the cursor to it; on -1 the cursor stays |
| VrfTableId.Allocator.AllocateFirstVrfId | ops-vrfmgrd/src/vrfmgrd_tableid_if.c:102-115 | returns the next available id and marks exactly that id taken; on -1 nothing changes |
| VrfTableId.Allocator.SetVrfId | ops-vrfmgrd/src/vrfmgrd_tableid_if.c:121-125 | marks exactly the given id taken when it has a slot in the table; an id without one is written outside the table, which changes no flag and is recorded as a stray write |
| VrfTableId.Allocator.AllocateVrfId | ops-vrfmgrd/src/vrfmgrd_tableid_if.c:130-148 | succeeds exactly when the id is in range and free, and then marks only it taken |
| VrfTableId.Allocator.FreeVrfAllocatedId | ops-vrfmgrd/src/vrfmgrd_tableid_if.c:154-175 | succeeds exactly when the id is in range and taken, and then frees only it |
| VrfOvsdb.LastPorts | ops-vrfmgrd/src/vrfmgrd_ovsdb_if.c:462-475 | the ports of the last row with the given UUID, None exactly when no row has it |
| VrfOvsdb.CollectIdlVrfs | ops-vrfmgrd/src/vrfmgrd_ovsdb_if.c:410-423 | the scratch map has exactly the UUIDs of the rows, each mapped to the first row carrying it |
| VrfOvsdb.Manager.constructor | ops-vrfmgrd/src/vrfmgrd_ovsdb_if.c:101-135 | the cache is empty, the sequence number is the one read, and the allocator is freshly initialised |
| VrfOvsdb.Manager.SystemIsConfigured | ops-vrfmgrd/src/vrfmgrd_ovsdb_if.c:484-501 | latches true once the System row exists with cur_cfg > 0 |
| VrfOvsdb.Manager.ReconfigurePorts | ops-vrfmgrd/src/vrfmgrd_ovsdb_if.c:338-373 | the cached VRF takes the row's port list; nothing else changes |
| VrfOvsdb.Manager.CreateVrf | ops-vrfmgrd/src/vrfmgrd_ovsdb_if.c:175-241 | caches the VRF with the row's table id cast to 32 bits, reserving it when it has a slot and recording a stray write when it has none; a row without an id gets a freshly allocated one, and when the table is full it returns -1 and changes nothing |
| VrfOvsdb.Manager.DeleteVrf | ops-vrfmgrd/src/vrfmgrd_ovsdb_if.c:247-293 | removes the entry and frees its id exactly when the id can be freed; otherwise returns -1 and keeps the entry |
| VrfOvsdb.Manager.InsertPass | ops-vrfmgrd/src/vrfmgrd_ovsdb_if.c:425-443 | keeps every cached VRF; each new entry matches its row, holds its cast table id, and holds a taken id unless its id has no slot, in which case a stray write is recorded; a row left uncached means the id table was full; with every row's id in the table no stray write happens; the transaction flag is raised exactly when some VRF was newly cached whose create succeeded (the default VRF, or a zebra launch that succeeded) |
| VrfOvsdb.Manager.DeletePass | ops-vrfmgrd/src/vrfmgrd_ovsdb_if.c:444-461 | drops only VRFs missing from the database and frees their ids; a VRF still in the database stays; the transaction flag is raised exactly when some VRF was deleted |
| VrfOvsdb.Manager.PortsPass | ops-vrfmgrd/src/vrfmgrd_ovsdb_if.c:462-476 | each cached VRF takes the ports of its database row; the key set is unchanged |
| VrfOvsdb.Manager.Reconfigure | ops-vrfmgrd/src/vrfmgrd_ovsdb_if.c:383-478 | nothing changes when the sequence number is unchanged or no VRF row changed; otherwise the sequence number advances and the pass chosen by insert/delete/modify runs; row ids without a slot are the only source of stray writes; the transaction flag is raised exactly by a successful create in the insert pass or a delete in the delete pass, and not otherwise |
| VrfOvsdb.Manager.Run | ops-vrfmgrd/src/vrfmgrd_ovsdb_if.c:503-542 | without the lock or before the system is configured nothing changes and nothing is committed; once configured, the transaction is committed exactly when the sequence number moved and an insert pass cached a VRF whose create succeeded, or a delete pass deleted one; row ids without a slot are the only source of stray writes |
| XpVlan.MembershipEmptyIffNoMember | ops-switchd-xpliant-plugin/src/ops-xp-vlan.c:609-617 | a VLAN's membership is empty exactly when no interface is a member of it |
| XpVlan.VlanMgr.constructor | ops-switchd-xpliant-plugin/src/ops-xp-vlan.c:43-67 | no VLAN exists and every members table is empty |
| XpVlan.VlanMgr.IsExisting | ops-switchd-xpliant-plugin/src/ops-xp-vlan.c:494-501 | an existing VLAN has a valid id |
| XpVlan.VlanMgr.Lookup | ops-switchd-xpliant-plugin/src/ops-xp-vlan.c:590-607 | the member's encap is found exactly when the VLAN exists and the interface is in its table |
| XpVlan.VlanMgr.GetEncapType | ops-switchd-xpliant-plugin/src/ops-xp-vlan.c:571-588 | returns 0 and the stored encap exactly for a member, ENODATA otherwise |
| XpVlan.VlanMgr.Create | ops-switchd-xpliant-plugin/src/ops-xp-vlan.c:101-152 | ENXIO for an invalid id, EEXIST for an existing VLAN, EPERM when the hardware refuses; only on 0 does the VLAN come to exist |
| XpVlan.VlanMgr.Remove | ops-switchd-xpliant-plugin/src/ops-xp-vlan.c:155-217 | a missing VLAN gives 0 and no change; otherwise the VLAN stops existing and its members table is emptied, whatever the hardware answers |
| XpVlan.VlanMgr.MemberAdd | ops-switchd-xpliant-plugin/src/ops-xp-vlan.c:264-316 | ENXIO for a missing VLAN; an existing member keeps its encap and gives 0; otherwise the member is added with the given encap when the hardware accepts |
| XpVlan.VlanMgr.MemberRemove | ops-switchd-xpliant-plugin/src/ops-xp-vlan.c:321-379 | ENXIO for a missing VLAN; a non-member gives 0; otherwise only that member is removed when the hardware accepts; the pair's MAC entries are flushed exactly when it is removed |
| XpVlan.VlanMgr.MembersRemoveAll | ops-switchd-xpliant-plugin/src/ops-xp-vlan.c:382-407 | only the VLAN's own members are removed, none is altered, and the result is 0 exactly when the table ends empty; the flushed interfaces are exactly those removed |
| XpVlan.VlanMgr.MemberSetTagging | ops-switchd-xpliant-plugin/src/ops-xp-vlan.c:413-461 | ENXIO for a missing VLAN, EOPNOTSUPP for a non-member, 0 and no change when the tagging already holds; otherwise the member is re-added with the bool as encap; the MAC entries are flushed exactly when the removal succeeds |
| XpVlan.VlanMgr.PortClearAllMembership | ops-switchd-xpliant-plugin/src/ops-xp-vlan.c:464-486 | on 0 the interface is a member of no VLAN; each VLAN either keeps its table or loses only this interface, and the MAC entries are flushed on exactly the VLANs it left |
| XpVlanBitmap.FromArrayInto | ops-switchd-xpliant-plugin/src/ops-xp-vlan-bitmap.c:50-68 | an id is taken when its `xpsVlan_t` cast is a valid id; inside the map exactly the valid ids' bits are set and every other bit is kept; the taken ids outside the map become bits set past its end; the count is the number of ids whose bit, in the map or past it, was newly set |
| XpVlanBitmap.MarkOne | ops-switchd-xpliant-plugin/src/ops-xp-vlan-bitmap.c:59-64 | the bit of the id is newly set exactly when the id is taken and its bit was clear; the map changes only at that bit, and a bit past the map is added to the stray set |
| XpVlanBitmap.FromArray | ops-switchd-xpliant-plugin/src/ops-xp-vlan-bitmap.c:31-46 | None exactly when every id is refused by the cast test or already set past the map (so always for an empty array); otherwise a 4096-bit map holding exactly the valid ids; the stray bits as FromArrayInto |
| XpVlanBitmap.WrappedIdSetsBitPastMap | ops-switchd-xpliant-plugin/src/ops-xp-vlan-bitmap.c:59-62 | 65537 passes the test as VLAN 1, lies outside the map, and is set past its end, so the array [65537] gives a map |
| XpVlanBitmap.Xor | ops-switchd-xpliant-plugin/src/ops-xp-vlan-bitmap.c:80-84 | the result is the XOR reference: a copy of the other input when one is NULL, NULL for two NULLs, bitwise XOR otherwise |
| XpVlanBitmap.Clone | ops-switchd-xpliant-plugin/src/ops-xp-vlan-bitmap.c:87-91 | the clone compares equal to its original, and NULL clones to NULL |
| XpUtil.XorBits | ops-switchd-xpliant-plugin/src/ops-xp-util.c:58-63 | bit i of the result is set exactly when it is set in one input and not the other |
| XpUtil.XorCancel | ops-switchd-xpliant-plugin/src/ops-xp-util.c:44-67 | XOR with the same bitmap twice gives back the first, and XOR is commutative |
| XpUtil.XorZeroIffEqual | ops-switchd-xpliant-plugin/src/ops-xp-util.c:44-67 | the XOR of two bitmaps is all zero exactly when they are equal |
| XpUtil.BitmapXor | ops-switchd-xpliant-plugin/src/ops-xp-util.c:44-67 | the word loop computes the XOR reference, including the NULL cases |
| XpUtil.MacCopyAndReverse | ops-switchd-xpliant-plugin/src/ops-xp-util.c:312-324 | dst[i] = src[5-i], i.e. the reverse of the source address |
| XpUtil.IpAddrCopyAndReverse | ops-switchd-xpliant-plugin/src/ops-xp-util.c:326-342 | reverses the first 4 bytes for IPv4 or 16 for IPv6, and leaves the rest of dst as it was |
| XpUtil.NetmaskLenGet | ops-switchd-xpliant-plugin/src/ops-xp-util.c:344-355 | 0 for 0, otherwise the bit length of the mask: 2^(len-1) <= mask < 2^len |
| XpUtil.ToUnsignedChar | ops-switchd-xpliant-plugin/src/ops-xp-util.c:170-176 | the value reduced modulo 256, unchanged when already in 0..255 |
| XpUtil.SlashIndex | ops-switchd-xpliant-plugin/src/ops-xp-util.c:170-176 | the index of the first '/', or the length when there is none |
| XpUtil.ParsedPrefixLen | ops-switchd-xpliant-plugin/src/ops-xp-util.c:170-180 | the prefix length as stored in an unsigned char is below 256 |
| XpUtil.StringToPrefix | ops-switchd-xpliant-plugin/src/ops-xp-util.c:163-205 | with no '/' the length is 32 or 128; the result is 0 exactly when the stored length is within the maximum and the address parses, EINVAL otherwise |
| XpUtil.StringToPrefixAcceptsWrappedLength | ops-switchd-xpliant-plugin/src/ops-xp-util.c:170-184 | "10.0.0.0/288" is accepted with length 32, because 288 wraps modulo 256 |
| XpUtil.StringToPrefixChecked | ops-switchd-xpliant-plugin/src/ops-xp-util.c:163-205 | the corrected parse refuses any suffix value above the maximum and otherwise returns that suffix |
| XpUtil.CheckedAgreesInRange | ops-switchd-xpliant-plugin/src/ops-xp-util.c:163-205 | on every suffix within the maximum the corrected and as-written parses agree |
| XpUtil.PacketClassesRelate | ops-switchd-xpliant-plugin/src/ops-xp-util.c:261-309 | an IP or ARP frame is an L3 frame; an L3 frame is IP or carries the ARP EtherType; a frame shorter than 14 bytes is none of them |
| XpUtil.StrEqIsEquality | ops-switchd-xpliant-plugin/include/ops-xp-util.h:41-43 | STR_EQ holds exactly when both strings are present and equal |
| XpMacLearning.MulticastAgreesAcrossOrders | ops-switchd-xpliant-plugin/src/ops-xp-mac-learning.c:71-81 | the group bit tested on byte 5 of the reversed address is the one tested on byte 0 of the normal address |
| XpMacLearning.NormalizeIdleTime | ops-switchd-xpliant-plugin/src/ops-xp-mac-learning.c:83-89 | the idle time clamped to [15, 3600], unchanged inside that range |
| XpMacLearning.ClampMaxEntries | ops-switchd-xpliant-plugin/src/ops-xp-mac-learning.c:297-304 | the maximum clamped to [10, 1000000], unchanged inside that range |
| XpMacLearning.AgingParamsWide | ops-switchd-xpliant-plugin/src/ops-xp-mac-learning.c:91-110 | the corrected parameters: an even exponent e with unit_time * 2^e = idle * 550000000, e the largest such even power |
| XpMacLearning.CalcAgingParams | ops-switchd-xpliant-plugin/src/ops-xp-mac-learning.c:91-110 | as written: the same even exponent, but unit_time is the quotient reduced modulo 2^32 |
| XpMacLearning.AgingUnitTimeWrapsAt1001 | ops-switchd-xpliant-plugin/src/ops-xp-mac-learning.c:100-109 | for idle time 1001 the exponent is 6 and the truncated unit_time times 2^6 is not the requested period |
| XpMacLearning.AgingParamsExactWhenSmall | ops-switchd-xpliant-plugin/src/ops-xp-mac-learning.c:91-110 | whenever the quotient fits in 32 bits the as-written parameters are exact |
| XpMacLearning.RecordInBuffer | ops-switchd-xpliant-plugin/src/ops-xp-mac-learning.c:1161-1221 | the used count never exceeds the buffer size and grows by at most one; the node is recorded when the index is known or there is room; other entries are kept, a rehash moves the old node |
| XpMacLearning.ActionAddSpec | ops-switchd-xpliant-plugin/src/ops-xp-mac-learning.c:1161-1221 | recording a node keeps the double-buffer state well formed |
| XpMacLearning.ActionAddTogglesWhenFull | ops-switchd-xpliant-plugin/src/ops-xp-mac-learning.c:1161-1251 | when the current buffer fills and a plugin is present the index toggles and the new current buffer is emptied; without a plugin it stays |
| XpMacLearning.ActionAddRecordsBelowCapacity | ops-switchd-xpliant-plugin/src/ops-xp-mac-learning.c:1161-1221 | below capacity the node is recorded in the current buffer, which stays current, and the other buffer is untouched |
| XpMacLearning.EventBuffers.constructor | ops-switchd-xpliant-plugin/src/ops-xp-mac-learning.c:115-213 | both buffers start empty with buffer 0 current |
| XpMacLearning.EventBuffers.ProcessMlearn | ops-switchd-xpliant-plugin/src/ops-xp-mac-learning.c:1237-1251 | the buffers follow the processing reference, and the plugin is notified exactly when it is present and the current buffer is non-empty |
| XpMacLearning.EventBuffers.ActionAdd | ops-switchd-xpliant-plugin/src/ops-xp-mac-learning.c:1161-1221 | the buffers follow the action-add reference |
| XpMacLearning.EventBuffers.PendingTable | ops-switchd-xpliant-plugin/src/ops-xp-mac-learning.c:1265-1288 | the buffer not in use is returned exactly when it holds a node |
| XpMacLearning.InsertOutcomeSpec | ops-switchd-xpliant-plugin/src/ops-xp-mac-learning.c:328-416 | insertion succeeds exactly below the maximum with the hardware agreeing and a slot for the index; a failure (EPERM or ENOENT) leaves the table unchanged; a success stores the entry and never exceeds the maximum |
| XpMacLearning.FlushFilters | ops-switchd-xpliant-plugin/src/ops-xp-mac-learning.c:486-503 | with the hardware agreeing, a dynamic-only flush leaves exactly the static entries and a full flush leaves nothing |
| XpMacLearning.FlushVlanRemovesStatic | ops-switchd-xpliant-plugin/src/ops-xp-mac-learning.c:687-736 | a VLAN flush removes static entries of the VLAN too, while a dynamic-only interface flush keeps them |
| XpMacLearning.RemainingIsSubmap | ops-switchd-xpliant-plugin/src/ops-xp-mac-learning.c:453-503 | an entry the filter does not select is kept unchanged, a selected entry whose hardware removal succeeds is gone, and nothing new appears |
| XpMacLearning.MacLearning.constructor | ops-switchd-xpliant-plugin/src/ops-xp-mac-learning.c:115-213 | an empty table with the default maximum, the normalized idle time and empty event buffers |
| XpMacLearning.MacLearning.SetIdleTime | ops-switchd-xpliant-plugin/src/ops-xp-mac-learning.c:267-293 | EPERM when either SDK call fails, and then the idle time is not stored; otherwise the normalized time is stored |
| XpMacLearning.MacLearning.SetMaxEntries | ops-switchd-xpliant-plugin/src/ops-xp-mac-learning.c:297-304 | stores the clamped maximum and changes nothing else |
| XpMacLearning.MacLearning.Insert | ops-switchd-xpliant-plugin/src/ops-xp-mac-learning.c:328-416 | the table and result follow the insertion reference, and a successful insert records an ADD event |
| XpMacLearning.MacLearning.LookupByVlanAndMac | ops-switchd-xpliant-plugin/src/ops-xp-mac-learning.c:434-450 | None exactly when no entry has this VLAN and MAC; otherwise an entry that has them |
| XpMacLearning.MacLearning.Expire | ops-switchd-xpliant-plugin/src/ops-xp-mac-learning.c:453-484 | the entry goes and a DEL event is recorded exactly when the hardware removal succeeds; otherwise EPERM and nothing changes |
| XpMacLearning.MacLearning.ExpireWhere | ops-switchd-xpliant-plugin/src/ops-xp-mac-learning.c:486-503 | the table becomes the entries the filter keeps plus those whose hardware removal failed |
| XpMacLearning.MacLearning.Flush | ops-switchd-xpliant-plugin/src/ops-xp-mac-learning.c:486-503 | removes the dynamic entries, or all entries when the flag is false, except where the hardware refuses |
| XpMacLearning.MacLearning.FlushIntf | ops-switchd-xpliant-plugin/src/ops-xp-mac-learning.c:689-707 | removes the interface's entries (dynamic only when asked) and returns 0 |
| XpMacLearning.MacLearning.ProcessPortDown | ops-switchd-xpliant-plugin/src/ops-xp-mac-learning.c:712-716 | removes the interface's dynamic entries |
| XpMacLearning.MacLearning.FlushVlan | ops-switchd-xpliant-plugin/src/ops-xp-mac-learning.c:721-736 | removes every entry of the VLAN, static ones included |
| XpMacLearning.MacLearning.FlushVlanIntf | ops-switchd-xpliant-plugin/src/ops-xp-mac-learning.c:740-758 | removes the entries of the VLAN on the interface |
| XpMacLearning.MacLearning.ProcessVlanRemoved | ops-switchd-xpliant-plugin/src/ops-xp-mac-learning.c:763-768 | removes every entry of the removed VLAN |
| XpMacLearning.MacLearning.OnVniRemoved | ops-switchd-xpliant-plugin/src/ops-xp-mac-learning.c:1030-1052 | removes the entries the VNI filter selects |
| XpMacLearning.MacLearning.AgeByIndex | ops-switchd-xpliant-plugin/src/ops-xp-mac-learning.c:644-659 | an absent index gives 0 and no change; otherwise the entry goes exactly when the hardware agrees, EPERM otherwise |
| XpMacLearning.MacLearning.AgeByVlanAndMac | ops-switchd-xpliant-plugin/src/ops-xp-mac-learning.c:663-685 | EPERM and no change when no entry matches; on 0 exactly one matching entry is gone |
| XpMacLearning.MacLearning.Learn | ops-switchd-xpliant-plugin/src/ops-xp-mac-learning.c:508-641 | EPERM when the VLAN does not learn or the MAC is multicast; for SA_NEW an existing entry gives EEXIST, a failed lookup ENOENT, and a new entry follows the insertion reference |
| XpMacLearning.MacLearning.LearnNew | ops-switchd-xpliant-plugin/src/ops-xp-mac-learning.c:538-568 | the SA_NEW branch: EEXIST for a found entry, ENOENT for a failed lookup, otherwise the insertion reference |
| XpMacLearning.MacLearning.OnLearning | ops-switchd-xpliant-plugin/src/ops-xp-mac-learning.c:846-911 | a frame shorter than 14 bytes is refused with invalid data and no change; otherwise the callback reports success and a new source MAC is learned on its VLAN |
| XpMacLearning.MacLearning.OnMlearnTimerExpired | ops-switchd-xpliant-plugin/src/ops-xp-mac-learning.c:1254-1263 | the event buffers are processed as by ProcessMlearn |
| XpRouting.EcmpUpdate | ops-switchd-xpliant-plugin/src/ops-xp-routing.c:1256-1290 | EFAULT exactly when disabling a port selector or both IP selectors in one call, keeping the mask; otherwise the mask becomes old or h when enabling and old minus h when disabling |
| XpRouting.PortsStayHashed | ops-switchd-xpliant-plugin/src/ops-xp-routing.c:1271-1280 | once the L4 port selectors are in the mask no call removes them |
| XpRouting.IpsCanBeDisabledInTwoCalls | ops-switchd-xpliant-plugin/src/ops-xp-routing.c:1281-1286 | the both-IPs check is per call, so disabling SrcIp and then DstIp leaves no IP selector |
| XpRouting.HashFieldsFor | ops-switchd-xpliant-plugin/src/ops-xp-routing.c:1292-1315 | the S-tag fields come first, then the UDP/TCP port and IPv4 address fields exactly for the selectors in the mask, at most 8 fields |
| XpRouting.NhGroup.constructor | ops-switchd-xpliant-plugin/src/ops-xp-routing.c:399-429 | an empty group with the given block id and size |
| XpRouting.NhGroup.Insert | ops-switchd-xpliant-plugin/src/ops-xp-routing.c:531-550 | the next hop is appended with hardware id nh_id plus the prior count, and the size grows to at least the count |
| XpRouting.GroupIdsDistinct | ops-switchd-xpliant-plugin/src/ops-xp-routing.c:531-550 | the hardware ids of a group's next hops are pairwise distinct and lie in its block |
| XpRouting.NhGroupAlloc | ops-switchd-xpliant-plugin/src/ops-xp-routing.c:399-429 | NULL exactly when the size exceeds the per-route maximum or the SDK refuses; otherwise an empty group on the SDK's block |
| XpRouting.UpdateNexthopError | ops-switchd-xpliant-plugin/src/ops-xp-routing.c:1193-1206 | every next hop is stamped with the return code and its error string, nothing else changes |
| XpRouting.L3Mgr.constructor | ops-switchd-xpliant-plugin/src/ops-xp-routing.c:68-92 | no hosts, routes or free ids, next_host_id 0, and all four ECMP selectors enabled |
| XpRouting.L3Mgr.HostEntryAlloc | ops-switchd-xpliant-plugin/src/ops-xp-routing.c:192-207 | takes the head of the free list, or next_host_id++ when it is empty; the id is neither live nor free, and the free list stays distinct |
| XpRouting.L3Mgr.HostEntryFree | ops-switchd-xpliant-plugin/src/ops-xp-routing.c:209-220 | the id is pushed to the front of the free list |
| XpRouting.L3Mgr.AddHostEntry | ops-switchd-xpliant-plugin/src/ops-xp-routing.c:223-346 | EPFNOSUPPORT exactly for a bad address, EAGAIN exactly for a hardware failure, and then the entry is recycled with both maps unchanged; on 0 the returned egress id is the entry's id and is in the host map |
| XpRouting.L3Mgr.DeleteHostEntry | ops-switchd-xpliant-plugin/src/ops-xp-routing.c:348-397 | an unknown id gives 0 and no change; a known id leaves both maps and goes to the free list |
| XpRouting.L3Mgr.DeleteRouteEntry | ops-switchd-xpliant-plugin/src/ops-xp-routing.c:1049-1074 | EFAULT for an unknown prefix; otherwise the route loses a reference and goes with its last one |
| XpRouting.L3Mgr.RouteEntryAction | ops-switchd-xpliant-plugin/src/ops-xp-routing.c:1208-1254 | EINVAL for zero next hops or an unknown action; each action's result and route-table change, a delete of a known prefix dropping one reference and removing the prefix with its last, with every next hop stamped after a failed add |
| XpRouting.L3Mgr.EcmpHashSet | ops-switchd-xpliant-plugin/src/ops-xp-routing.c:1256-1322 | a refused update gives EFAULT and keeps the mask; otherwise the new mask is stored before the SDK call and stays even when that call fails |
| XpClassifier.GetType | ops-switchd-xpliant-plugin/src/ops-xp-classifier.c:328-363 | ingress port gives IACL0, ingress VLAN gives IACL1, or IACL2 for L3-only, egress gives EACL, and anything else the invalid TOTAL, each as an iff |
| XpClassifier.HwIpMask | ops-switchd-xpliant-plugin/src/ops-xp-classifier.c:481-490 | the hardware mask is the complement of the byte-swapped configured mask: disjoint from it, covering every other bit, and swapping its complement back gives the configured mask |
| XpClassifier.IpFieldMatchesConfiguredPrefix | ops-switchd-xpliant-plugin/src/ops-xp-classifier.c:481-520 | the encoded IPv4 field matches a byte-swapped address exactly when the address agrees with the configured one under the configured mask |
| XpClassifier.PopulateIaclEntry | ops-switchd-xpliant-plugin/src/ops-xp-classifier.c:452-644 | the ACL id field is exact, and each key field is set exactly when its valid flag is in the entry |
| XpClassifier.FieldSize | ops-switchd-xpliant-plugin/src/ops-xp-classifier.c:145-166 | the shift loop counts the one bits of the byte mask |
| XpClassifier.ResetFieldSizes | ops-switchd-xpliant-plugin/src/ops-xp-classifier.c:122-170 | each key field's size is the popcount of its byte-mask entry |
| XpClassifier.KeySizesMatchWidths | ops-switchd-xpliant-plugin/src/ops-xp-classifier.c:92-166 | with the SDK's field order, each field size in bytes is the field's bit width divided by 8 |
| XpClassifier.LastUnsupported | ops-switchd-xpliant-plugin/src/ops-xp-classifier.c:1028-1054 | the index of the last entry with an unsupported L4 operation, None exactly when there is none |
| XpClassifier.ValidateEntries | ops-switchd-xpliant-plugin/src/ops-xp-classifier.c:1028-1054 | HW_UNSUPPORTED with the last offending index when an L4 op is NEQ/LT/GT/RANGE, otherwise the status untouched |
| XpClassifier.RuleList | ops-switchd-xpliant-plugin/src/ops-xp-classifier.c:649-770 | one rule per list entry, in order, with its TCAM index and counter flag |
| XpClassifier.RulePrioritiesDecrease | ops-switchd-xpliant-plugin/src/ops-xp-classifier.c:682-688 | rule i gets priority num_entries - i, so priorities strictly decrease and are all at least 1 |
| XpClassifier.CreateRuleEntryList | ops-switchd-xpliant-plugin/src/ops-xp-classifier.c:649-770 | the loop builds exactly the rule list |
| XpClassifier.Inc16 | ops-switchd-xpliant-plugin/src/ops-xp-classifier.c:1158 | the 16-bit num_intfs increment, wrapping 65535 to 0 |
| XpClassifier.Dec16 | ops-switchd-xpliant-plugin/src/ops-xp-classifier.c:1211 | the 16-bit num_intfs decrement, wrapping 0 to 65535 |
| XpClassifier.AclTables.constructor | ops-switchd-xpliant-plugin/src/ops-xp-classifier.c:247-322 | no entries and no allocated ACL ids |
| XpClassifier.AclTables.SharedAclId | ops-switchd-xpliant-plugin/src/ops-xp-classifier.c:877-916 | the id an existing PACL, BACL or RACL entry of the UUID carries, None exactly when no ingress entry has the UUID |
| XpClassifier.AclTables.AclAdd | ops-switchd-xpliant-plugin/src/ops-xp-classifier.c:839-950 | an ingress entry is stored with the shared id or a freshly allocated one; egress is not stored; HW_RESOURCE_ERR exactly when a new id was needed and allocation failed |
| XpClassifier.AclTables.AclDelete | ops-switchd-xpliant-plugin/src/ops-xp-classifier.c:952-1026 | the entry leaves its map, and its id is released only when no remaining entry of the UUID carries it |
| XpClassifier.AclTables.Apply | ops-switchd-xpliant-plugin/src/ops-xp-classifier.c:1056-1160 | EPERM and no change without the bundle; otherwise the validation status is returned, an unsupported list changes nothing, and an applied entry gains an interface |
| XpClassifier.AclTables.Remove | ops-switchd-xpliant-plugin/src/ops-xp-classifier.c:1162-1237 | the entry loses one interface and is deleted when its count reaches 0; an unknown entry is ignored |
| XpClassifier.AclTables.Replace | ops-switchd-xpliant-plugin/src/ops-xp-classifier.c:1239-1340 | EPERM and no change without the bundle; an original list not in its table changes nothing; otherwise the status is the new list's validation status and the tables and the allocator's ids become ReplacedEntries and ReplacedIds of the old state (original detached, new list applied unless refused, original settled by the status); for another list, a failed status leaves the original entry as it was and a successful one leaves it one interface less, deleted at 0 |
| XpClassifier.RefusedReplaceKeepsTables | ops-switchd-xpliant-plugin/src/ops-xp-classifier.c:1288-1336 | a list refused by validation leaves entries and ids exactly as they were: the interface given up is counted again |
| XpClassifier.ReplaceAttachesNewList | ops-switchd-xpliant-plugin/src/ops-xp-classifier.c:1288 | for a different list, its entry then exists and counts one more interface with its id kept, or enters with one interface and the shared or new id |
| XpClassifier.ReplaceDetachesOriginal | ops-switchd-xpliant-plugin/src/ops-xp-classifier.c:1286-1336 | for a different list, after success the original counts one interface less and is deleted at 0; after failure it is exactly as before |
| XpClassifier.ReplaceBySameList | ops-switchd-xpliant-plugin/src/ops-xp-classifier.c:1286-1336 | replacing a list by itself: success leaves the tables as they were (deleting the entry only when its count was already 0); failure counts the interface a second time |
| XpClassifier.ReplaceFrame | ops-switchd-xpliant-plugin/src/ops-xp-classifier.c:1239-1340 | every entry other than the original's and the new list's keeps its value, and no entry but the new list's appears |
| XpClassifier.ReplacedIdsRelease | ops-switchd-xpliant-plugin/src/ops-xp-classifier.c:1310-1312 | the ids differ from the applied ones at most in the original's id, and that id is released exactly when the original entry is deleted and no entry of its UUID keeps it |
| XpOfproto.DpPortGet | ops-switchd-xpliant-plugin/src/ops-xp-ofproto-provider.c:709-736 | EINVAL exactly for an unknown name; the CPU port maps to ODPP_LOCAL and any other port to its number plus one |
| XpOfproto.DpPortGetInjective | ops-switchd-xpliant-plugin/src/ops-xp-ofproto-provider.c:709-736 | two distinct non-CPU ports never share a datapath port number |
| XpOfproto.PortOpenType | ops-switchd-xpliant-plugin/src/ops-xp-ofproto-provider.c:201-210 | internal, vlansubint and loopback keep their type; anything else, NULL included, opens as "system" |
| XpOfproto.PortOpenTypeIdempotent | ops-switchd-xpliant-plugin/src/ops-xp-ofproto-provider.c:201-210 | opening a port under the type it opened with gives the same type |
| XpOfproto.BundleVlan | ops-switchd-xpliant-plugin/src/ops-xp-ofproto-provider.c:1189-1196 | the bundle's VLAN is always valid: the default VLAN in trunk mode, else the configured VLAN cast to `xpsVlan_t` when that is valid (the configured VLAN itself when it is valid), else the default |
| XpOfproto.BundleVlanWrapsId | ops-switchd-xpliant-plugin/src/ops-xp-ofproto-provider.c:1164-1192 | through the cast, an access bundle configured with 65538 is placed in VLAN 2, while 4098 gets the default VLAN |
| XpOfproto.TrunkSet | ops-switchd-xpliant-plugin/src/ops-xp-ofproto-provider.c:1203-1234 | access mode gives {vlan}; trunk mode gives the configured trunks or none; the native modes give the trunks with the VLAN forced in |
| XpOfproto.UntaggedOnlyOnNativeVlan | ops-switchd-xpliant-plugin/src/ops-xp-ofproto-provider.c:1321-1324 | a member is untagged exactly on the bundle's own VLAN outside native-tagged mode, so an access bundle is untagged |
| XpOfproto.AllFloodAppend | ops-switchd-xpliant-plugin/src/ops-xp-ofproto-provider.c:1108-1156 | the floodable flag kept by bundle_add_port agrees with recomputing it over the longer port list |
| XpOfproto.DelPortOpsSound | ops-switchd-xpliant-plugin/src/ops-xp-ofproto-provider.c:1075-1104 | each removal request is for a removed port of a system interface: a join untagged exactly when it is not a default-VLAN member, a retag otherwise, never a leave |
| XpOfproto.DelPortOpsComplete | ops-switchd-xpliant-plugin/src/ops-xp-ofproto-provider.c:1075-1104 | every removed port of a system interface gets a request |
| XpOfproto.DelPortOpsDistinct | ops-switchd-xpliant-plugin/src/ops-xp-ofproto-provider.c:1985-1996 | with distinct ports, no port gets two removal requests |
| XpOfproto.AddPortOpsExact | ops-switchd-xpliant-plugin/src/ops-xp-ofproto-provider.c:1108-1148 | each addition request takes a new slave port of a system interface out of the default VLAN, every such port gets one, and no port gets two |
| XpOfproto.KeptPortsNamed | ops-switchd-xpliant-plugin/src/ops-xp-ofproto-provider.c:1985-1996 | every port kept by the removal loop is named by a slave, and keeping preserves distinctness |
| XpOfproto.AddedPortsComplete | ops-switchd-xpliant-plugin/src/ops-xp-ofproto-provider.c:1998-2001 | after adding, every slave that has a port is in the list, the list has nothing new but slaves, and it stays distinct |
| XpOfproto.VlanChangeJoinsNewAndRetagged | ops-switchd-xpliant-plugin/src/ops-xp-ofproto-provider.c:1158-1359 | every new trunk VLAN and a retagged native VLAN is joined, nothing is both joined and left, and an unchanged config joins and leaves nothing |
| XpOfproto.Bundle.constructor | ops-switchd-xpliant-plugin/src/ops-xp-ofproto-provider.c:1921-1975 | a new bundle has no ports, is floodable, has no hardware interface, VLAN -1 in access mode and no secondary IPs |
| XpOfproto.Bundle.BundleUpdate | ops-switchd-xpliant-plugin/src/ops-xp-ofproto-provider.c:1016-1031 | the floodable flag becomes true exactly when every port floods |
| XpOfproto.Bundle.RemoveExtraPorts | ops-switchd-xpliant-plugin/src/ops-xp-ofproto-provider.c:1985-1996 | the ports become the ones the slaves still name, in order, and the default-VLAN requests are those of the removed ports in list order |
| XpOfproto.Bundle.AddOne | ops-switchd-xpliant-plugin/src/ops-xp-ofproto-provider.c:1108-1148 | a slave with a port not yet in the bundle is appended and, for a system interface, leaves the default VLAN; any other slave changes nothing |
| XpOfproto.Bundle.AddSlavePorts | ops-switchd-xpliant-plugin/src/ops-xp-ofproto-provider.c:1998-2001 | the ports become the added-ports reference and the default-VLAN requests those that reference gives |
| XpOfproto.Bundle.CreateRemoveHwLag | ops-switchd-xpliant-plugin/src/ops-xp-ofproto-provider.c:1362-1396 | a hardware LAG is created when there is no interface and the bond should exist or alloc_only is set; it is destroyed when it is a LAG that should not exist; otherwise nothing changes |
| XpOfproto.Bundle.BundleSetPorts | ops-switchd-xpliant-plugin/src/ops-xp-ofproto-provider.c:1980-2008 | after the port reconcile every port is a slave, every slave with a port is present, and an empty bundle is destroyed; the default-VLAN requests are the removals' followed by the additions'; alloc_only or a LAG failure stops first and sends none |
| XpOfproto.Bundle.UpdateVlanConfig | ops-switchd-xpliant-plugin/src/ops-xp-ofproto-provider.c:1158-1359 | the mode, VLAN and trunk set follow the bundle rules, and the VLANs joined and left are the ones the change reference gives |
| XpOfproto.Bundle.ClearRetagged | ops-switchd-xpliant-plugin/src/ops-xp-ofproto-provider.c:1236-1268 | the removals before the rewrite are the pre-removed VLANs the manager holds, and the trunks become the cleared set |
| XpOfproto.Bundle.ReconcileSecondaryIps | ops-switchd-xpliant-plugin/src/ops-xp-ofproto-provider.c:1569-1675 | the stored set becomes the configured set; the deleted addresses are those dropped, and the added ones are the new addresses, each once |
| XpOfproto.FirstOccurrencesProps | ops-switchd-xpliant-plugin/src/ops-xp-ofproto-provider.c:1583-1591 | the first occurrences are distinct and hold every listed string |
| XpOfproto.AddOnceAll | ops-switchd-xpliant-plugin/src/ops-xp-ofproto-provider.c:1583-1591 | the add-once loop keeps the first occurrences in order |
| XpLag.SetBalanceMode | ops-switchd-xpliant-plugin/src/ops-xp-lag.c:155-185 | L2 selects MAC DA and SA, L3 selects IPv4 source and destination, anything else gives EPERM; EFAULT exactly when the SDK refuses a valid mode |
| XpLag.LagTable.constructor | ops-switchd-xpliant-plugin/src/ops-xp-lag.c:51-70 | no LAGs and no port with the LAG control id set |
| XpLag.LagTable.FindOwner | ops-switchd-xpliant-plugin/src/ops-xp-lag.c:199-212 | None exactly when no LAG holds the port; otherwise a LAG holding it |
| XpLag.LagTable.Create | ops-switchd-xpliant-plugin/src/ops-xp-lag.c:51-70 | a new empty LAG on success, EFAULT and no change otherwise; exclusivity is kept |
| XpLag.LagTable.DetachPortOnHw | ops-switchd-xpliant-plugin/src/ops-xp-lag.c:263-320 | detaching a non-member gives 0 and no change; a failed removal gives EFAULT and no change; a failed deploy or L3 unbind gives EFAULT with the port already out of the LAG and its control id kept; otherwise the port leaves the LAG and its control id is cleared |
| XpLag.LagTable.AttachPortOnHw | ops-switchd-xpliant-plugin/src/ops-xp-lag.c:188-260 | re-attaching to the same LAG is a no-op; a port held by another LAG is detached first; a missing netdev gives ENOENT; a failed add or deploy rolls back the control id |
| XpLag.LagTable.AttachPorts | ops-switchd-xpliant-plugin/src/ops-xp-lag.c:113-152 | when every port attaches and no removal fails, the LAG's members equal the given list as a set; while no removal fails a port stays in at most one LAG |
| XpLag.LagTable.Destroy | ops-switchd-xpliant-plugin/src/ops-xp-lag.c:73-110 | every member is detached before the LAG is deleted, the LAG ending empty when no removal fails and the control ids cleared when every detach succeeds; other LAGs are untouched; exclusivity is kept |
| XpStg.HwStateFromOps | ops-switchd-xpliant-plugin/src/ops-xp-stg.c:44-70 | a hardware state exactly for a present out-pointer and one of the four daemon states; NOT_SET and unknown states give false |
| XpStg.OpsStateFromHw | ops-switchd-xpliant-plugin/src/ops-xp-stg.c:72-98 | a daemon state exactly for a present out-pointer and one of the four hardware states |
| XpStg.StateMapsInverse | ops-switchd-xpliant-plugin/src/ops-xp-stg.c:44-98 | the two translations are inverse bijections between the four daemon and four hardware states |
| XpStg.HwStateFromOpsInjective | ops-switchd-xpliant-plugin/src/ops-xp-stg.c:44-70 | distinct daemon states map to distinct hardware states |
| XpStg.NotSetHasNoHwState | ops-switchd-xpliant-plugin/src/ops-xp-stg.c:65-69 | NOT_SET has no hardware state |
| XpStg.CreateStg | ops-switchd-xpliant-plugin/src/ops-xp-stg.c:100-117 | the SDK's new group id on success, EFAULT otherwise |
| XpStg.StgVlanBind | ops-switchd-xpliant-plugin/src/ops-xp-stg.c:136-180 | an id that is invalid once cast to 16 bits gives EINVAL before any SDK call; otherwise 0 exactly when the SDK agrees, EFAULT otherwise |
| XpVlan.VlanCast | ops-switchd-xpliant-plugin/src/ops-xp-stg.c:136-145 | the `uint16_t` conversion of the VLAN id: below 2^16, and the id itself when it already fits |
| XpStg.StgVlanBindWrapsId | ops-switchd-xpliant-plugin/src/ops-xp-stg.c:136-145 | through the cast, VLAN 65537 binds as VLAN 1, while 4097 is refused |
| XpStg.SetStgPortState | ops-switchd-xpliant-plugin/src/ops-xp-stg.c:182-216 | ENOENT for an unknown port, EFAULT for an unconvertible state; otherwise the translated hardware state is written |
| XpStg.GetStgPortState | ops-switchd-xpliant-plugin/src/ops-xp-stg.c:218-249 | ENOENT for an unknown port, EFAULT when the SDK call or the translation fails; on 0 a daemon state is returned |
| XpStg.SetThenGetRoundTrip | ops-switchd-xpliant-plugin/src/ops-xp-stg.c:182-249 | reading back a state the set call wrote gives the state set |
| XpPort.EnableUpdate | ops-switchd-xpliant-plugin/src/ops-xp-port.c:453-476 | the record takes the requested enable state; the same value changes nothing; enabling a disabled port clears serdes_tuned; other fields are kept |
| XpPort.DisableRange | ops-switchd-xpliant-plugin/src/ops-xp-port.c:121-146 | every present port in [from, from+cnt) is disabled and every other field and port is kept |
| XpPort.PortTable.GetEnable | ops-switchd-xpliant-plugin/src/ops-xp-port.c:440-451 | the recorded enable state for a known port, EPERM for an unknown one |
| XpPort.PortTable.SetEnable | ops-switchd-xpliant-plugin/src/ops-xp-port.c:453-476 | EPERM and no change for an unknown port; the same value gives 0 and no change; otherwise hw_enable is updated even when the SDK call fails, which gives EPERM |
| XpPort.PortTable.DisableSwitchedPorts | ops-switchd-xpliant-plugin/src/ops-xp-port.c:121-146 | 0 exactly when every port in the range accepts the call, and then all of them are disabled; EFAULT otherwise; only hw_enable of ports in the range changes |
| XpPort.PortTable.EnsureInitialized | ops-switchd-xpliant-plugin/src/ops-xp-port.c:57-87 | the port group is marked initialised exactly when the SDK initialisation calls succeed; otherwise nothing changes |
| XpPort.PortTable.MacModeSet | ops-switchd-xpliant-plugin/src/ops-xp-port.c:49-148 | EFAULT when initialisation fails; the current mode gives 0 and disables no port; a switch disables ports port_num..port_num+cnt-1 and records the new mode |
| XpPort.PortTable.SwitchMode | ops-switchd-xpliant-plugin/src/ops-xp-port.c:89-146 | the current mode gives 0 and no change; a switch succeeds exactly when the SDK calls and every disable succeed, and then the mode is recorded |
| XpNetdev.ScanInt | ops-switchd-xpliant-plugin/src/ops-xp-netdev.c:407-415 | sscanf's %d: a leading digit run gives its value, a string without digits gives no conversion |
| XpNetdev.SpeedConfig | ops-switchd-xpliant-plugin/src/ops-xp-netdev.c:407-415 | a missing or unparsable speed list gives 40000 |
| XpNetdev.SpeedConfigReadsFirstSpeed | ops-switchd-xpliant-plugin/src/ops-xp-netdev.c:407-415 | a speed list starting with a speed's decimal form configures exactly that speed |
| XpNetdev.RequestedCfg | ops-switchd-xpliant-plugin/src/ops-xp-netdev.c:532-548 | a disable request gives the all-zero config; otherwise autoneg and duplex are set only for on/full, pause maps rx, tx and rxtx to its two flags, and speed and MTU are the configured ones |
| XpNetdev.IsPortConfigChanged | ops-switchd-xpliant-plugin/src/ops-xp-netdev.c:447-462 | true exactly when some of the seven fields differ |
| XpNetdev.ParentMacMode | ops-switchd-xpliant-plugin/src/ops-xp-netdev.c:479-506 | 1x10, 1x50 and 1x100 exactly for speeds 10000, 50000 and 100000, and 1x40 for anything else |
| XpNetdev.MacModeTarget | ops-switchd-xpliant-plugin/src/ops-xp-netdev.c:559-571 | a split parent moves to its single-lane mode; a subport puts its parent in 4x10; any other port is put in 4x10 |
| XpNetdev.HwAddr | ops-switchd-xpliant-plugin/src/ops-xp-netdev.c:186-192 | six bytes starting aa:55 |
| XpNetdev.HwAddrEncodesCounter | ops-switchd-xpliant-plugin/src/ops-xp-netdev.c:186-192 | the last four bytes are the 32-bit counter, most significant byte first |
| XpNetdev.HwAddrInjective | ops-switchd-xpliant-plugin/src/ops-xp-netdev.c:186-192 | distinct counter values below 2^32 give distinct addresses |
| XpNetdev.InternalUpdateFlags | ops-switchd-xpliant-plugin/src/ops-xp-netdev.c:1392-1411 | EOPNOTSUPP exactly when a flag other than NETDEV_UP is touched; otherwise the device's flags are reported |
| XpNetdev.SubintfUpdateFlags | ops-switchd-xpliant-plugin/src/ops-xp-netdev.c:1529-1584 | EOPNOTSUPP exactly for a flag other than NETDEV_UP; otherwise UP is reported only when set and the parent is enabled |
| XpNetdev.Netdev.constructor | ops-switchd-xpliant-plugin/src/ops-xp-netdev.c:147-199 | a new netdev has the all-zero config, link down, no link resets and an uninitialised interface |
| XpNetdev.Netdev.LinkStateCallback | ops-switchd-xpliant-plugin/src/ops-xp-netdev.c:812-830 | link_status becomes !!status, and link_resets grows by one only on link up |
| XpNetdev.Netdev.PortSetConfig | ops-switchd-xpliant-plugin/src/ops-xp-port.c:315-438 | pcfg becomes the new config; disabling a port clears link_status; the port's hw_enable follows the config |
| XpNetdev.Netdev.HandleHostPortFilters | ops-switchd-xpliant-plugin/src/ops-xp-netdev.c:464-477 | enabling a port without a filter creates one; disabling removes it; an existing filter stays |
| XpNetdev.Netdev.SetHwIntfConfig | ops-switchd-xpliant-plugin/src/ops-xp-netdev.c:508-592 | EPERM and no change at all (config, ports, filter, link state, port-down notices) when uninitialised; otherwise the result is OK and pcfg becomes the requested config; an unchanged config returns early with nothing else touched; a changed one sets the port's hardware enable to the requested state, and disabling clears the host filter and brings the link down |
| XpNetdev.Netdev.UpdateFlags | ops-switchd-xpliant-plugin/src/ops-xp-netdev.c:665-709 | EOPNOTSUPP for a flag other than NETDEV_UP or a disabled port; EPERM for an unknown port; otherwise UP follows the port's enable state, and enabling drives set_enable |
| XpDev.NamesAfterAdd | ops-switchd-xpliant-plugin/src/ops-xp-dev.c:746-773 | EEXIST and no change exactly when the id is already mapped; otherwise 0 and the id maps to the name, every other id unchanged |
| XpDev.NamesAfterRemove | ops-switchd-xpliant-plugin/src/ops-xp-dev.c:776-802 | the id is no longer mapped, an absent id leaves the map alone, and every other id is unchanged |
| XpDev.AddThenRemoveRestores | ops-switchd-xpliant-plugin/src/ops-xp-dev.c:746-802 | removing an id that was just added restores the map |
| XpDev.Registry.constructor | ops-switchd-xpliant-plugin/src/ops-xp-dev.c:152-185 | the registry starts with no device |
| XpDev.Registry.Lookup | ops-switchd-xpliant-plugin/src/ops-xp-dev.c:103-107 | a device exactly for an id below XP_MAX_DEVICES with a filled slot |
| XpDev.Registry.ById | ops-switchd-xpliant-plugin/src/ops-xp-dev.c:113-127 | the lookup, taking one more reference on success and changing nothing otherwise |
| XpDev.Registry.Ref | ops-switchd-xpliant-plugin/src/ops-xp-dev.c:130-138 | one more reference to a device, nothing for NULL |
| XpDev.Registry.Alloc | ops-switchd-xpliant-plugin/src/ops-xp-dev.c:152-185 | NULL for an invalid id; an existing device is returned as it is; otherwise a fresh device with init_done false fills the slot |
| XpDev.Registry.IsInitialized | ops-switchd-xpliant-plugin/src/ops-xp-dev.c:187-191 | false for NULL, otherwise the device's init_done |
| XpDev.Registry.Free | ops-switchd-xpliant-plugin/src/ops-xp-dev.c:379-442 | NULL or an empty slot changes nothing; the last reference empties the slot; otherwise the count drops by one |
| XpDev.Registry.GetPortInfo | ops-switchd-xpliant-plugin/src/ops-xp-dev.c:730-743 | a port record exactly for a known device id and a port below XP_MAX_TOTAL_PORTS |
| XpDev.Registry.AddIntfEntry | ops-switchd-xpliant-plugin/src/ops-xp-dev.c:746-773 | 0 and no change for NULL; otherwise the device's names map follows NamesAfterAdd |
| XpDev.Registry.RemoveIntfEntry | ops-switchd-xpliant-plugin/src/ops-xp-dev.c:776-802 | NULL changes nothing; otherwise the device's names map follows NamesAfterRemove |
| XpDev.Registry.GetIntfName | ops-switchd-xpliant-plugin/src/ops-xp-dev.c:806-829 | the name mapped to the id, None for NULL or an unmapped id |
| XpDev.Padded | ops-switchd-xpliant-plugin/src/ops-xp-dev.c:471-488 | the payload unchanged at the front, zero-padded to 64 bytes when shorter |
| XpDev.PktSize16 | ops-switchd-xpliant-plugin/src/ops-xp-dev.c:455-475 | as written: the buffer size computed in the 16-bit pkt_size is below 2^16 |
| XpDev.PktSizeWrapsForLargePayload | ops-switchd-xpliant-plugin/src/ops-xp-dev.c:455-470 | a 65535-byte payload with a 16-byte header gets a 15-byte buffer |
| XpDev.PktSize | ops-switchd-xpliant-plugin/src/ops-xp-dev.c:455-470 | the corrected size covers the header and the padded payload, and equals the 16-bit one whenever that does not wrap |
| XpDev.DevSend | ops-switchd-xpliant-plugin/src/ops-xp-dev.c:445-508 | EINVAL for a NULL buffer, EPERM without the CPU interface; otherwise the frame is the header followed by the padded payload |
| XpHostTap.TapInfo.constructor | ops-switchd-xpliant-plugin/src/ops-xp-host-tap.c:114-155 | no fd entries and no filters |
| XpHostTap.TapInfo.IfCreate | ops-switchd-xpliant-plugin/src/ops-xp-host-tap.c:207-269 | EFAULT and no change on any failure; otherwise the fd entry is registered with filter_created false and send_if_id equal to the interface id |
| XpHostTap.TapInfo.FilterCreate | ops-switchd-xpliant-plugin/src/ops-xp-host-tap.c:318-365 | EINVAL for an id <= 0, ENOENT for an unknown fd, 0 and no change when the filter exists; otherwise filter id if_id+1 and the entry joins the if-id map |
| XpHostTap.TapInfo.FilterDelete | ops-switchd-xpliant-plugin/src/ops-xp-host-tap.c:367-402 | the entry is found by if_id = id-1; ENOENT when absent; otherwise it leaves the if-id map and its flag is cleared |
| XpHostTap.TapInfo.IfDelete | ops-switchd-xpliant-plugin/src/ops-xp-host-tap.c:271-316 | EINVAL for an invalid id, ENOENT for an unknown one; otherwise both the filter and the fd entry go |
| XpHostTap.TapInfo.ControlIdSet | ops-switchd-xpliant-plugin/src/ops-xp-host-tap.c:404-466 | EFAULT before init, EINVAL for a descriptor not above 0, ENOENT for an unknown one; otherwise only that entry's send_if_id can change: on set, the port's control interface id (EPERM when the type query or the control-id query fails, nothing for a non-port), on clear the `xps_if_id` argument |
| QosProfile.U32 | ops-classifierd/src/qos/switchd-plugin/src/qos_profile.c:121-122 | the (unsigned) cast: the value modulo 2^32, unchanged when it fits |
| QosProfile.I32 | ops-classifierd/src/qos/switchd-plugin/src/qos_profile.c:291 | the (int) cast: two's-complement reduction to 32 bits, unchanged when it fits |
| QosProfile.ScheduleAlgorithm | ops-classifierd/src/qos/switchd-plugin/src/qos_profile.c:167-185 | DWRR exactly for "dwrr"; anything else, NULL included, is STRICT |
| QosProfile.LocalPrioritiesOf | ops-classifierd/src/qos/switchd-plugin/src/qos_profile.c:145-158 | one unsigned local priority per configured one, in order |
| QosProfile.QueueSettingsOf | ops-classifierd/src/qos/switchd-plugin/src/qos_profile.c:80-164 | no profile gives no settings; otherwise one entry per profile key, in order, with its queue number and local priorities |
| QosProfile.ScheduleSettingsOf | ops-classifierd/src/qos/switchd-plugin/src/qos_profile.c:217-297 | a schedule named "strict" gives one STRICT entry with weight 0 per queue-profile key; any other gives one entry per queue with its algorithm and weight, 0 when unset |
| QosProfile.StrictScheduleIsUniform | ops-classifierd/src/qos/switchd-plugin/src/qos_profile.c:235-263 | a strict schedule is STRICT with weight 0 on every queue, numbered as the queue profile |
| QosProfile.CopyLocalPriorities | ops-classifierd/src/qos/switchd-plugin/src/qos_profile.c:145-158 | the copy loop yields the local priorities |
| QosProfile.QueueProfileSettings | ops-classifierd/src/qos/switchd-plugin/src/qos_profile.c:80-164 | the loop builds exactly the queue settings |
| QosProfile.ScheduleProfileSettings | ops-classifierd/src/qos/switchd-plugin/src/qos_profile.c:217-297 | the loop builds exactly the schedule settings |
| QosProfile.ProviderArgs | ops-classifierd/src/qos/switchd-plugin/src/qos_profile.c:300-333 | the provider gets the schedule settings when there is a schedule, and always the queue settings |
| QosProfile.ApplyProfile | ops-classifierd/src/qos/switchd-plugin/src/qos_profile.c:300-333 | the status is the provider's answer to those settings |
| QosProfile.FirstWhere | ops-classifierd/src/qos/switchd-plugin/src/qos_profile.c:521-560 | the first row satisfying the test, None exactly when none does |
| QosProfile.FindFirst | ops-classifierd/src/qos/switchd-plugin/src/qos_profile.c:521-560 | the FOR_EACH-with-break loop finds the first matching row |
| QosProfile.ResolvePortProfile | ops-classifierd/src/qos/switchd-plugin/src/qos_profile.c:521-580 | the loop-based fallback equals the port fallback reference |
| QosProfile.PortFallback | ops-classifierd/src/qos/switchd-plugin/src/qos_profile.c:521-580 | port, then System, then "default", then hw_default; None exactly when none of them exists |
| QosProfile.GlobalFallback | ops-classifierd/src/qos/switchd-plugin/src/qos_profile.c:375-423 | the System row's profile, else the first named "default"; there is no hw_default fallback |
| QosProfile.NameNeedsApply | ops-classifierd/src/qos/switchd-plugin/src/qos_profile.c:365-396 | apply is needed exactly when the recorded name is missing or differs |
| QosProfile.PortApplyNeeded | ops-classifierd/src/qos/switchd-plugin/src/qos_profile.c:590-624 | apply is needed exactly when forced, a recorded name is missing, or a name differs |
| QosProfile.RecordApplied | ops-classifierd/src/qos/switchd-plugin/src/qos_profile.c:443-463 | after a successful apply both names are recorded, every other key is kept, and nothing more needs applying for those profiles |
| QosProfile.QosGlobals.ConfigureGlobalProfiles | ops-classifierd/src/qos/switchd-plugin/src/qos_profile.c:336-468 | when the System row and its profile columns changed and both profiles resolve, an apply needed by either name calls the provider and, on success, records both names; otherwise the status is unchanged |
| QosProfile.ConfigurePortProfiles | ops-classifierd/src/qos/switchd-plugin/src/qos_profile.c:471-665 | a system-type port whose profiles resolve, whose apply is needed and whose queue counts match is applied and records both names on success; force counts only when the interfaces column changed |
| QosTrust.TrustValue | ops-classifierd/src/qos/cli/qos_trust_port_vty.c:41-61 | the port's own trust key wins; otherwise the System row's key; otherwise "none" |
| QosTrust.SetTrust | ops-classifierd/src/qos/cli/qos_trust_port_vty.c:67-115 | the trust key is set to the new name, every other key is kept, and the port then reads as that name |
| QosTrust.RemoveTrust | ops-classifierd/src/qos/cli/qos_trust_port_vty.c:148-189 | the trust key is removed, every other key is kept, and the port then reads as if it had no setting (System value or "none") |
| QosTrust.TrustDb.TrustPort | ops-classifierd/src/qos/cli/qos_trust_port_vty.c:67-115 | success exactly when the port and name are given, the port is not a LAG member and exists, and the transaction commits; on success only that port's row changes; on failure nothing changes |
| QosTrust.TrustDb.TrustPortNo | ops-classifierd/src/qos/cli/qos_trust_port_vty.c:148-189 | the same refusals; on success the key is removed from that port only and it reads as the fallback; on failure nothing changes |
| SnmpVty.Take | ops-snmpd/src/cli/snmp_vty.c:827-875 | the truncation `strncpy` into a fixed buffer applies: at most n characters, a prefix of the input, and the whole input when it fits |
| SnmpVty.NewV3User | ops-snmpd/src/cli/snmp_vty.c:969-991 | the inserted v3 user carries the given name; auth and priv default to "none" without keys when not given; given protocols and keys are stored as given |
| SnmpVty.TxnCode | ops-snmpd/src/cli/snmp_vty.c:870-874 | every status a blocking commit returns is nonzero; committed ones are TXN_UNCHANGED or TXN_SUCCESS and failures the codes from TXN_ABORTED to TXN_ERROR |
| SnmpVty.FailedCommunityCommitReportsSuccess | ops-snmpd/src/cli/snmp_vty.c:870-874 | as written, a community command whose commit fails replies CMD_SUCCESS |
| SnmpVty.CountAfterAddsAsWritten | ops-snmpd/src/cli/snmp_vty.c:51-108 | as written, the static counter follows a run of otherwise acceptable adds up to 31 and stays there |
| SnmpVty.TrapLimitAdmitsThirtyFirst | ops-snmpd/src/cli/snmp_vty.c:51-108 | as written, 31 adds into a fresh session are all accepted, one more than MAX_ALLOWED_SNMP_TRAPS, and no run goes past 31 |
| SnmpVty.CappedLimitBoundsTraps | ops-snmpd/src/cli/snmp_vty.c:51-108 | with the limit test the header's MAX_ALLOWED_SNMP_TRAPS intends, a run of adds is accepted up to 30 and every later add is refused |
| SnmpVty.RemovePreservesOrder | ops-snmpd/src/cli/snmp_vty.c:900-906 | removing a community that occurs once keeps the others in their order and shortens the list by exactly one |
| SnmpVty.AddThenRemoveRestores | ops-snmpd/src/cli/snmp_vty.c:827-932 | adding a community that is not present and then removing it gives back the original list |
| SnmpVty.ScanCommunities | ops-snmpd/src/cli/snmp_vty.c:900-906 | the copy loop yields exactly the communities other than the name, in order, and reports whether the name was present |
| SnmpVty.SnmpDb.UserExists | ops-snmpd/src/cli/snmp_vty.c:31-42 | a user is found exactly when some user name agrees with the given one in its first MAX_V3_USER_NAME_LENGTH characters |
| SnmpVty.SnmpDb.TrapExists | ops-snmpd/src/cli/snmp_vty.c:73-84 | a duplicate is found exactly when some row agrees on address, UDP port, version and type (the community is not compared) |
| SnmpVty.SnmpDb.HostConfig | ops-snmpd/src/cli/snmp_vty.c:44-113 | refused without change at the trap limit, for an invalid address, for a v3 receiver whose user does not exist and for a duplicate; otherwise the new row is appended and the counter grows by one on commit, and a failed transaction changes nothing; the counter never exceeds the limit |
| SnmpVty.SnmpDb.HostUnconfig | ops-snmpd/src/cli/snmp_vty.c:235-267 | on commit every row matching address, port, version and type is deleted and the others kept in order, whatever their community; on failure nothing changes |
| SnmpVty.SnmpDb.AddCommunity | ops-snmpd/src/cli/snmp_vty.c:827-875 | with ten communities, or one equal in its first 33 characters, the list is unchanged; otherwise the name is appended on commit; no transaction gives CMD_OVSDB_FAILURE; communities stay distinct |
| SnmpVty.SnmpDb.RemoveCommunity | ops-snmpd/src/cli/snmp_vty.c:887-932 | an unconfigured community changes nothing; a configured one is dropped on commit, the rest keeping their order, and the list shrinks by one; a failed transaction changes nothing |
| SnmpVty.SnmpDb.AddUser | ops-snmpd/src/cli/snmp_vty.c:946-997 | a name that matches an existing user changes nothing; otherwise the new row is appended on commit and a failed transaction changes nothing; user names stay distinct |
| SnmpVty.SnmpDb.RemoveUser | ops-snmpd/src/cli/snmp_vty.c:1048-1093 | refused without change while a trap row names the user; otherwise every matching user is deleted on commit, the others kept in order |
| SnmpVty.SnmpDb.SetOtherConfig | ops-snmpd/src/cli/snmp_vty.c:600-638 | on commit the key is set to the value, or removed when the value is absent, and the rest of other_config is kept; on failure nothing changes (also used for agent port and location) |
| SnmpVty.SnmpDb.SetSystemDescription | ops-snmpd/src/cli/snmp_vty.c:491-529 | on commit the description key is set to the given text, or back to the switch version when unset; on failure nothing changes |
| SnmpContext.OptLine | ops-snmpd/src/cli/vtysh_ovsdb_snmp_context.c:75-93 | an optional line is printed, as prefix and value, exactly when the value is set |
| SnmpContext.DescriptionShownIff | ops-snmpd/src/cli/vtysh_ovsdb_snmp_context.c:63-70 | the description is printed exactly when it is set and does not begin with the switch version; the default description, the version itself, is never printed |
| SnmpContext.CommunityLines | ops-snmpd/src/cli/vtysh_ovsdb_snmp_context.c:95-99 | one community line per stored community, in stored order |
| SnmpContext.SystemLines | ops-snmpd/src/cli/vtysh_ovsdb_snmp_context.c:60-100 | the System part has one line for each of agent port, configured description, location and contact that is set, with the agent-port line first, followed by exactly the community lines |
| SnmpContext.NextFlags | ops-snmpd/src/cli/vtysh_ovsdb_snmp_context.c:105-114 | after a row, each of the three flags is set exactly when it was already set or the row sets it; none is ever cleared |
| SnmpContext.TrapLineParts | ops-snmpd/src/cli/vtysh_ovsdb_snmp_context.c:116-165 | under the v3 flag the line names the user; otherwise it names the community only when the community flag is up; the port appears exactly when the port flag is up |
| SnmpContext.TrapLines | ops-snmpd/src/cli/vtysh_ovsdb_snmp_context.c:102-167 | one trap line per trap row |
| SnmpContext.TrapLineUsesAccumulatedFlags | ops-snmpd/src/cli/vtysh_ovsdb_snmp_context.c:102-167 | trap line j is printed under the flags accumulated over rows 0 to j, not under row j's own flags |
| SnmpContext.FlagsAreSticky | ops-snmpd/src/cli/vtysh_ovsdb_snmp_context.c:105-114 | after all rows each flag is up exactly when some row has a non-default community, a non-default port, or version v3 |
| SnmpContext.FirstTrapLineIsCommand | ops-snmpd/src/cli/vtysh_ovsdb_snmp_context.c:102-167 | the first trap line is the command its own row would be configured by |
| SnmpContext.StickyV3FlagMisprintsV2Row | ops-snmpd/src/cli/vtysh_ovsdb_snmp_context.c:107-164 | a v2c row visited after a v3 row is printed with "user", a line the host command does not accept and which differs from that row's own command |
| SnmpContext.CorrectedTrapLines | ops-snmpd/src/cli/vtysh_ovsdb_snmp_context.c:102-167 | with per-row flags, every trap line is exactly its own row's command |
| SnmpContext.CorrectedLinesArePerRow | ops-snmpd/src/cli/vtysh_ovsdb_snmp_context.c:102-167 | each corrected line equals what that row prints when it is the only row, so it does not depend on the rows before it |
| SnmpContext.UserLine | ops-snmpd/src/cli/vtysh_ovsdb_snmp_context.c:168-198 | a user line shows auth and auth-pass exactly when the auth protocol is not "none", and priv and priv-pass only when, in addition, the priv protocol is not "none" |
| SnmpContext.UserLineRoundTrip | ops-snmpd/src/cli/vtysh_ovsdb_snmp_context.c:168-198 | a user created by any command the grammar accepts is printed back as exactly that command |
| SnmpContext.UserLines | ops-snmpd/src/cli/vtysh_ovsdb_snmp_context.c:168-200 | one user line per user, in the order visited |
| SnmpContext.RunningConfigOf | ops-snmpd/src/cli/vtysh_ovsdb_snmp_context.c:44-202 | the output holds the System lines when there is a System row, one line per trap and one per user, ending in the user lines |
| SnmpContext.PrintSystem | ops-snmpd/src/cli/vtysh_ovsdb_snmp_context.c:60-100 | the printed System part is exactly SystemLines |
| SnmpContext.PrintCommunities | ops-snmpd/src/cli/vtysh_ovsdb_snmp_context.c:95-99 | the community loop appends exactly the community lines |
| SnmpContext.PrintTraps | ops-snmpd/src/cli/vtysh_ovsdb_snmp_context.c:102-167 | the trap loop prints exactly the trap lines with flags carried from row to row |
| SnmpContext.PrintUsers | ops-snmpd/src/cli/vtysh_ovsdb_snmp_context.c:168-200 | the user loop prints exactly the user lines |
| SnmpContext.RunningConfig | ops-snmpd/src/cli/vtysh_ovsdb_snmp_context.c:44-202 | the callback's output is exactly RunningConfigOf |
| SnmpOvsdb.AgentSection | ops-snmpd/src/snmp_ovsdb_if.c:71-83 | the agent section is its banner and a UDP address line with the configured agent port, or 161 when none is set |
| SnmpOvsdb.SystemSection | ops-snmpd/src/snmp_ovsdb_if.c:85-120 | sysDescr is the configured description or else the switch version; contact and location fall back to an empty quoted string |
| SnmpOvsdb.CommunitySection | ops-snmpd/src/snmp_ovsdb_if.c:128-140 | with no community array only "rocommunity public" is written; otherwise one rocommunity line per community, in order |
| SnmpOvsdb.UserChunksMatchSecurity | ops-snmpd/src/snmp_ovsdb_if.c:149-182 | a user with no auth gets a plain createUser/rouser pair; with auth only the MD5/SHA name, key and "auth"; with auth and priv also the AES/DES name, priv key and "priv" |
| SnmpOvsdb.UsersSection | ops-snmpd/src/snmp_ovsdb_if.c:149-182 | two pieces per user, createUser then rouser, in the order the users are visited |
| SnmpOvsdb.EngineIdOf | ops-snmpd/src/snmp_ovsdb_if.c:188-198 | the engine ID starts with the fixed head "0x0000b8a303", is no longer than the head plus the MAC, and contains no colon after the head |
| SnmpOvsdb.StandardMacEngineId | ops-snmpd/src/snmp_ovsdb_if.c:188-198 | for a MAC written as six two-digit groups joined by colons, the engine ID is the head followed by the twelve digits, 24 characters |
| SnmpOvsdb.BuildEngineId | ops-snmpd/src/snmp_ovsdb_if.c:188-198 | the character loop builds exactly EngineIdOf of the MAC |
| SnmpOvsdb.WriteCommunities | ops-snmpd/src/snmp_ovsdb_if.c:128-140 | the community loop appends exactly CommunitySection |
| SnmpOvsdb.WriteUsers | ops-snmpd/src/snmp_ovsdb_if.c:149-182 | the user loop appends exactly UsersSection |
| SnmpOvsdb.GenerateConf | ops-snmpd/src/snmp_ovsdb_if.c:58-210 | the text written is exactly ConfFile: agent, system, community, user and engine sections in that order |
| SnmpOvsdb.LastUserDeletionMissed | ops-snmpd/src/snmp_ovsdb_if.c:225-232 | deleting the last v3 user leaves no first row, so the test as written does not regenerate although the user table changed |
| SnmpOvsdb.RegenerateTestsAgree | ops-snmpd/src/snmp_ovsdb_if.c:225-245 | while a user row remains the two tests agree, and the test as written never regenerates when the corrected one would not |
| SnmpOvsdb.LatchIsSticky | ops-snmpd/src/snmp_ovsdb_if.c:25-42 | the configured latch is set after a run of polls exactly when it was set before or some poll saw a System row with positive cur_cfg |
| SnmpOvsdb.SnmpAgent.IsConfigured | ops-snmpd/src/snmp_ovsdb_if.c:25-42 | the latch is set once a System row with positive cur_cfg is seen and stays set; the result is the new latch |
| SnmpOvsdb.SnmpAgent.Reconfigure | ops-snmpd/src/snmp_ovsdb_if.c:213-252 | with a System row, a change needing regeneration and an openable file the config becomes ConfFile and one write happens; otherwise nothing changes |
| SnmpOvsdb.SnmpAgent.Run | ops-snmpd/src/snmp_ovsdb_if.c:254-270 | nothing happens until configured or while the sequence number is unchanged; otherwise Reconfigure runs and the new sequence number is remembered |
| SnmptrapLib.OverlongMacWritesPastBuffer | ops-snmpd/src/snmptrap/snmptrap_lib.c:57-70 | as written, a MAC long enough to fill the buffer makes the loop write at index 32 of the 32-character buffer before the bound test runs |
| SnmptrapLib.CStringUpToNul | ops-snmpd/src/snmptrap/snmptrap_lib.c:213-214 | a NUL at position n ends the C string there: it is the C string of the first n characters |
| SnmptrapLib.CString | ops-snmpd/src/snmptrap/snmptrap_lib.c:213-214 | the engine ID buffer as C reads it: a prefix of the buffer with no NUL, ending at the first NUL when there is one |
| SnmptrapLib.FirstUserNamed | ops-snmpd/src/snmptrap/snmptrap_lib.c:75-85 | no index exactly when no user has the name; otherwise the first user with exactly that name |
| SnmptrapLib.SecurityOf | ops-snmpd/src/snmptrap/snmptrap_lib.c:87-194 | a security exactly when priv is not set without auth, each set protocol is one of the two known ones and its key can be generated; the level is no-auth, auth-no-priv or auth-priv as the protocols say, and the protocols are carried over |
| SnmptrapLib.SecurityOfCreatedUser | ops-snmpd/src/snmptrap/snmptrap_lib.c:87-194 | a user created by a command the grammar accepts gets the session security its command asked for |
| SnmptrapLib.TrapCommunityOf | ops-snmpd/src/snmptrap/snmptrap_lib.c:249-260 | an empty community becomes "public"; a community that fits is kept; the result is never empty and fits the 64-character buffer |
| SnmptrapLib.FindUser | ops-snmpd/src/snmptrap/snmptrap_lib.c:75-85 | the search loop finds exactly FirstUserNamed |
| SnmptrapLib.TrapLib.CreateEngineId | ops-snmpd/src/snmptrap/snmptrap_lib.c:50-73 | -1 without a System row, leaving the buffer unchanged; otherwise the head is written and, exactly when the ID fits, the buffer holds the head, the MAC without colons and a NUL, and 0 is returned (the bound is tested before each write) |
| SnmptrapLib.TrapLib.AddV3User | ops-snmpd/src/snmptrap/snmptrap_lib.c:196-247 | success exactly when a session is returned; an engine ID already built is kept, and one built here is the head followed by the MAC without colons; success exactly when the engine ID is usable (already built, or buildable from the System row), its binary form is 5 to 32 bytes, the trap's user exists and its security is valid; the session then carries that length, that security and the user name as security name |
| SnmptrapLib.TrapLib.AddTrapCommunity | ops-snmpd/src/snmptrap/snmptrap_lib.c:249-260 | the stored and returned community is TrapCommunityOf of the row's community |
| PasswdYaml.KeyOf | ops-passwd-srv/src/lib/passwd_srv_yaml.c:228-256 | a NULL scalar is the end marker; exactly "type", "path" and "description" are keys; any other text, "values" included, is a value |
| PasswdYaml.TypeNamed | ops-passwd-srv/src/lib/passwd_srv_yaml.c:183-192 | only the exact texts "SOCKET" and "PUB_KEY" name a path type; "NONE" and everything else name none |
| PasswdYaml.FirstOfType | ops-passwd-srv/src/lib/passwd_srv_yaml.c:134-150 | the index of the first entry of the type, with no earlier entry of that type, or none when no entry has it |
| PasswdYaml.AddedType | ops-passwd-srv/src/lib/passwd_srv_yaml.c:201-217 | an existing entry of the type is reused with the list unchanged; otherwise a zeroed entry is appended at the tail; either way it is the first of its type, and types stay unique |
| PasswdYaml.Overlay | ops-passwd-srv/src/lib/passwd_srv_yaml.c:52-52 | copying a description without its NUL over the old one: the new text is a prefix, and an older, longer tail survives |
| PasswdYaml.FilePathOf | ops-passwd-srv/src/lib/passwd_srv_yaml.c:414-428 | no path exactly when no entry has the type; otherwise the path of an entry of that type |
| PasswdYaml.Step | ops-passwd-srv/src/lib/passwd_srv_yaml.c:303-381 | a scalar that does not end the parse leaves the current entry, if any, an index into the list |
| PasswdYaml.ParseOutcome | ops-passwd-srv/src/lib/passwd_srv_yaml.c:263-406 | the result is SUCCESS, FATAL or YAML_FILE; SUCCESS only when the parser starts, the file opens and the stream ends; YAML_FILE exactly when the file cannot be opened after the parser started; without both the list is unchanged |
| PasswdYaml.RunKeepsTypes | ops-passwd-srv/src/lib/passwd_srv_yaml.c:301-396 | parsing never removes an entry or changes its type, and keeps the types unique |
| PasswdYaml.PathBeforeTypeIsFatal | ops-passwd-srv/src/lib/passwd_srv_yaml.c:325-353 | a path or description value before any type value is FATAL and leaves the list as it was |
| PasswdYaml.SocketFileRead | ops-passwd-srv/src/lib/passwd_srv_yaml.c:263-444 | a file with one SOCKET entry, read into an empty list, gives exactly that entry; its socket path is then found and no public-key path exists |
| PasswdYaml.RepeatedTypeReusesEntry | ops-passwd-srv/src/lib/passwd_srv_yaml.c:201-217 | a repeated SOCKET type reuses the first entry and overwrites its path instead of adding another entry |
| PasswdYaml.YamlStore.CheckYamlEvent | ops-passwd-srv/src/lib/passwd_srv_yaml.c:228-256 | the key-table loop computes exactly KeyOf |
| PasswdYaml.YamlStore.PathTypeOf | ops-passwd-srv/src/lib/passwd_srv_yaml.c:174-199 | the name-table loop computes exactly TypeNamed |
| PasswdYaml.YamlStore.FindEntry | ops-passwd-srv/src/lib/passwd_srv_yaml.c:134-150 | the list walk finds exactly FirstOfType |
| PasswdYaml.YamlStore.GetFilePath | ops-passwd-srv/src/lib/passwd_srv_yaml.c:414-428 | the list walk returns exactly FilePathOf |
| PasswdYaml.YamlStore.AddPathType | ops-passwd-srv/src/lib/passwd_srv_yaml.c:161-220 | an entry is returned exactly when a valid type is named; the list becomes AddedType; otherwise it is unchanged |
| PasswdYaml.YamlStore.AddYamlFilePath | ops-passwd-srv/src/lib/passwd_srv_yaml.c:64-79 | success exactly when entry and path are given and the path with its NUL fits 255 bytes; the path is then stored whole in that entry only; otherwise FATAL and no change |
| PasswdYaml.YamlStore.AddYamlPathDesc | ops-passwd-srv/src/lib/passwd_srv_yaml.c:40-55 | success exactly when entry and description are given and the description is at most 255 characters; it is then copied over the old one in that entry only; otherwise FATAL and no change |
| PasswdYaml.YamlStore.Parse | ops-passwd-srv/src/lib/passwd_srv_yaml.c:263-406 | the result code and the new list are exactly ParseOutcome |
| PasswdYaml.YamlStore.Uninit | ops-passwd-srv/src/lib/passwd_srv_yaml.c:449-475 | the list is emptied, the call always succeeds, and no path is found afterwards |
| PasswdUtil.L64a | ops-passwd-srv/src/passwd_srv_util.c:98-100 | every character of `l64a`'s text is one of its 64 digits, and a positive value gives at least one |
| PasswdUtil.L64aOfRandomIsShort | ops-passwd-srv/src/passwd_srv_util.c:98-100 | a value `random()` returns gives at most six digits |
| PasswdUtil.SaltFillReaches | ops-passwd-srv/src/passwd_srv_util.c:99-101 | the fill loop ends with at least the requested length and keeps what was already there |
| PasswdUtil.SaltFillDigits | ops-passwd-srv/src/passwd_srv_util.c:98-101 | every character the fill loop produces is an `l64a` digit |
| PasswdUtil.SaltFillStaysInBuffer | ops-passwd-srv/src/passwd_srv_util.c:88-101 | the salt stays under 22 characters before truncation, so it fits the 32-byte static buffer |
| PasswdUtil.GeneratedSalt | ops-passwd-srv/src/passwd_srv_util.c:85-106 | no salt exactly when the size is outside 8 to 16; otherwise exactly that many `l64a` digits |
| PasswdUtil.GenerateSalt | ops-passwd-srv/src/passwd_srv_util.c:85-106 | the method computes exactly GeneratedSalt |
| PasswdUtil.ShaSaltSize | ops-passwd-srv/src/passwd_srv_util.c:200-206 | as written, the SHA salt size is 8 to 17, and 17 exactly when `random()` returns RAND_MAX |
| PasswdUtil.ShaSaltSizeInRange | ops-passwd-srv/src/passwd_srv_util.c:200-206 | the corrected SHA salt size is always one `generate_salt` accepts |
| PasswdUtil.ShaSaltSizeCanBeRefused | ops-passwd-srv/src/passwd_srv_util.c:200-206 | as written, the size 17 is picked for RAND_MAX and `generate_salt` refuses it |
| PasswdUtil.ShaSaltInRangeIsGenerated | ops-passwd-srv/src/passwd_srv_util.c:355-368 | with the corrected size a SHA salt always exists and has at most 16 digits |
| PasswdUtil.FirstMatchingLine | ops-passwd-srv/src/passwd_srv_util.c:228-241 | the first line that starts with the target followed by a space, with no earlier matching line, or none when no line matches |
| PasswdUtil.RawLoginDefsValue | ops-passwd-srv/src/passwd_srv_util.c:215-245 | a value exactly when the file opens and some line is the target, a space and that value; none when the file does not open or no line matches |
| PasswdUtil.StripNewline | ops-passwd-srv/src/passwd_srv_util.c:234-236 | one trailing newline is removed and nothing else changes |
| PasswdUtil.LoginDefsValue | ops-passwd-srv/src/passwd_srv_util.c:215-245 | a value exactly when the raw lookup finds one, without its line's newline |
| PasswdUtil.SearchLoginDefs | ops-passwd-srv/src/passwd_srv_util.c:215-245 | none when the file does not open or no line has the target as its name; otherwise the value of the first such line, with its newline removed |
| PasswdUtil.MethodFrom | ops-passwd-srv/src/passwd_srv_util.c:295-328 | ENCRYPT_METHOD wins when set; otherwise DES exactly when MD5_CRYPT_ENAB is missing or a prefix of "no", and MD5 otherwise |
| PasswdUtil.Md5DisabledReadsAsMd5 | ops-passwd-srv/src/passwd_srv_util.c:234-236 | as written, "MD5_CRYPT_ENAB no" followed by a newline selects MD5, because the kept newline makes the value not a prefix of "no" |
| PasswdUtil.Md5DisabledReadsAsDes | ops-passwd-srv/src/passwd_srv_util.c:301-311 | with the newline removed, a login.defs with no ENCRYPT_METHOD and "MD5_CRYPT_ENAB no" selects DES, wherever the line is |
| PasswdUtil.SaltPrefix | ops-passwd-srv/src/passwd_srv_util.c:355-376 | "$1$" for a method starting MD5, else "$5$" for SHA256, else "$6$" for SHA512, else no salt for DES, else the empty prefix |
| PasswdUtil.SaltPrefixIgnoresSuffix | ops-passwd-srv/src/passwd_srv_util.c:355-376 | anything after the method name, a newline say, does not change the prefix |
| PasswdUtil.SaltLength | ops-passwd-srv/src/passwd_srv_util.c:343-368 | the salt length is always accepted: the SHA size for the two SHA methods, 8 for MD5 and unknown methods |
| PasswdUtil.NewSalt | ops-passwd-srv/src/passwd_srv_util.c:333-385 | no salt exactly when the method is DES; otherwise the prefix followed by exactly SaltLength `l64a` digits |
| PasswdUtil.Take | ops-passwd-srv/src/passwd_srv_util.c:381-382 | the `strncat` limit keeps at most n characters, a prefix, and all of a text that fits |
| PasswdUtil.MissingLoginDefsGivesNoSalt | ops-passwd-srv/src/passwd_srv_util.c:301-311 | an unreadable login.defs selects DES, and then no salt at all |
| PasswdUtil.Sha512SaltShape | ops-passwd-srv/src/passwd_srv_util.c:364-368 | a SHA512 method always gets "$6$" and 8 to 16 digits |
| PasswdUtil.SaltGenerator.FindEncryptMethod | ops-passwd-srv/src/passwd_srv_util.c:295-328 | the cached method becomes EncryptMethodOf of login.defs |
| PasswdUtil.SaltGenerator.CreateNewSalt | ops-passwd-srv/src/passwd_srv_util.c:333-385 | a cached method is kept and a missing one is looked up once; the result is NewSalt of the cached method |
| PasswdUtil.ValidateUser | ops-passwd-srv/src/passwd_srv_util.c:734-775 | success exactly for root, a password change by a member of ovsdb-client, or an add or delete by a member of ops_admin; INVALID_OPCODE exactly for a non-root user with another opcode; NULL is INVALID_USER |
| PasswdUtil.FirstNamed | ops-passwd-srv/src/passwd_srv_util.c:845-860 | the first shadow entry with exactly the name, with no earlier one, or none when no entry has it |
| PasswdUtil.WithoutUser | ops-passwd-srv/src/passwd_srv_util.c:269-273 | after userdel no entry has the name, every other entry is kept, and nothing new appears |
| PasswdUtil.CreateUserResult | ops-passwd-srv/src/passwd_srv_util.c:253-288 | an entry only after a useradd that ran, namely the lookup's result; after userdel always NULL |
| PasswdUtil.FailedUserdelReportsSuccess | ops-passwd-srv/src/passwd_srv_util.c:957-963 | as written, a userdel that `system()` cannot run is reported as SUCCESS, unlike the intended outcome |
| PasswdUtil.DeleteOutcome | ops-passwd-srv/src/passwd_srv_util.c:947-965 | the delete succeeds exactly when userdel ran, and reports USERDEL_FAILED otherwise |
| PasswdUtil.ShadowFile.FindPasswordInfo | ops-passwd-srv/src/passwd_srv_util.c:817-870 | the first entry with exactly the name when the file can be locked and opened; none otherwise |
| PasswdUtil.ShadowFile.StorePassword | ops-passwd-srv/src/passwd_srv_util.c:584-640 | FATAL and no change when the file cannot be locked or opened; PASSWD_UPD_FAIL and no change when the user is missing; otherwise only the first matching entry gets the new hash |
| PasswdUtil.OverwriteAt | ops-passwd-srv/src/passwd_srv_util.c:604-626 | a write after `fsetpos` on a stream opened "r+a": the text before the offset is kept, the line lies at the offset, and the file grows only when the line runs past its end |
| PasswdUtil.ShadowTextUpdateLength | ops-passwd-srv/src/passwd_srv_util.c:613-626 | replacing one entry changes the file's length by the change in that entry's line |
| PasswdUtil.ShorterHashLeavesFragment | ops-passwd-srv/src/passwd_srv_util.c:604-626 | as written, a hash shorter than the old one does not give the file with the entry replaced |
| PasswdUtil.LongerHashOverwritesNextEntry | ops-passwd-srv/src/passwd_srv_util.c:604-626 | as written, hash "xyz" for a in "a:x\nb:y\n" gives "a:xyz\ny\n", where the replaced file is "a:xyz\nb:y\n" |
| PasswdUtil.SameLengthHashRewritesEntry | ops-passwd-srv/src/passwd_srv_util.c:604-626 | a hash of the old one's length is rewritten in place into exactly the file with the entry replaced |
| PasswdUtil.ShadowFile.ProcessClientRequest | ops-passwd-srv/src/passwd_srv_util.c:878-973 | every error code with an unchanged file: unknown opcode, missing user, existing user, wrong old password, failed store, failed useradd; on success a change replaces exactly the user's hash, an add appends the user with the new hash, and a delete removes the user; a failed userdel is reported |
| PasswdUtil.WithoutAddedUser | ops-passwd-srv/src/passwd_srv_util.c:935-944 | removing a user that was just appended gives back the original file, so a failed add leaves no trace |
| PasswdUtil.ChangedPasswordIsFound | ops-passwd-srv/src/passwd_srv_util.c:889-915 | after a password change only the user's hash differs, and a second lookup finds the new hash at the same place |
| PasswdNetlink.RtaAlign | ops-passwd-srv/src/passwd_srv_netlink.c:74-74 | `RTA_ALIGN` rounds up to the next multiple of 4, adding less than 4 |
| PasswdNetlink.Visits | ops-passwd-srv/src/passwd_srv_netlink.c:62-75 | the attribute walk never visits more attributes than the reply holds |
| PasswdNetlink.WellFormedIsVisited | ops-passwd-srv/src/passwd_srv_netlink.c:62-75 | a reply whose attribute headers are all well-formed and fit in the length is walked in full |
| PasswdNetlink.MaskType | ops-passwd-srv/src/passwd_srv_netlink.c:68-68 | `rta_type & ~flags` stays an unsigned short |
| PasswdNetlink.NoFlagsKeepType | ops-passwd-srv/src/passwd_srv_netlink.c:120-121 | with flags 0, as `get_peer_inode` passes them, the masked type is `rta_type` itself |
| PasswdNetlink.LowFlagClearsLowBit | ops-passwd-srv/src/passwd_srv_netlink.c:68-68 | a flag bit clears the same bit of the type: with the lowest bit set in the flags, the masked type is even |
| PasswdNetlink.FirstTypedIsFirst | ops-passwd-srv/src/passwd_srv_netlink.c:70-73 | the table entry for a type is the first visited attribute of that masked type, with no earlier one, or none |
| PasswdNetlink.ParseSocketAttributes | ops-passwd-srv/src/passwd_srv_netlink.c:47-78 | a NULL table or message is FATAL and leaves the table untouched; otherwise SUCCESS, and each table entry is the first visited attribute of its type, later ones and types above UNIX_DIAG_MAX being skipped |
| PasswdNetlink.AttributeValue | ops-passwd-srv/src/passwd_srv_netlink.c:86-94 | 0 for a NULL entry, the entry's u32 otherwise |
| PasswdNetlink.ToInt32 | ops-passwd-srv/src/passwd_srv_netlink.c:130-130 | the u32 read as an int: unchanged below 2^31, and always within the 32-bit int range |
| PasswdNetlink.PeerInodeOf | ops-passwd-srv/src/passwd_srv_netlink.c:103-137 | 0 for NULL, for a reply about another socket and for a reply without a PEER attribute; otherwise the first PEER attribute's value as an int |
| PasswdNetlink.GetPeerInode | ops-passwd-srv/src/passwd_srv_netlink.c:103-137 | the method computes exactly PeerInodeOf |
| PasswdNetlink.PeerIsFound | ops-passwd-srv/src/passwd_srv_netlink.c:103-137 | in a well-formed reply about the server's socket with a single PEER attribute, the peer inode is that attribute's value |

## Left out

- General: threads, locks, poll loops and the event handlers are not modelled. The XPliant SDK, the OVSDB IDL and its transactions, libyaml, OpenSSL, `crypt()`, `random()`, `system()`, sockets and the file system are parameters (success flags, given values or event sequences) rather than models.
- General: the C code's hmaps, including those that allow several entries per hash, are modelled as maps keyed by the field the code looks entries up by; two entries under one key, which an hmap allows, are not modelled, and an insert under a key already present replaces its entry.
- XpVlan: the manager's reference counting (`ops_xp_vlan_mgr_ref`/`unref`) and the flooding and learning queries (`ops_xp_vlan_enable_flooding`, `ops_xp_vlan_is_flooding`, `ops_xp_vlan_is_learning`) are pass-throughs to the SDK with no state of the plugin's own, so they are not modelled.
- VrfTableId.Allocator.SetVrfId: an id outside 0..1023 is written outside `free_vrf_id[]` by the unchecked index (vrfmgrd_tableid_if.c:121-125); the model records the write as `strayWrite` and does not model the memory it overwrites.
- VrfTableId.Allocator.FreeVrfAllocatedId: models the NDEBUG build; for an id out of range or already free the C code runs `assert(0)` (vrfmgrd_tableid_if.c:160,167), which aborts the daemon in a build without NDEBUG, and the model returns false instead.
- VrfOvsdb.Manager.DeleteVrf: the C code frees the VRF's ports, name, namespace name and UUID (vrfmgrd_ovsdb_if.c:268-279) before it tests `free_vrf_allocated_id` (:280). When that fails it returns -1 and leaves the entry in `all_vrfs` with freed fields, which a later delete pass reads and frees again; on success it writes through `del_vrf` after freeing it (:284-288). The model keeps a failed entry intact and does not model freed memory.
- VrfOvsdb.Manager.DeletePass: `move_intf_to_default_ns` (moving the VRF's interfaces back to the default namespace) is operating system work and is taken to succeed; when it fails the C code skips the delete of that VRF.
- VrfOvsdb.Manager.CreateVrf: a restart table id without a slot reaches SetVrfId unchecked; only the stray write is recorded, not what it overwrites.
- VrfOvsdb.Manager.InsertPass: the same stray write as CreateVrf, for each row it caches.
- VrfOvsdb.Manager.Reconfigure: the same stray write as CreateVrf, through InsertPass.
- VrfOvsdb.Manager.Run: the same stray write as CreateVrf, through Reconfigure.
- XpVlan: XPS_VLANID_MIN and XPS_VLANID_MAX come from an XDK header that is not part of this model; they are taken as 1 and 4095.
- XpVlanBitmap.FromArrayInto: an id outside 0..4095 whose 16-bit cast is valid (65537, or a negative id) is read and set by `bitmap_is_set` and `bitmap_set1` outside the 4096-bit allocation; the model records those positions as a set of stray bits and does not model the memory they overwrite.
- XpVlanBitmap.FromArray: the same stray bits as FromArrayInto; the fresh buffer's stray positions are whatever the `outside` argument says, since memory past the allocation is not modelled.
- XpUtil: `ops_xp_system`, the packet socket and tun/tap helpers, `ops_xp_parse_ip_str`, `ops_xp_parse_netmask_str`, the tunnel-interface tests, `ops_xp_msleep`, `ops_xp_linux_route_update`, `ops_xp_net_if_setup` and `ops_xp_port_default_vlan_set` are OS or SDK I/O and are not modelled. In `string_to_prefix` the address parse (`inet_network`/`inet_pton`) is the `addrOk` parameter.
- XpMacLearning: reference counting, `ops_xp_mac_learning_lookup` (a plain hmap find), the event-handler thread and the SDK callbacks `on_aging`, `on_vlan_removed`, `on_port_down` and `on_idle_timer_expired` (they hand work to the thread), `dump_table` (output only) and the time-based gratuitous-ARP lock are not modelled. The FDB index the hardware assigns, and its rehash slot, are parameters.
- XpRouting: the L3 manager's destroy and reference counting, the route/next-hop hmaps beyond a per-prefix reference count (`route_add`, `route_update`, `nh_update`, `nh_lookup`, `delete_nh_entry` are SDK-driven and are results given to `RouteEntryAction`), the L3 interface create/enable/disable functions and the unixctl show/test commands are not modelled.
- XpClassifier: table init, the hmap lookup helpers, the rule-list teardown, `ops_xp_cls_list_update`, the statistics calls and the log-packet callback are SDK calls or memory teardown and are not modelled. The TCAM indices and the ACL-id allocator's answer are parameters.
- XpOfproto: the ofproto class plumbing (alloc/construct/destruct/run/wait, port dump and poll), the mirror, flood-VLAN and BPDU stubs, the L3 host/route/ECMP entry points (they forward to the routing manager), the unixctl FDB commands, `speed_to_str`, `bundle_update_l3_config`, `port_ip_reconfigure` for the primary address, `port_unconfigure_ips`, `bundle_update_hw_lag_config`, `bundle_update_single_slave_config` and `bundle_destroy`'s hardware teardown are not modelled. The hardware outcome of the VLAN rewrite in `bundle_update_vlan_config` is the single `frameOk` flag.
- XpOfproto.Bundle.AddSlavePorts: the model holds one bundle, so a port that belongs to another bundle is not first removed from it (`ofproto_xpliant_bundle_remove`, ops-xp-ofproto-provider.c:1122-1126), and that removal's default-VLAN request is not returned. The requests are returned to the caller rather than applied to the VLAN manager, and the SDK return codes, which the C code only logs, are not modelled.
- XpOfproto.Bundle.AddOne: the same single-bundle reading as AddSlavePorts.
- XpOfproto.Bundle.RemoveExtraPorts: the default-VLAN requests are returned rather than applied to the VLAN manager; the membership they depend on is the `members` argument, read once before the loop, and `ops_xp_port_default_vlan_set` after a retag is implied by the RetagDefault request.
- XpOfproto.Bundle.BundleSetPorts: the VLAN effects of its port reconcile are the returned requests, as for RemoveExtraPorts and AddSlavePorts, with the same single-bundle reading.
- XpStg: `ops_xp_delete_stg` and `ops_xp_get_stg_default` are single SDK calls with no logic of their own and are not modelled.
- XpPort: the port event handler thread, the link up/down event helpers and `link_netdev`/`unlink_netdev` (pointer bookkeeping) are not modelled.
- XpNetdev: the netdev class plumbing (alloc/destruct/dealloc, cast, register, lookups by name and number), `set_hw_intf_info`, the MAC-address get/set and the carrier, MTU, statistics, features, policing and QoS queue callbacks are SDK I/O and are not modelled. The IDL string constants ("on", "full", "rx", "tx", "rxtx") are assumed, because the IDL header is not part of this model; a NULL speeds string is treated as unparsable.
- XpDev: device init and system defaults, the receive/IPC/event handlers, the host and packet interface types and the mutex wrappers are SDK or thread code and are not modelled. The port records are left out of `GetPortInfo`, which returns the (device, port) pair.
- XpDev.DevSend: uses the corrected PktSize (see Findings); the C code's 16-bit `pkt_size` wraps for payloads near 64 KiB and the buffer is then too small.
- XpHostTap: `tap_init`/`tap_deinit` (beyond the empty maps), the listener thread and the packet driver callback are I/O and are not modelled. The tun/tap file descriptor and the SDK's answers are parameters.
- QosProfile: allocation failures (`calloc` returning NULL) are not modelled; `qos_free_*_settings` are memory teardown. A NULL profile name is not modelled (names are strings). The IDL change tests are the booleans `systemRowModified`, `profileColumnsModified` and `interfacesModified`, and the provider's apply call is the `provider` function argument. The `port_cfg == NULL` branch of the status write cannot be reached from `qos_configure_port_profiles` and is left out.
- QosProfile.ScheduleSettingsOf: requires a queue profile when the schedule is "strict", because the C code dereferences it there; the NULL dereference is not modelled.
- QosProfile.ScheduleProfileSettings: the same requirement as ScheduleSettingsOf, for the same reason.
- QosProfile.ProviderArgs: the same requirement, for a present schedule profile; an absent one is handled.
- QosProfile.ApplyProfile: the same requirement as ProviderArgs.
- QosTrust: the audit-log calls, the LAG-member set (given as `lagMembers`, since the LAG lookup is an IDL query), the DEFUN grammar (which limits the trust names) and the IDL init are not modelled.
- SnmpVty: `is_valid_ip_address` is the `ipValid` argument. The System row is assumed to exist where the C code dereferences it without a check. Auth and priv protocol names, and priv without auth, are left to the command grammar. The `show` commands, `snmp_ovsdb_init` and `cli_pre_init` are IDL and CLI registration and are not modelled.
- SnmpVty.SnmpDb.HostConfig: the trap counter follows the corrected limit test (see Findings); as in the C code it is never decremented by `no snmp-server host`.
- SnmpVty.SnmpDb.AddCommunity: uses the corrected commit test (see Findings): a failed commit replies CMD_OVSDB_FAILURE, where the C code replies CMD_SUCCESS.
- SnmpVty.SnmpDb.RemoveCommunity: uses the corrected commit test (see Findings), as AddCommunity does.
- SnmpVty.TxnCode: the values of `enum ovsdb_idl_txn_status` come from the OVSDB IDL header, which is not part of this model; the failure outcomes are one value, TXN_ERROR.
- SnmpContext: the rows are visited in the IDL's order, which the model takes as the sequence order. A missing pass phrase prints as "(null)", as glibc's `%s` does. The auth and priv protocol columns are taken never to be NULL.
- SnmpOvsdb: opening /etc/snmp/snmpd.conf is the `fileOpened` argument, and the file's text is the `conf` field. `restart_snmpd` (a `system()` call), `snmp_wait`, the main thread and `snmpd_ovsdb_init` are process and IDL I/O and are not modelled. SNMP_ENGINEID_STR_LEN is not part of this model, so the engine ID buffer is unbounded here. The IDL change tests are booleans. A NULL community array is the `None` value.
- SnmpOvsdb.SnmpAgent.Reconfigure: uses the corrected regeneration test (see Findings).
- SnmptrapLib: `snmp_hex_to_binary` is the `hexToBinary` argument, and `generate_Ku` is the pair `authKuOk` and `privKuOk`. The `get_default_authtype` and `get_default_privtype` branches cannot be reached, because a protocol is always set first, so they are not modelled. `ops_snmp_send_trap` and the session's other fields are net-snmp I/O and are not modelled. The IDL protocol constants ("none", "md5", "sha", "des", "aes") are assumed, because the IDL header is not part of this model.
- SnmptrapLib.TrapLib.CreateEngineId: tests the bound before each write instead of after the loop (see Findings). After a failed call the buffer keeps the head, so `ops_add_snmpv3_user` does not build it again (it rebuilds only when the first character is NUL, snmptrap_lib.c:198) and uses the partial text, as the C code does.
- SnmptrapLib.TrapLib.AddV3User: the session fields that the C code writes on the error paths are not modelled; a failed call returns no session. The `malloc` failure of the engine ID buffer (snmptrap_lib.c:208-211) and the `strdup` failure of the security name (snmptrap_lib.c:238-241), both of which return -1, are not modelled, so the converse (success whenever the engine ID, the user and the security are good) holds only when memory is available.
- SnmptrapLib.TrapCommunityOf: a community of 64 or more characters is cut to 64. In the C code `strncpy` then leaves the buffer without a NUL, and a later `strlen` reads past it; the model does not capture that read.
- PasswdYaml: `calloc` failure in `add_yaml_entry` is not modelled. The libyaml parser is the sequence of scalar events plus the way the stream stops (end, or a parse error). `get_socket_descriptor_path` and `get_public_key_path` are `GetFilePath` at a fixed type, and `init_yaml_parser` is a wrapper of `Parse`.
- PasswdUtil: `create_seed`, the RSA key pair, the scanning of /proc for the client (`get_client_pid_info`, `get_server_ino_info`, `get_client_username`, `get_connected_username`) and `check_user_group`'s system calls (given as the `groups` map) are OS I/O and are not modelled. `crypt()` is the `crypted` and `newHash` arguments. useradd is modelled as appending the user with the locked hash "!", and userdel as removing the user's entries; `system()` succeeding is `commandOk`. Locking and opening /etc/shadow are the `access` and `storeAccess` flags. When `fopen` fails after `lckpwdf` succeeded, `find_password_info` (passwd_srv_util.c:836-840) and `store_password` (passwd_srv_util.c:604-607) return without `ulckpwdf()`, so the shadow lock stays held; the lock is not modelled, so neither is that leak. Lines of login.defs are the complete lines `fgets` returns, and the 1024-byte line and 512-byte hash buffers are not modelled.
- PasswdUtil.GeneratedSalt: requires the values of `random()` to be positive and enough of them, because `l64a(0)` is empty and the fill loop would not end on a run of zeros.
- PasswdUtil.NewSalt: a DES method gives no salt; that the C code then passes NULL to `crypt()` in `create_and_store_password` is not modelled.
- PasswdUtil.NewSalt: uses the corrected SHA salt size (see Findings), so it never meets the size 17 that `generate_salt` refuses.
- PasswdUtil.ShadowFile.ProcessClientRequest: uses the corrected delete outcome (see Findings). The rollback after a failed add is assumed to run `userdel` with the same `commandOk` as the `useradd`.
- PasswdNetlink: `send_and_recv_via_netlink` and `find_connected_client_inode` are socket I/O and are not modelled. UNIX_DIAG_MAX is taken as 6 and UNIX_DIAG_PEER as 2, from the Linux header. A reply is given as its header fields and a sequence of attribute headers rather than bytes.
- PasswdUtil.GenerateSalt: the same requirement on `random()` as GeneratedSalt.
- PasswdUtil.NewSalt: the same requirement on `random()` as GeneratedSalt, for the salt digits.
- PasswdUtil.SaltGenerator.CreateNewSalt: the same requirement on `random()` as GeneratedSalt.
- PasswdUtil.SaltGenerator.CreateNewSalt: uses the corrected SHA salt size (see Findings), as NewSalt does.
- PasswdUtil.SaltLength: uses the corrected SHA salt size (see Findings); the C code's `SHA_salt_size` can give 17, which `generate_salt` refuses.
- PasswdUtil.Sha512SaltShape: holds of the corrected SHA salt size (see Findings); as written, `random()` returning RAND_MAX gives no salt digits.
- PasswdUtil.SearchLoginDefs: returns the value with its newline removed, the corrected reading (see Findings); the C code keeps the newline, and RawLoginDefsValue is that value.
- PasswdUtil.SaltGenerator.FindEncryptMethod: caches the method read from the newline-free value (see Findings), so "no" disables MD5 where the C code keeps MD5.
- PasswdUtil.ShadowFile.StorePassword: uses the corrected rewrite (see Findings): the entry is replaced and the rest of the file kept, where the C code writes the new line over the old one in place; ChangedPasswordIsFound is about the corrected rewrite. The shadow fields after the hash are left out of ShadowLine.
- PasswdUtil.ChangedPasswordIsFound: holds of the corrected rewrite (see Findings), as StorePassword does.

## Findings

| source | as written | input that shows it | evidently intended | confidence | as-written member | corrected member |
|---|---|---|---|---|---|---|
| ops-switchd-xpliant-plugin/src/ops-xp-util.c:170-184 | `string_to_prefix` stores `atoi` of the suffix in an `unsigned char` before comparing it with the maximum length | "10.0.0.0/288" is accepted with prefix length 32 | a suffix above the maximum is refused with EINVAL | not executed | XpUtil.StringToPrefixAcceptsWrappedLength | XpUtil.StringToPrefixChecked |
| ops-switchd-xpliant-plugin/src/ops-xp-mac-learning.c:91-110 | `calc_aging_params` stores the 64-bit quotient in the 32-bit `unit_time` | idle time 1001 s: exponent 6, quotient 8602343750, which does not fit in 32 bits | unit_time times 2^exponent equals idle time times 550000000 | not executed | XpMacLearning.AgingUnitTimeWrapsAt1001 | XpMacLearning.AgingParamsWide |
| ops-switchd-xpliant-plugin/src/ops-xp-dev.c:455-470 | `ops_xp_dev_send` computes the buffer size in a 16-bit `pkt_size` | a 65535-byte payload with a 16-byte header gets a 15-byte buffer | the buffer holds the header and the padded payload | not executed | XpDev.PktSizeWrapsForLargePayload | XpDev.PktSize |
| ops-snmpd/src/cli/snmp_vty.c:51-108 | the trap limit tests `trap_count > 30` | 31 adds into a fresh session are all accepted | at most MAX_ALLOWED_SNMP_TRAPS (30) receivers | not executed | SnmpVty.TrapLimitAdmitsThirtyFirst | SnmpVty.CappedLimitBoundsTraps |
| ops-snmpd/src/cli/snmp_vty.c:870-874 | `configure_community_name` and `remove_community_name` test the status of `cli_do_config_finish` as a truth value, and no status of a blocking commit is zero | a commit that ends in TXN_ERROR replies CMD_SUCCESS although the community was not stored | a failed commit replies CMD_OVSDB_FAILURE, as in the other commands | not executed | SnmpVty.FailedCommunityCommitReportsSuccess | SnmpVty.SnmpDb.AddCommunity |
| ops-snmpd/src/cli/vtysh_ovsdb_snmp_context.c:107-164 | the community, port and v3 flags are declared outside the trap loop and never reset | a v3 row followed by a v2c row: the v2c row is printed with "user public" | each row is printed with its own flags | not executed | SnmpContext.StickyV3FlagMisprintsV2Row | SnmpContext.CorrectedLinesArePerRow |
| ops-snmpd/src/snmp_ovsdb_if.c:225-232 | the user-table change tests run only when the table still has a first row | deleting the last v3 user does not regenerate snmpd.conf, which keeps the user's createUser line | any user-table change regenerates the file | not executed | SnmpOvsdb.LastUserDeletionMissed | SnmpOvsdb.RegenerateTestsAgree |
| ops-snmpd/src/snmptrap/snmptrap_lib.c:57-70 | the engine ID characters are written before the bound on `tmp_idx` is tested | a MAC of 21 characters without colons writes index 32 of the 32-character buffer | the bound is tested before each write | not executed | SnmptrapLib.OverlongMacWritesPastBuffer | SnmptrapLib.TrapLib.CreateEngineId |
| ops-passwd-srv/src/passwd_srv_util.c:200-206 | `SHA_salt_size` returns `8 + 9.0 * random() / RAND_MAX` truncated | `random()` returning RAND_MAX gives 17, which `generate_salt` refuses, so `strncat` gets NULL | a size from 8 to 16 | not executed | PasswdUtil.ShaSaltSizeCanBeRefused | PasswdUtil.ShaSaltInRangeIsGenerated |
| ops-passwd-srv/src/passwd_srv_util.c:234-236 | `search_login_defs` keeps the newline that `fgets` leaves on the value | "MD5_CRYPT_ENAB no" and a newline select MD5 | "no" disables MD5, so DES is used | not executed | PasswdUtil.Md5DisabledReadsAsMd5 | PasswdUtil.Md5DisabledReadsAsDes |
| ops-passwd-srv/src/passwd_srv_util.c:957-963 | the delete reports USERDEL_FAILED only when `create_user(name, FALSE)` returns an entry, and it always returns NULL | a userdel that `system()` cannot run is reported as SUCCESS | a failed userdel reports USERDEL_FAILED | not executed | PasswdUtil.FailedUserdelReportsSuccess | PasswdUtil.DeleteOutcome |
| ops-passwd-srv/src/passwd_srv_util.c:604-626 | `store_password` opens /etc/shadow with mode "r+a", goes back to the matching line with `fsetpos` and rewrites it with `putspent` in place | hash "xyz" for user a in "a:x\nb:y\n" gives "a:xyz\ny\n"; a shorter hash leaves the old line's tail behind | the entry is replaced and the rest of the file kept | not executed | PasswdUtil.ShorterHashLeavesFragment | PasswdUtil.ShadowFile.StorePassword |
