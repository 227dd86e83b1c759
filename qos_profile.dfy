/** The QoS switchd plugin's profile handling: the translation of queue
    profiles (`Q_Profile` rows) and schedule profiles (`QoS` rows) into the
    settings handed to the provider, and the decisions of when the global
    and per-port profiles are (re)applied and recorded in `qos_status`.
    The provider's apply call is an oracle argument; allocation is taken
    to succeed. */
module QosProfile {
  import opened Common

  const QOS_DEFAULT_NAME: string := "default"
  /** `OVSREC_QUEUE_ALGORITHM_STRICT`, also the name of the strict schedule profile. */
  const STRICT_NAME: string := "strict"
  /** `OVSREC_QUEUE_ALGORITHM_DWRR`. */
  const DWRR_NAME: string := "dwrr"
  /** `OVSREC_INTERFACE_TYPE_SYSTEM`. */
  const SYSTEM_TYPE: string := "system"
  /** The `qos_status` keys holding the applied profile names. */
  const QUEUE_PROFILE_KEY: string := "queue_profile"
  const SCHEDULE_PROFILE_KEY: string := "schedule_profile"

  /** `enum schedule_algorithm`. */
  datatype Algorithm = Strict | Dwrr

  /** One `q_profile_entries` pair: the queue number and the local
      priorities of its `Q_Profile_Entry`. */
  datatype QProfileEntry = QProfileEntry(key: int, localPriorities: seq<int>)

  /** A `Q_Profile` row. */
  datatype QProfile = QProfile(name: string, entries: seq<QProfileEntry>, hwDefault: Option<bool>)

  /** One `queues` pair of a `QoS` row: the queue number and its `Queue`
      row's algorithm and weight columns. */
  datatype QosQueue = QosQueue(key: int, algorithm: Option<string>, weight: Option<int>)

  /** A `QoS` (schedule profile) row. */
  datatype QosRow = QosRow(name: string, queues: seq<QosQueue>, hwDefault: Option<bool>)

  /** `struct queue_profile_entry`. */
  datatype QueueEntry = QueueEntry(queue: nat, localPriorities: seq<nat>)

  /** `struct schedule_profile_entry` without its always-NULL other_config. */
  datatype ScheduleEntry = ScheduleEntry(queue: nat, algorithm: Algorithm, weight: int)

  /** A C cast of a 64-bit column value to `unsigned`. */
  function U32(x: int): (r: nat)
    ensures r < 0x1_0000_0000
    ensures 0 <= x < 0x1_0000_0000 ==> r == x
    ensures (r - x) % 0x1_0000_0000 == 0
  {
    x % 0x1_0000_0000
  }

  /** A C cast of a 64-bit column value to `int` (two's complement). */
  function I32(x: int): (r: int)
    ensures -0x8000_0000 <= r < 0x8000_0000
    ensures -0x8000_0000 <= x < 0x8000_0000 ==> r == x
    ensures (r - x) % 0x1_0000_0000 == 0
  {
    var u := U32(x);
    if u < 0x8000_0000 then u else u - 0x1_0000_0000
  }

  /** `qos_get_schedule_algorithm`: "dwrr" is DWRR, anything else,
      including no value, is STRICT. */
  function ScheduleAlgorithm(db: Option<string>): (a: Algorithm)
    ensures a == Dwrr <==> db == Some(DWRR_NAME)
  {
    if db.Some? && db.value == STRICT_NAME then Strict
    else if db.Some? && db.value == DWRR_NAME then Dwrr
    else Strict
  }

  /** The unsigned local priorities of one entry. */
  function LocalPrioritiesOf(lps: seq<int>): (r: seq<nat>)
    ensures |r| == |lps|
    ensures forall j :: 0 <= j < |r| ==> r[j] == U32(lps[j])
  {
    seq(|lps|, j requires 0 <= j < |lps| => U32(lps[j]))
  }

  /** The queue-profile settings a profile gives: one entry per profile
      entry, in order, with its queue number and local priorities. */
  function QueueSettingsOf(qp: Option<QProfile>): (r: Option<seq<QueueEntry>>)
    ensures r.None? <==> qp.None?
    ensures r.Some? ==> |r.value| == |qp.value.entries|
    ensures r.Some? ==> forall i :: 0 <= i < |r.value| ==>
              && r.value[i].queue == U32(qp.value.entries[i].key)
              && |r.value[i].localPriorities| == |qp.value.entries[i].localPriorities|
              && forall j :: 0 <= j < |r.value[i].localPriorities| ==>
                   r.value[i].localPriorities[j] == U32(qp.value.entries[i].localPriorities[j])
  {
    if qp.None? then None
    else
      var es := qp.value.entries;
      Some(seq(|es|, i requires 0 <= i < |es| => QueueEntry(U32(es[i].key), LocalPrioritiesOf(es[i].localPriorities))))
  }

  /** The schedule-profile settings: the strict profile, which has no
      queue rows, gets one STRICT entry of weight 0 per queue of the queue
      profile; any other gets one entry per queue row with its algorithm
      and weight (0 when the weight is unset). */
  function ScheduleSettingsOf(qos: QosRow, qp: Option<QProfile>): (r: seq<ScheduleEntry>)
    requires qos.name == STRICT_NAME ==> qp.Some?
    ensures qos.name == STRICT_NAME ==>
              && |r| == |qp.value.entries|
              && forall i :: 0 <= i < |r| ==> r[i] == ScheduleEntry(U32(qp.value.entries[i].key), Strict, 0)
    ensures qos.name != STRICT_NAME ==>
              && |r| == |qos.queues|
              && forall i :: 0 <= i < |r| ==>
                   && r[i].queue == U32(qos.queues[i].key)
                   && r[i].algorithm == ScheduleAlgorithm(qos.queues[i].algorithm)
                   && r[i].weight == (if qos.queues[i].weight.Some? then I32(qos.queues[i].weight.value) else 0)
  {
    if qos.name == STRICT_NAME then
      var es := qp.value.entries;
      seq(|es|, i requires 0 <= i < |es| => ScheduleEntry(U32(es[i].key), Strict, 0))
    else
      var qs := qos.queues;
      seq(|qs|, i requires 0 <= i < |qs| => ScheduleEntry(U32(qs[i].key), ScheduleAlgorithm(qs[i].algorithm),
                                                          if qs[i].weight.Some? then I32(qs[i].weight.value) else 0))
  }

  /** A strict schedule is STRICT on every queue with weight 0, whatever
      the queue profile. */
  lemma {:induction false} StrictScheduleIsUniform(qos: QosRow, qp: QProfile, i: nat)
    requires qos.name == STRICT_NAME && i < |qp.entries|
    ensures ScheduleSettingsOf(qos, Some(qp))[i].algorithm == Strict
    ensures ScheduleSettingsOf(qos, Some(qp))[i].weight == 0
    ensures ScheduleSettingsOf(qos, Some(qp))[i].queue == QueueSettingsOf(Some(qp)).value[i].queue
  {
    var r := ScheduleSettingsOf(qos, Some(qp));
    assert r[i] == ScheduleEntry(U32(qp.entries[i].key), Strict, 0);
  }

  /** The local priorities of one profile entry, copied one by one. */
  method CopyLocalPriorities(lps: seq<int>) returns (r: seq<nat>)
    ensures r == LocalPrioritiesOf(lps)
  {
    var a := new nat[|lps|];
    var j := 0;
    while j < |lps|
      invariant 0 <= j <= |lps|
      invariant forall k :: 0 <= k < j ==> a[k] == U32(lps[k])
    {
      a[j] := U32(lps[j]);
      j := j + 1;
    }
    r := a[..];
  }

  /** `qos_get_queue_profile_settings`: no profile gives no settings;
      otherwise the entry array is filled queue by queue. */
  method QueueProfileSettings(qp: Option<QProfile>) returns (s: Option<seq<QueueEntry>>)
    ensures s == QueueSettingsOf(qp)
  {
    if qp.None? {
      return None;
    }
    var es := qp.value.entries;
    var a := new QueueEntry[|es|];
    var i := 0;
    while i < |es|
      invariant 0 <= i <= |es|
      invariant forall k :: 0 <= k < i ==> a[k] == QueueEntry(U32(es[k].key), LocalPrioritiesOf(es[k].localPriorities))
    {
      var lps := CopyLocalPriorities(es[i].localPriorities);
      a[i] := QueueEntry(U32(es[i].key), lps);
      i := i + 1;
    }
    assert a[..] == QueueSettingsOf(qp).value by {
      forall k | 0 <= k < |es| ensures a[..][k] == QueueSettingsOf(qp).value[k] {
        assert QueueSettingsOf(qp).value[k].localPriorities == LocalPrioritiesOf(es[k].localPriorities);
      }
    }
    s := Some(a[..]);
  }

  /** `qos_get_schedule_profile_settings`: the strict profile takes its
      queue numbering from the queue profile, which it then dereferences. */
  method ScheduleProfileSettings(qos: QosRow, qp: Option<QProfile>) returns (s: seq<ScheduleEntry>)
    requires qos.name == STRICT_NAME ==> qp.Some?
    ensures s == ScheduleSettingsOf(qos, qp)
  {
    if qos.name == STRICT_NAME {
      var es := qp.value.entries;
      var a := new ScheduleEntry[|es|];
      var i := 0;
      while i < |es|
        invariant 0 <= i <= |es|
        invariant forall k :: 0 <= k < i ==> a[k] == ScheduleEntry(U32(es[k].key), Strict, 0)
      {
        a[i] := ScheduleEntry(U32(es[i].key), Strict, 0);
        i := i + 1;
      }
      s := a[..];
    } else {
      var qs := qos.queues;
      var a := new ScheduleEntry[|qs|];
      var i := 0;
      while i < |qs|
        invariant 0 <= i <= |qs|
        invariant forall k :: 0 <= k < i ==>
                    a[k] == ScheduleEntry(U32(qs[k].key), ScheduleAlgorithm(qs[k].algorithm),
                                          if qs[k].weight.Some? then I32(qs[k].weight.value) else 0)
      {
        var w := 0;
        if qs[i].weight.Some? {
          w := I32(qs[i].weight.value);
        }
        a[i] := ScheduleEntry(U32(qs[i].key), ScheduleAlgorithm(qs[i].algorithm), w);
        i := i + 1;
      }
      s := a[..];
    }
  }

  /** The settings the provider's apply call receives: schedule settings
      when there is a schedule profile, queue settings when there is a
      queue profile. */
  function ProviderArgs(qos: Option<QosRow>, qp: Option<QProfile>): (r: (Option<seq<ScheduleEntry>>, Option<seq<QueueEntry>>))
    requires qos.Some? && qos.value.name == STRICT_NAME ==> qp.Some?
    ensures r.0.Some? <==> qos.Some?
    ensures r.1 == QueueSettingsOf(qp)
    ensures qos.Some? ==> r.0.value == ScheduleSettingsOf(qos.value, qp)
  {
    (if qos.Some? then Some(ScheduleSettingsOf(qos.value, qp)) else None, QueueSettingsOf(qp))
  }

  /** `qos_apply_profile`: builds both settings and returns the status of
      the provider call made with them. */
  method ApplyProfile(qos: Option<QosRow>, qp: Option<QProfile>,
                      provider: ((Option<seq<ScheduleEntry>>, Option<seq<QueueEntry>>)) -> int)
    returns (status: int)
    requires qos.Some? && qos.value.name == STRICT_NAME ==> qp.Some?
    ensures status == provider(ProviderArgs(qos, qp))
  {
    var queueSettings := QueueProfileSettings(qp);
    var scheduleSettings: Option<seq<ScheduleEntry>> := None;
    if qos.Some? {
      var s := ScheduleProfileSettings(qos.value, qp);
      scheduleSettings := Some(s);
    }
    status := provider((scheduleSettings, queueSettings));
  }

  /** The first row satisfying `p`, as a FOR_EACH loop that breaks on
      a match leaves its cursor (NULL when none matches). */
  function FirstWhere<T>(rows: seq<T>, p: T -> bool): (r: Option<T>)
    ensures r.None? <==> forall i :: 0 <= i < |rows| ==> !p(rows[i])
    ensures r.Some? ==> exists i :: 0 <= i < |rows| && rows[i] == r.value && p(rows[i]) &&
                                    forall j :: 0 <= j < i ==> !p(rows[j])
  {
    if rows == [] then None
    else if p(rows[0]) then Some(rows[0])
    else
      var r := FirstWhere(rows[1..], p);
      assert r.Some? ==> exists i :: 1 <= i < |rows| && rows[i] == r.value && p(rows[i]) &&
                                     forall j :: 0 <= j < i ==> !p(rows[j]) by {
        if r.Some? {
          var i :| 0 <= i < |rows[1..]| && rows[1..][i] == r.value && p(rows[1..][i]) &&
                   forall j :: 0 <= j < i ==> !p(rows[1..][j]);
          assert forall j :: 1 <= j < i + 1 ==> !p(rows[j]) by {
            forall j | 1 <= j < i + 1 ensures !p(rows[j]) {
              assert rows[j] == rows[1..][j - 1];
            }
          }
          assert rows[i + 1] == r.value;
        }
      }
      r
  }

  /** The FOR_EACH-with-break search over a table. */
  method FindFirst<T>(rows: seq<T>, p: T -> bool) returns (r: Option<T>)
    ensures r == FirstWhere(rows, p)
  {
    var i := 0;
    while i < |rows|
      invariant 0 <= i <= |rows|
      invariant FirstWhere(rows[i..], p) == FirstWhere(rows, p)
    {
      if p(rows[i]) {
        return Some(rows[i]);
      }
      assert rows[i..][1..] == rows[i + 1..];
      i := i + 1;
    }
    return None;
  }

  /** The port fallback chain as the configure code walks it. */
  method ResolvePortProfile<T>(own: Option<T>, system: Option<T>, rows: seq<T>,
                               isDefault: T -> bool, isHwDefault: T -> bool) returns (r: Option<T>)
    ensures r == PortFallback(own, system, rows, isDefault, isHwDefault)
  {
    r := own;
    if r.None? {
      r := system;
      if r.None? {
        r := FindFirst(rows, isDefault);
        if r.None? {
          r := FindFirst(rows, isHwDefault);
        }
      }
    }
  }

  predicate IsDefaultQProfile(q: QProfile) { q.name == QOS_DEFAULT_NAME }
  predicate IsHwDefaultQProfile(q: QProfile) { q.hwDefault == Some(true) }
  predicate IsDefaultQos(q: QosRow) { q.name == QOS_DEFAULT_NAME }
  predicate IsHwDefaultQos(q: QosRow) { q.hwDefault == Some(true) }

  /** The profile a port uses: its own, else the System row's, else the
      first named "default", else the first with hw_default set. */
  function PortFallback<T>(own: Option<T>, system: Option<T>, rows: seq<T>,
                           isDefault: T -> bool, isHwDefault: T -> bool): (r: Option<T>)
    ensures own.Some? ==> r == own
    ensures own.None? && system.Some? ==> r == system
    ensures own.None? && system.None? && FirstWhere(rows, isDefault).Some? ==> r == FirstWhere(rows, isDefault)
    ensures own.None? && system.None? && FirstWhere(rows, isDefault).None? ==> r == FirstWhere(rows, isHwDefault)
    ensures r.None? <==> own.None? && system.None? &&
                         forall i :: 0 <= i < |rows| ==> !isDefault(rows[i]) && !isHwDefault(rows[i])
  {
    if own.Some? then own
    else if system.Some? then system
    else
      var d := FirstWhere(rows, isDefault);
      if d.Some? then d else FirstWhere(rows, isHwDefault)
  }

  /** The profile the System row uses: its own, else the first named
      "default"; there is no hw_default fallback globally. */
  function GlobalFallback<T>(system: Option<T>, rows: seq<T>, isDefault: T -> bool): (r: Option<T>)
    ensures system.Some? ==> r == system
    ensures system.None? ==> r == FirstWhere(rows, isDefault)
    ensures r.None? <==> system.None? && forall i :: 0 <= i < |rows| ==> !isDefault(rows[i])
  {
    if system.Some? then system else FirstWhere(rows, isDefault)
  }

  /** The value of a `qos_status` key, None when absent. */
  function StatusGet(status: map<string, string>, key: string): Option<string>
  {
    if key in status then Some(status[key]) else None
  }

  /** Whether a profile named `name` needs applying given the name
      recorded as applied. */
  function NameNeedsApply(applied: Option<string>, name: string): (needed: bool)
    ensures needed <==> applied != Some(name)
  {
    if applied.None? then true else name != applied.value
  }

  /** The per-port decision: both profiles are applied together when the
      update is forced, when the applied queue name is missing or differs,
      or, failing that, when the applied schedule name is missing or
      differs. */
  function PortApplyNeeded(force: bool, queueApplied: Option<string>, queueName: string,
                           scheduleApplied: Option<string>, scheduleName: string): (needed: bool)
    ensures needed <==> force || queueApplied != Some(queueName) || scheduleApplied != Some(scheduleName)
  {
    if queueApplied.None? || force then true
    else if queueName != queueApplied.value then true
    else if scheduleApplied.None? then true
    else scheduleName != scheduleApplied.value
  }

  /** The sanity check before a port apply: the strict schedule has no
      queue rows; any other must have as many queues as the queue profile. */
  predicate QueueCountsMatch(qos: QosRow, qp: QProfile)
  {
    qos.name == STRICT_NAME || |qos.queues| == |qp.entries|
  }

  /** `qos_status` after a successful apply: both names recorded, every
      other key kept, and nothing left to apply for the same profiles. */
  function RecordApplied(status: map<string, string>, queueName: string, scheduleName: string): (r: map<string, string>)
    ensures StatusGet(r, QUEUE_PROFILE_KEY) == Some(queueName)
    ensures StatusGet(r, SCHEDULE_PROFILE_KEY) == Some(scheduleName)
    ensures r.Keys == status.Keys + {QUEUE_PROFILE_KEY, SCHEDULE_PROFILE_KEY}
    ensures forall k :: k in status && k != QUEUE_PROFILE_KEY && k != SCHEDULE_PROFILE_KEY ==> r[k] == status[k]
    ensures !PortApplyNeeded(false, StatusGet(r, QUEUE_PROFILE_KEY), queueName,
                             StatusGet(r, SCHEDULE_PROFILE_KEY), scheduleName)
    ensures !NameNeedsApply(StatusGet(r, QUEUE_PROFILE_KEY), queueName)
    ensures !NameNeedsApply(StatusGet(r, SCHEDULE_PROFILE_KEY), scheduleName)
  {
    status[QUEUE_PROFILE_KEY := queueName][SCHEDULE_PROFILE_KEY := scheduleName]
  }

  /** The System row's profile columns and its status map. */
  class SystemRow {
    const qProfile: Option<QProfile>
    const qos: Option<QosRow>
    var qosStatus: map<string, string>

    constructor (qProfile: Option<QProfile>, qos: Option<QosRow>, qosStatus: map<string, string>)
      ensures this.qProfile == qProfile && this.qos == qos && this.qosStatus == qosStatus
    {
      this.qProfile := qProfile;
      this.qos := qos;
      this.qosStatus := qosStatus;
    }
  }

  /** A Port row: its profile columns, the type of its first interface
      (None when there is none) and its status map. */
  class PortRow {
    const qProfile: Option<QProfile>
    const qos: Option<QosRow>
    const firstIfType: Option<string>
    var qosStatus: map<string, string>

    constructor (qProfile: Option<QProfile>, qos: Option<QosRow>, firstIfType: Option<string>,
                 qosStatus: map<string, string>)
      ensures this.qProfile == qProfile && this.qos == qos && this.firstIfType == firstIfType
      ensures this.qosStatus == qosStatus
    {
      this.qProfile := qProfile;
      this.qos := qos;
      this.firstIfType := firstIfType;
      this.qosStatus := qosStatus;
    }
  }

  /** The plugin's global changed flags, which tell the port pass that a
      global profile was newly applied. */
  class QosGlobals {
    var queueProfileChanged: bool
    var scheduleProfileChanged: bool

    constructor ()
      ensures !queueProfileChanged && !scheduleProfileChanged
    {
      queueProfileChanged := false;
      scheduleProfileChanged := false;
    }

    /** `qos_configure_global_profiles`: the flags are cleared; when the
        System row's profile columns changed, the configured (or
        "default") profiles are applied if either name differs from the
        recorded one, and a successful apply records both names and sets
        the flags to what was needed. `systemRowModified` and
        `profileColumnsModified` are the IDL change tests. */
    method ConfigureGlobalProfiles(sys: SystemRow, qProfiles: seq<QProfile>, qosRows: seq<QosRow>,
                                   systemRowModified: bool, profileColumnsModified: bool,
                                   provider: ((Option<seq<ScheduleEntry>>, Option<seq<QueueEntry>>)) -> int)
      modifies this, sys
      ensures
        var qp := GlobalFallback(sys.qProfile, qProfiles, IsDefaultQProfile);
        var qos := GlobalFallback(sys.qos, qosRows, IsDefaultQos);
        if systemRowModified && profileColumnsModified && qp.Some? && qos.Some? then
          var needQ := NameNeedsApply(StatusGet(old(sys.qosStatus), QUEUE_PROFILE_KEY), qp.value.name);
          var needS := NameNeedsApply(StatusGet(old(sys.qosStatus), SCHEDULE_PROFILE_KEY), qos.value.name);
          if (needQ || needS) && provider(ProviderArgs(qos, qp)) == 0 then
            && sys.qosStatus == RecordApplied(old(sys.qosStatus), qp.value.name, qos.value.name)
            && queueProfileChanged == needQ && scheduleProfileChanged == needS
          else
            sys.qosStatus == old(sys.qosStatus) && !queueProfileChanged && !scheduleProfileChanged
        else
          sys.qosStatus == old(sys.qosStatus) && !queueProfileChanged && !scheduleProfileChanged
    {
      queueProfileChanged := false;
      scheduleProfileChanged := false;
      if !(systemRowModified && profileColumnsModified) {
        return;
      }
      var queueApplied := StatusGet(sys.qosStatus, QUEUE_PROFILE_KEY);
      var qp := sys.qProfile;
      if qp.None? {
        qp := FindFirst(qProfiles, IsDefaultQProfile);
      }
      if qp.None? {
        return;
      }
      var needQ := NameNeedsApply(queueApplied, qp.value.name);
      var scheduleApplied := StatusGet(sys.qosStatus, SCHEDULE_PROFILE_KEY);
      var qos := sys.qos;
      if qos.None? {
        qos := FindFirst(qosRows, IsDefaultQos);
      }
      if qos.None? {
        return;
      }
      var needS := NameNeedsApply(scheduleApplied, qos.value.name);
      if needQ || needS {
        var status := ApplyProfile(qos, qp, provider);
        if status == 0 {
          sys.qosStatus := RecordApplied(sys.qosStatus, qp.value.name, qos.value.name);
          queueProfileChanged := needQ;
          scheduleProfileChanged := needS;
        }
      }
    }
  }

  /** `qos_configure_port_profiles`: ports whose first interface is not
      of the system type are skipped. Each profile is found through the
      port fallback chain; with either missing nothing changes. A forced
      update stays forced only when a Port row's interfaces column
      changed (`interfacesModified`). When applying is needed and the
      queue counts agree, a successful apply records both names in the
      port's `qos_status`. */
  method ConfigurePortProfiles(port: PortRow, sys: SystemRow, qProfiles: seq<QProfile>, qosRows: seq<QosRow>,
                               interfacesModified: bool, forceUpdate: bool,
                               provider: ((Option<seq<ScheduleEntry>>, Option<seq<QueueEntry>>)) -> int)
    modifies port
    ensures
      var qp := PortFallback(port.qProfile, sys.qProfile, qProfiles, IsDefaultQProfile, IsHwDefaultQProfile);
      var qos := PortFallback(port.qos, sys.qos, qosRows, IsDefaultQos, IsHwDefaultQos);
      if (port.firstIfType.None? || port.firstIfType.value == SYSTEM_TYPE) && qp.Some? && qos.Some? &&
         PortApplyNeeded(forceUpdate && interfacesModified,
                         StatusGet(old(port.qosStatus), QUEUE_PROFILE_KEY), qp.value.name,
                         StatusGet(old(port.qosStatus), SCHEDULE_PROFILE_KEY), qos.value.name) &&
         QueueCountsMatch(qos.value, qp.value) &&
         provider(ProviderArgs(qos, qp)) == 0
      then port.qosStatus == RecordApplied(old(port.qosStatus), qp.value.name, qos.value.name)
      else port.qosStatus == old(port.qosStatus)
  {
    if port.firstIfType.Some? && port.firstIfType.value != SYSTEM_TYPE {
      return;
    }
    var force := forceUpdate;
    if !interfacesModified {
      force := false;
    }
    var qp := ResolvePortProfile(port.qProfile, sys.qProfile, qProfiles, IsDefaultQProfile, IsHwDefaultQProfile);
    if qp.None? {
      return;
    }
    var qos := ResolvePortProfile(port.qos, sys.qos, qosRows, IsDefaultQos, IsHwDefaultQos);
    if qos.None? {
      return;
    }
    var needed := PortApplyNeeded(force, StatusGet(port.qosStatus, QUEUE_PROFILE_KEY), qp.value.name,
                                  StatusGet(port.qosStatus, SCHEDULE_PROFILE_KEY), qos.value.name);
    if needed {
      if !QueueCountsMatch(qos.value, qp.value) {
        return;
      }
      var status := ApplyProfile(qos, qp, provider);
      if status == 0 {
        port.qosStatus := RecordApplied(port.qosStatus, qp.value.name, qos.value.name);
      }
    }
  }
}
