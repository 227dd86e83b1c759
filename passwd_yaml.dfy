/** The password server's YAML configuration: a list of entries, each a
    path type (SOCKET or PUB_KEY) with a file path and a description, read
    from a YAML file whose scalars alternate between keys ("type", "path",
    "description") and values. The list is the class `YamlStore`; the YAML
    parser is given as the sequence of events it delivers and the way the
    stream ends. */
module PasswdYaml {
  import opened Common
  import opened PasswdPub

  /** `passwd_srv_yaml_key`, indexed by `YamlKey`. */
  const YAML_KEYS: seq<string> := ["values", "type", "path", "description"]

  /** The path type names of `add_path_type`, indexed by `PathType`. */
  const PATH_TYPE_NAMES: seq<string> := ["NONE", "SOCKET", "PUB_KEY"]

  /** One `passwd_yaml_file_path_t`; `desc` is the C string read from the
      description buffer. */
  datatype Entry = Entry(pathType: PathType, path: string, desc: string)

  /** What a scalar means: NULL is `PASSWD_SRV_YAML_MAX`, the three key
      names are keys, and any other text (including "values") is a value. */
  function KeyOf(event: Option<string>): (k: YamlKey)
    ensures k == KeyMax <==> event.None?
    ensures k == KeyPathType <==> event == Some("type")
    ensures k == KeyPath <==> event == Some("path")
    ensures k == KeyDesc <==> event == Some("description")
    ensures event == Some("values") ==> k == KeyValue
  {
    if event.None? then KeyMax
    else if event.value == "type" then KeyPathType
    else if event.value == "path" then KeyPath
    else if event.value == "description" then KeyDesc
    else KeyValue
  }

  /** The path type a value names: only the exact texts "SOCKET" and
      "PUB_KEY" name one; "NONE" and everything else name none. */
  function TypeNamed(s: string): (t: PathType)
    ensures t == PathSock <==> s == "SOCKET"
    ensures t == PathPubKey <==> s == "PUB_KEY"
    ensures t == PathNone <==> s != "SOCKET" && s != "PUB_KEY"
  {
    if s == "SOCKET" then PathSock
    else if s == "PUB_KEY" then PathPubKey
    else PathNone
  }

  function KeyAt(i: nat): YamlKey
    requires i < |YAML_KEYS|
  {
    [KeyValue, KeyPathType, KeyPath, KeyDesc][i]
  }

  function PathTypeAt(i: nat): PathType
    requires i < |PATH_TYPE_NAMES|
  {
    [PathNone, PathSock, PathPubKey][i]
  }

  /** Index of the first entry of type `t` (what `find_yaml_entry` walks
      to), if any. */
  function FirstOfType(es: seq<Entry>, t: PathType): (r: Option<nat>)
    ensures r.Some? ==> r.value < |es| && es[r.value].pathType == t
    ensures r.Some? ==> forall j :: 0 <= j < r.value ==> es[j].pathType != t
    ensures r.None? ==> forall j :: 0 <= j < |es| ==> es[j].pathType != t
  {
    if es == [] then None
    else if es[0].pathType == t then Some(0)
    else match FirstOfType(es[1..], t) {
      case None => None
      case Some(i) => Some(i + 1)
    }
  }

  /** No two entries share a type. */
  predicate UniqueTypes(es: seq<Entry>)
  {
    forall i, j :: 0 <= i < j < |es| ==> es[i].pathType != es[j].pathType
  }

  /** The list and the current entry after a valid path type was read: the
      existing entry of that type, or a new zeroed entry at the tail. */
  function AddedType(es: seq<Entry>, t: PathType): (r: (seq<Entry>, nat))
    ensures r.1 < |r.0| && r.0[r.1].pathType == t
    ensures FirstOfType(r.0, t) == Some(r.1)
    ensures FirstOfType(es, t).Some? ==> r.0 == es
    ensures FirstOfType(es, t).None? ==> r.0 == es + [Entry(t, "", "")]
    ensures UniqueTypes(es) ==> UniqueTypes(r.0)
  {
    match FirstOfType(es, t) {
      case Some(i) => (es, i)
      case None =>
        var es' := es + [Entry(t, "", "")];
        assert FirstOfType(es', t) == Some(|es|) by {
          FirstOfTypeAppend(es, Entry(t, "", ""), t);
        }
        (es', |es|)
    }
  }

  lemma {:induction false} FirstOfTypeAppend(es: seq<Entry>, e: Entry, t: PathType)
    requires FirstOfType(es, t).None? && e.pathType == t
    ensures FirstOfType(es + [e], t) == Some(|es|)
  {
    if es != [] {
      assert (es + [e])[1..] == es[1..] + [e];
      FirstOfTypeAppend(es[1..], e, t);
    }
  }

  /** A path fits its buffer with its terminating NUL: strlen + 1 <= 255. */
  predicate PathFits(p: string)
  {
    |p| + 1 <= PASSWD_SRV_MAX_STR_SIZE
  }

  /** A description fits when strlen <= 255. */
  predicate DescFits(d: string)
  {
    |d| <= PASSWD_SRV_MAX_STR_SIZE
  }

  /** The description buffer's C string after `memcpy(desc, d, strlen(d))`:
      no NUL is copied, so a shorter description leaves the tail of the
      previous one in place. */
  function Overlay(old_: string, d: string): (r: string)
    ensures |r| == if |d| < |old_| then |old_| else |d|
    ensures d <= r
    ensures forall i :: |d| <= i < |old_| ==> r[i] == old_[i]
  {
    if |d| < |old_| then d + old_[|d|..] else d
  }

  /** The path of the first entry of type `t`, as `get_file_path` finds
      it. */
  function FilePathOf(es: seq<Entry>, t: PathType): (r: Option<string>)
    ensures r.None? <==> forall j :: 0 <= j < |es| ==> es[j].pathType != t
    ensures r.Some? ==> exists j :: 0 <= j < |es| && es[j].pathType == t && es[j].path == r.value
  {
    match FirstOfType(es, t) {
      case None => None
      case Some(i) => Some(es[i].path)
    }
  }

  /** The events the parser delivers before the stream ends: a scalar
      (its value possibly NULL) or any other event. */
  datatype Event = Scalar(value: Option<string>) | NonScalar

  /** How the event stream stops: a stream-end event, or a parse error. */
  datatype Stop = StreamEnd | ParseFailure

  /** The parser loop's variables: the list, `current_state` and
      `yaml_entry` (the index of the entry being filled). */
  datatype ParseState = ParseState(entries: seq<Entry>, current: YamlKey, entry: Option<nat>)

  predicate Indexed(s: ParseState)
  {
    s.entry.Some? ==> s.entry.value < |s.entries|
  }

  datatype StepResult = Next(state: ParseState) | Fatal(entries: seq<Entry>)

  /** One scalar handled by the loop body of `parse_passwd_srv_yaml`. */
  function Step(s: ParseState, e: Event): (r: StepResult)
    requires Indexed(s)
    ensures r.Next? ==> Indexed(r.state)
  {
    match e {
      case NonScalar => Next(s)
      case Scalar(v) =>
        var k := KeyOf(v);
        if k == KeyValue then
          if s.current == KeyPathType then
            var t := TypeNamed(v.value);
            if t == PathNone then Fatal(s.entries)
            else
              var (es, i) := AddedType(s.entries, t);
              Next(ParseState(es, s.current, Some(i)))
          else if s.current == KeyPath then
            if s.entry.None? || !PathFits(v.value) then Fatal(s.entries)
            else
              var i := s.entry.value;
              Next(s.(entries := s.entries[i := s.entries[i].(path := v.value)]))
          else if s.current == KeyDesc then
            if s.entry.None? || !DescFits(v.value) then Fatal(s.entries)
            else
              var i := s.entry.value;
              Next(s.(entries := s.entries[i := s.entries[i].(desc := Overlay(s.entries[i].desc, v.value))]))
          else Next(s)
        else if k == KeyMax then Next(s)
        else Next(s.(current := k))
    }
  }

  /** The loop over the events, stopping at the first fatal step. */
  function Run(s: ParseState, events: seq<Event>): StepResult
    requires Indexed(s)
    decreases |events|
  {
    if events == [] then Next(s)
    else match Step(s, events[0]) {
      case Fatal(es) => Fatal(es)
      case Next(s') => Run(s', events[1..])
    }
  }

  /** `parse_passwd_srv_yaml`: the return code and the list afterwards. A
      parser that does not initialise gives FATAL, a file that does not
      open gives PASSWD_ERR_YAML_FILE, a fatal step or a parse error gives
      FATAL (keeping what was added), and reaching the stream end gives
      SUCCESS. */
  function ParseOutcome(entries: seq<Entry>, initOk: bool, fileOpened: bool, events: seq<Event>, stop: Stop): (r: (int, seq<Entry>))
    ensures r.0 == PASSWD_ERR_SUCCESS || r.0 == PASSWD_ERR_FATAL || r.0 == PASSWD_ERR_YAML_FILE
    ensures r.0 == PASSWD_ERR_SUCCESS ==> initOk && fileOpened && stop == StreamEnd
    ensures r.0 == PASSWD_ERR_YAML_FILE <==> initOk && !fileOpened
    ensures !(initOk && fileOpened) ==> r.1 == entries
  {
    if !initOk then (PASSWD_ERR_FATAL, entries)
    else if !fileOpened then (PASSWD_ERR_YAML_FILE, entries)
    else match Run(ParseState(entries, KeyMax, None), events) {
      case Fatal(es) => (PASSWD_ERR_FATAL, es)
      case Next(s) => (if stop == StreamEnd then PASSWD_ERR_SUCCESS else PASSWD_ERR_FATAL, s.entries)
    }
  }

  /** Parsing never removes an entry or changes its type, and keeps the
      types unique. */
  lemma {:induction false} RunKeepsTypes(s: ParseState, events: seq<Event>)
    requires Indexed(s)
    ensures var es := match Run(s, events) { case Fatal(es) => es case Next(s') => s'.entries };
            && |s.entries| <= |es|
            && (forall i :: 0 <= i < |s.entries| ==> es[i].pathType == s.entries[i].pathType)
            && (UniqueTypes(s.entries) ==> UniqueTypes(es))
    decreases |events|
  {
    if events != [] {
      match Step(s, events[0]) {
        case Fatal(es) =>
        case Next(s') =>
          assert |s.entries| <= |s'.entries|;
          assert forall i :: 0 <= i < |s.entries| ==> s'.entries[i].pathType == s.entries[i].pathType;
          assert UniqueTypes(s.entries) ==> UniqueTypes(s'.entries);
          RunKeepsTypes(s', events[1..]);
      }
    }
  }

  /** A "path" or "description" value before any "type" value is fatal,
      and the list is left as it was. */
  lemma PathBeforeTypeIsFatal(entries: seq<Entry>, key: string, v: string, rest: seq<Event>, stop: Stop)
    requires key == "path" || key == "description"
    requires KeyOf(Some(v)) == KeyValue
    ensures ParseOutcome(entries, true, true, [Scalar(Some(key)), Scalar(Some(v))] + rest, stop) == (PASSWD_ERR_FATAL, entries)
  {
    var events := [Scalar(Some(key)), Scalar(Some(v))] + rest;
    var s0 := ParseState(entries, KeyMax, None);
    var s1 := s0.(current := KeyOf(Some(key)));
    assert Step(s0, events[0]) == Next(s1);
    assert events[1..][0] == Scalar(Some(v));
    assert Step(s1, events[1..][0]) == Fatal(entries);
    assert Run(s1, events[1..]) == Fatal(entries);
    assert Run(s0, events) == Fatal(entries);
  }

  /** One step of the walk, at position i of the event list. */
  lemma RunAt(s: ParseState, s': ParseState, events: seq<Event>, i: nat)
    requires Indexed(s) && Indexed(s') && i < |events| && Step(s, events[i]) == Next(s')
    ensures Run(s, events[i..]) == Run(s', events[i + 1..])
  {
    assert events[i..][0] == events[i];
    assert events[i..][1..] == events[i + 1..];
  }

  /** The six steps over a SOCKET entry, one state at a time. */
  lemma SocketSteps(p: string, d: string)
    requires KeyOf(Some(p)) == KeyValue && KeyOf(Some(d)) == KeyValue
    requires PathFits(p) && DescFits(d)
    ensures Step(ParseState([], KeyMax, None), Scalar(Some("type")))
              == Next(ParseState([], KeyPathType, None))
    ensures Step(ParseState([], KeyPathType, None), Scalar(Some("SOCKET")))
              == Next(ParseState([Entry(PathSock, "", "")], KeyPathType, Some(0)))
    ensures Step(ParseState([Entry(PathSock, "", "")], KeyPathType, Some(0)), Scalar(Some("path")))
              == Next(ParseState([Entry(PathSock, "", "")], KeyPath, Some(0)))
    ensures Step(ParseState([Entry(PathSock, "", "")], KeyPath, Some(0)), Scalar(Some(p)))
              == Next(ParseState([Entry(PathSock, p, "")], KeyPath, Some(0)))
    ensures Step(ParseState([Entry(PathSock, p, "")], KeyPath, Some(0)), Scalar(Some("description")))
              == Next(ParseState([Entry(PathSock, p, "")], KeyDesc, Some(0)))
    ensures Step(ParseState([Entry(PathSock, p, "")], KeyDesc, Some(0)), Scalar(Some(d)))
              == Next(ParseState([Entry(PathSock, p, d)], KeyDesc, Some(0)))
  {
    assert KeyOf(Some("SOCKET")) == KeyValue;
  }

  /** The parser's walk over a SOCKET entry ends with that one entry. */
  lemma SocketRun(p: string, d: string)
    requires KeyOf(Some(p)) == KeyValue && KeyOf(Some(d)) == KeyValue
    requires PathFits(p) && DescFits(d)
    ensures Run(ParseState([], KeyMax, None),
                [Scalar(Some("type")), Scalar(Some("SOCKET")),
                 Scalar(Some("path")), Scalar(Some(p)),
                 Scalar(Some("description")), Scalar(Some(d))])
            == Next(ParseState([Entry(PathSock, p, d)], KeyDesc, Some(0)))
  {
    var events := [Scalar(Some("type")), Scalar(Some("SOCKET")),
                   Scalar(Some("path")), Scalar(Some(p)),
                   Scalar(Some("description")), Scalar(Some(d))];
    SocketSteps(p, d);
    SocketRunHead(events, p, d);
    SocketRunTail(events, p, d);
  }

  lemma SocketRunHead(events: seq<Event>, p: string, d: string)
    requires |events| == 6
    requires events[0] == Scalar(Some("type")) && events[1] == Scalar(Some("SOCKET")) && events[2] == Scalar(Some("path"))
    requires KeyOf(Some(p)) == KeyValue && KeyOf(Some(d)) == KeyValue
    requires PathFits(p) && DescFits(d)
    ensures Run(ParseState([], KeyMax, None), events)
            == Run(ParseState([Entry(PathSock, "", "")], KeyPath, Some(0)), events[3..])
  {
    SocketSteps(p, d);
    RunAt(ParseState([], KeyMax, None), ParseState([], KeyPathType, None), events, 0);
    RunAt(ParseState([], KeyPathType, None), ParseState([Entry(PathSock, "", "")], KeyPathType, Some(0)), events, 1);
    RunAt(ParseState([Entry(PathSock, "", "")], KeyPathType, Some(0)),
          ParseState([Entry(PathSock, "", "")], KeyPath, Some(0)), events, 2);
    assert events[0..] == events;
  }

  lemma SocketRunTail(events: seq<Event>, p: string, d: string)
    requires |events| == 6
    requires events[3] == Scalar(Some(p)) && events[4] == Scalar(Some("description")) && events[5] == Scalar(Some(d))
    requires KeyOf(Some(p)) == KeyValue && KeyOf(Some(d)) == KeyValue
    requires PathFits(p) && DescFits(d)
    ensures Run(ParseState([Entry(PathSock, "", "")], KeyPath, Some(0)), events[3..])
            == Next(ParseState([Entry(PathSock, p, d)], KeyDesc, Some(0)))
  {
    SocketSteps(p, d);
    RunAt(ParseState([Entry(PathSock, "", "")], KeyPath, Some(0)), ParseState([Entry(PathSock, p, "")], KeyPath, Some(0)), events, 3);
    RunAt(ParseState([Entry(PathSock, p, "")], KeyPath, Some(0)), ParseState([Entry(PathSock, p, "")], KeyDesc, Some(0)), events, 4);
    RunAt(ParseState([Entry(PathSock, p, "")], KeyDesc, Some(0)), ParseState([Entry(PathSock, p, d)], KeyDesc, Some(0)), events, 5);
    assert events[6..] == [];
  }

  /** A file holding one SOCKET entry, read into an empty list, gives
      exactly that entry, and the socket path is then found. */
  lemma SocketFileRead(p: string, d: string)
    requires KeyOf(Some(p)) == KeyValue && KeyOf(Some(d)) == KeyValue
    requires PathFits(p) && DescFits(d)
    ensures var events := [Scalar(Some("type")), Scalar(Some("SOCKET")),
                           Scalar(Some("path")), Scalar(Some(p)),
                           Scalar(Some("description")), Scalar(Some(d))];
            var r := ParseOutcome([], true, true, events, StreamEnd);
            && r == (PASSWD_ERR_SUCCESS, [Entry(PathSock, p, d)])
            && FilePathOf(r.1, PathSock) == Some(p)
            && FilePathOf(r.1, PathPubKey) == None
  {
    SocketRun(p, d);
  }

  /** Repeating a type re-uses its entry: a second SOCKET entry in the file
      overwrites the first one's path instead of adding another. */
  lemma RepeatedTypeReusesEntry(e: Entry, rest: seq<Entry>, p: string)
    requires e.pathType == PathSock
    requires KeyOf(Some(p)) == KeyValue && PathFits(p)
    ensures var events := [Scalar(Some("type")), Scalar(Some("SOCKET")),
                           Scalar(Some("path")), Scalar(Some(p))];
            ParseOutcome([e] + rest, true, true, events, StreamEnd)
              == (PASSWD_ERR_SUCCESS, [e.(path := p)] + rest)
  {
    var events := [Scalar(Some("type")), Scalar(Some("SOCKET")),
                   Scalar(Some("path")), Scalar(Some(p))];
    var es := [e] + rest;
    var s0 := ParseState(es, KeyMax, None);
    var s1 := ParseState(es, KeyPathType, None);
    var s2 := ParseState(es, KeyPathType, Some(0));
    var s3 := ParseState(es, KeyPath, Some(0));
    var s4 := ParseState(es[0 := e.(path := p)], KeyPath, Some(0));
    assert KeyOf(Some("SOCKET")) == KeyValue;
    assert FirstOfType(es, PathSock) == Some(0);
    assert Step(s0, events[0]) == Next(s1);
    assert Step(s1, events[1]) == Next(s2);
    assert Step(s2, events[2]) == Next(s3);
    assert Step(s3, events[3]) == Next(s4);
    assert Run(s4, events[4..]) == Next(s4);
    assert Run(s3, events[3..]) == Next(s4);
    assert Run(s2, events[2..]) == Next(s4);
    assert Run(s1, events[1..]) == Next(s4);
    assert Run(s0, events) == Next(s4);
    assert es[0 := e.(path := p)] == [e.(path := p)] + rest;
  }

  /** The global entry list `s_yaml_entry`. */
  class YamlStore {
    var entries: seq<Entry>

    constructor ()
      ensures entries == []
    {
      entries := [];
    }

    /** `check_yaml_event`: the key table is searched from "type" on. */
    method CheckYamlEvent(event: Option<string>) returns (k: YamlKey)
      ensures k == KeyOf(event)
    {
      if event.None? {
        return KeyMax;
      }
      var e := event.value;
      assert YAML_KEYS[1] == "type" && YAML_KEYS[2] == "path" && YAML_KEYS[3] == "description";
      var t := 1;
      while t < |YAML_KEYS|
        invariant 1 <= t <= |YAML_KEYS|
        invariant forall j :: 1 <= j < t ==> YAML_KEYS[j] != e
      {
        if |YAML_KEYS[t]| == |e| && YAML_KEYS[t] == e {
          return KeyAt(t);
        }
        t := t + 1;
      }
      k := KeyValue;
    }

    /** The name lookup of `add_path_type`, searched from "SOCKET" on. */
    method PathTypeOf(s: string) returns (t: PathType)
      ensures t == TypeNamed(s)
    {
      assert PATH_TYPE_NAMES[1] == "SOCKET" && PATH_TYPE_NAMES[2] == "PUB_KEY";
      var i := 1;
      while i < |PATH_TYPE_NAMES|
        invariant 1 <= i <= |PATH_TYPE_NAMES|
        invariant forall j :: 1 <= j < i ==> PATH_TYPE_NAMES[j] != s
      {
        if |PATH_TYPE_NAMES[i]| == |s| && PATH_TYPE_NAMES[i] == s {
          return PathTypeAt(i);
        }
        i := i + 1;
      }
      t := PathNone;
    }

    /** `find_yaml_entry`. */
    method FindEntry(t: PathType) returns (r: Option<nat>)
      ensures r == FirstOfType(entries, t)
    {
      var i := 0;
      while i < |entries|
        invariant 0 <= i <= |entries|
        invariant forall j :: 0 <= j < i ==> entries[j].pathType != t
      {
        if entries[i].pathType == t {
          return Some(i);
        }
        i := i + 1;
      }
      r := None;
    }

    /** `get_file_path`. */
    method GetFilePath(t: PathType) returns (r: Option<string>)
      ensures r == FilePathOf(entries, t)
    {
      var i := FindEntry(t);
      if i.None? {
        return None;
      }
      r := Some(entries[i.value].path);
    }

    /** `add_path_type`: NULL and any text other than "SOCKET" or "PUB_KEY"
        give NULL and change nothing; otherwise the entry of that type,
        added at the tail when it is new. */
    method AddPathType(pathType: Option<string>) returns (r: Option<nat>)
      modifies this
      ensures r.Some? <==> pathType.Some? && TypeNamed(pathType.value) != PathNone
      ensures r.Some? ==> (entries, r.value) == AddedType(old(entries), TypeNamed(pathType.value))
      ensures r.None? ==> entries == old(entries)
    {
      if pathType.None? {
        return None;
      }
      var t := PathTypeOf(pathType.value);
      if t == PathNone {
        return None;
      }
      var found := FindEntry(t);
      if found.None? {
        entries := entries + [Entry(t, "", "")];
        r := Some(|entries| - 1);
      } else {
        r := found;
      }
    }

    /** `add_yaml_file_path`: a NULL entry or path, or a path too long for
        its buffer, is FATAL; otherwise the path is stored whole. */
    method AddYamlFilePath(entry: Option<nat>, path: Option<string>) returns (rc: int)
      requires entry.Some? ==> entry.value < |entries|
      modifies this
      ensures rc == PASSWD_ERR_SUCCESS <==> entry.Some? && path.Some? && PathFits(path.value)
      ensures rc != PASSWD_ERR_SUCCESS ==> rc == PASSWD_ERR_FATAL && entries == old(entries)
      ensures rc == PASSWD_ERR_SUCCESS ==>
                entries == old(entries)[entry.value := old(entries)[entry.value].(path := path.value)]
    {
      if entry.None? || path.None? {
        return PASSWD_ERR_FATAL;
      }
      if !PathFits(path.value) {
        return PASSWD_ERR_FATAL;
      }
      var i := entry.value;
      entries := entries[i := entries[i].(path := path.value)];
      rc := PASSWD_ERR_SUCCESS;
    }

    /** `add_yaml_path_desc`: a NULL entry or description, or one longer
        than 255, is FATAL; otherwise it is copied over the old one. */
    method AddYamlPathDesc(entry: Option<nat>, desc: Option<string>) returns (rc: int)
      requires entry.Some? ==> entry.value < |entries|
      modifies this
      ensures rc == PASSWD_ERR_SUCCESS <==> entry.Some? && desc.Some? && DescFits(desc.value)
      ensures rc != PASSWD_ERR_SUCCESS ==> rc == PASSWD_ERR_FATAL && entries == old(entries)
      ensures rc == PASSWD_ERR_SUCCESS ==>
                entries == old(entries)[entry.value :=
                  old(entries)[entry.value].(desc := Overlay(old(entries)[entry.value].desc, desc.value))]
    {
      if entry.None? || desc.None? {
        return PASSWD_ERR_FATAL;
      }
      if !DescFits(desc.value) {
        return PASSWD_ERR_FATAL;
      }
      var i := entry.value;
      entries := entries[i := entries[i].(desc := Overlay(entries[i].desc, desc.value))];
      rc := PASSWD_ERR_SUCCESS;
    }

    /** `parse_passwd_srv_yaml`. */
    method Parse(initOk: bool, fileOpened: bool, events: seq<Event>, stop: Stop) returns (rc: int)
      modifies this
      ensures (rc, entries) == ParseOutcome(old(entries), initOk, fileOpened, events, stop)
    {
      if !initOk {
        return PASSWD_ERR_FATAL;
      }
      if !fileOpened {
        return PASSWD_ERR_YAML_FILE;
      }
      var current := KeyMax;
      var entry: Option<nat> := None;
      ghost var s0 := ParseState(entries, KeyMax, None);
      var i := 0;
      while i < |events|
        invariant 0 <= i <= |events|
        invariant Indexed(ParseState(entries, current, entry))
        invariant Run(s0, events) == Run(ParseState(entries, current, entry), events[i..])
      {
        ghost var s := ParseState(entries, current, entry);
        assert events[i..][1..] == events[i + 1..];
        if events[i].Scalar? {
          var value := events[i].value;
          var k := CheckYamlEvent(value);
          if k == KeyValue {
            if current == KeyPathType {
              entry := AddPathType(value);
              if entry.None? {
                assert Step(s, events[i]) == Fatal(entries);
                return PASSWD_ERR_FATAL;
              }
            } else if current == KeyPath {
              rc := AddYamlFilePath(entry, value);
              if rc != PASSWD_ERR_SUCCESS {
                return PASSWD_ERR_FATAL;
              }
            } else if current == KeyDesc {
              rc := AddYamlPathDesc(entry, value);
              if rc != PASSWD_ERR_SUCCESS {
                return PASSWD_ERR_FATAL;
              }
            }
          } else if k != KeyMax {
            current := k;
          }
        }
        assert Step(s, events[i]) == Next(ParseState(entries, current, entry));
        i := i + 1;
      }
      rc := if stop == StreamEnd then PASSWD_ERR_SUCCESS else PASSWD_ERR_FATAL;
    }

    /** `uninit_yaml_parser`: the list is emptied, which always succeeds. */
    method Uninit() returns (rc: int)
      modifies this
      ensures rc == PASSWD_ERR_SUCCESS && entries == []
      ensures forall t :: FilePathOf(entries, t).None?
    {
      entries := [];
      rc := PASSWD_ERR_SUCCESS;
    }
  }
}
