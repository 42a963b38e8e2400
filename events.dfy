/**
 * The events plugin (plugins/events/main.go): each event is an
 * attribute-list attribute named "#" + the event name on the plugin's
 * extension, holding description, startTimestamp, location and owner.
 */
module Events {
  import opened Base
  import AttrJson
  import opened GoApi

  /*
   * The names below are stored JSON-escaped inside attribute lists. Each is
   * spelled as a concatenation so that the verifier treats it as a value
   * rather than evaluating its escaping character by character.
   */
  const START_TIMESTAMP: string := "startTimestam" + "p"
  const OWNER: string := "owne" + "r"
  const DESCRIPTION: string := "descriptio" + "n"
  const LOCATION: string := "locatio" + "n"
  const TIMESTAMP: string := "TIMESTAM" + "P"

  /** Go's zero time.Time as Unix seconds (January 1 of year 1, UTC). */
  const ZERO_TIME_UNIX: int := -62135596800

  function GetEventName(n: string): (r: string)
    ensures |r| == |n| + 1 && r[0] == '#' && r[1..] == n
  {
    "#" + n
  }

  /** The listing strips the '#' off a stored name: the inverse of GetEventName. */
  lemma EventNameRoundTrip(n: string)
    ensures GetEventName(n)[1..] == n
    ensures forall s :: |s| > 0 && s[0] == '#' ==> GetEventName(s[1..]) == s
  {
    forall s | |s| > 0 && s[0] == '#'
      ensures GetEventName(s[1..]) == s
    {
      assert s == [s[0]] + s[1..];
    }
  }

  // ---------------------------------------------------------------------
  // Decoding the stored fields

  /** The value of the last entry with this name, or `current` when there is none. */
  function LastValue(es: seq<AttrJson.Entry>, field: string, current: string): string
  {
    if |es| == 0 then current
    else if es[|es| - 1].name == field then es[|es| - 1].value
    else LastValue(es[..|es| - 1], field, current)
  }

  /** A later entry overrides an earlier one; an absent field keeps its value. */
  lemma {:induction false} LastValueMeaning(es: seq<AttrJson.Entry>, field: string, current: string)
    ensures (forall i :: 0 <= i < |es| ==> es[i].name != field) ==> LastValue(es, field, current) == current
    ensures (exists i :: 0 <= i < |es| && es[i].name == field) ==>
      exists i :: 0 <= i < |es| && es[i].name == field && LastValue(es, field, current) == es[i].value
        && forall j :: i < j < |es| ==> es[j].name != field
  {
    if |es| > 0 {
      var init := es[..|es| - 1];
      LastValueMeaning(init, field, current);
      assert forall i :: 0 <= i < |init| ==> init[i] == es[i];
    }
  }

  predicate StartsParse(es: seq<AttrJson.Entry>)
  {
    forall i :: 0 <= i < |es| && es[i].name == START_TIMESTAMP ==> ParseInt64(es[i].value).Some?
  }

  /** Where decoding stops: the first startTimestamp that is not an int64. */
  function FirstBadStart(es: seq<AttrJson.Entry>): (i: nat)
    requires !StartsParse(es)
    ensures i < |es| && es[i].name == START_TIMESTAMP && ParseInt64(es[i].value).None?
    ensures StartsParse(es[..i])
  {
    if es[0].name == START_TIMESTAMP && ParseInt64(es[0].value).None? then 0
    else
      var j := FirstBadStart(es[1..]);
      assert es[..j + 1] == [es[0]] + es[1..][..j];
      1 + j
  }

  /** The start time after the entries: the last startTimestamp parsed, or `current`. */
  function LastStart(es: seq<AttrJson.Entry>, current: Option<int>): Option<int>
  {
    if |es| == 0 then current
    else if es[|es| - 1].name == START_TIMESTAMP then ParseInt64(es[|es| - 1].value)
    else LastStart(es[..|es| - 1], current)
  }

  lemma {:induction false} FirstBadStartAt(es: seq<AttrJson.Entry>, i: nat)
    requires i < |es| && StartsParse(es[..i])
    requires es[i].name == START_TIMESTAMP && ParseInt64(es[i].value).None?
    ensures !StartsParse(es) && FirstBadStart(es) == i
  {
    assert !StartsParse(es);
    if i > 0 {
      assert es[..i][0] == es[0];
      assert es[1..][..i - 1] == es[..i][1..];
      FirstBadStartAt(es[1..], i - 1);
    }
  }

  lemma LastValueStep(es: seq<AttrJson.Entry>, i: nat, f: string, d: string)
    requires i < |es|
    ensures LastValue(es[..i + 1], f, d) == if es[i].name == f then es[i].value else LastValue(es[..i], f, d)
  {
    assert es[..i + 1][..i] == es[..i];
  }

  lemma LastStartStep(es: seq<AttrJson.Entry>, i: nat, d: Option<int>)
    requires i < |es|
    ensures LastStart(es[..i + 1], d) ==
      if es[i].name == START_TIMESTAMP then ParseInt64(es[i].value) else LastStart(es[..i], d)
  {
    assert es[..i + 1][..i] == es[..i];
  }

  lemma StartsParseStep(es: seq<AttrJson.Entry>, i: nat)
    requires i < |es| && StartsParse(es[..i])
    requires es[i].name == START_TIMESTAMP ==> ParseInt64(es[i].value).Some?
    ensures StartsParse(es[..i + 1])
  {
    assert forall k :: 0 <= k < i ==> es[..i + 1][k] == es[..i][k];
  }

  /** strconv.ParseInt's error text for a value that is not a decimal int64. */
  function ParseIntError(v: string): string
  {
    var body := if |v| > 0 && (v[0] == '+' || v[0] == '-') then v[1..] else v;
    "strconv.ParseInt: parsing \"" + v + "\": "
    + (if |body| > 0 && AllDigits(body) then "value out of range" else "invalid syntax")
  }

  const UNMARSHAL_ERROR: string := "json: cannot unmarshal attribute list"

  class Event {
    var name: string
    var owner: string
    var description: string
    /** Unix seconds; None is Go's zero time. */
    var startTime: Option<int>
    var location: string

    constructor(name: string)
      ensures this.name == name && owner == "" && description == "" && startTime == None && location == ""
    {
      this.name := name;
      owner := "";
      description := "";
      startTime := None;
      location := "";
    }

    /**
     * fillFromAttr: the known fields take the value of their last entry,
     * other names are ignored, and a startTimestamp that is not an int64
     * stops the fill with ParseInt's error.
     */
    method FillFromAttr(a: Attr) returns (err: Option<Error>)
      modifies this
      ensures name == old(name)
      ensures AttrJson.DecodeList(a.value).None? ==> err == Some(Plain(UNMARSHAL_ERROR))
      ensures AttrJson.DecodeList(a.value).Some? ==>
        var es := AttrJson.DecodeList(a.value).value;
        (err.None? <==> StartsParse(es))
        && (err.Some? ==> err.value == Plain(ParseIntError(es[FirstBadStart(es)].value)))
        && (err.None? ==>
              owner == LastValue(es, OWNER, old(owner))
              && description == LastValue(es, DESCRIPTION, old(description))
              && location == LastValue(es, LOCATION, old(location))
              && startTime == LastStart(es, old(startTime)))
    {
      var decoded := AttrJson.DecodeList(a.value);
      if decoded.None? {
        return Some(Plain(UNMARSHAL_ERROR));
      }
      err := FillFromEntries(decoded.value);
    }

    /** The loop of fillFromAttr over the decoded entries. */
    method FillFromEntries(es: seq<AttrJson.Entry>) returns (err: Option<Error>)
      modifies this
      ensures name == old(name)
      ensures err.None? <==> StartsParse(es)
      ensures err.Some? ==> err.value == Plain(ParseIntError(es[FirstBadStart(es)].value))
      ensures err.None? ==>
        owner == LastValue(es, OWNER, old(owner))
        && description == LastValue(es, DESCRIPTION, old(description))
        && location == LastValue(es, LOCATION, old(location))
        && startTime == LastStart(es, old(startTime))
    {
      var i := 0;
      while i < |es|
        invariant 0 <= i <= |es|
        invariant name == old(name)
        invariant StartsParse(es[..i])
        invariant owner == LastValue(es[..i], OWNER, old(owner))
        invariant description == LastValue(es[..i], DESCRIPTION, old(description))
        invariant location == LastValue(es[..i], LOCATION, old(location))
        invariant startTime == LastStart(es[..i], old(startTime))
      {
        var e := es[i];
        LastValueStep(es, i, OWNER, old(owner));
        LastValueStep(es, i, DESCRIPTION, old(description));
        LastValueStep(es, i, LOCATION, old(location));
        LastStartStep(es, i, old(startTime));
        if e.name == START_TIMESTAMP {
          var v := ParseInt64(e.value);
          if v.None? {
            FirstBadStartAt(es, i);
            return Some(Plain(ParseIntError(e.value)));
          }
          startTime := v;
        } else if e.name == OWNER {
          owner := e.value;
        } else if e.name == DESCRIPTION {
          description := e.value;
        } else if e.name == LOCATION {
          location := e.value;
        }
        StartsParseStep(es, i);
        i := i + 1;
      }
      assert es[..i] == es;
      return None;
    }
  }

  // ---------------------------------------------------------------------
  // Handlers

  function AlreadyExists(eventName: string): string
  {
    "Event '" + eventName + "' already exists"
  }

  /** What the caller is told once an event is stored. */
  function CreatedMessage(name: string): string
  {
    "Created event '" + name + "'"
  }

  /** The entries a new event is stored with. */
  function NewEventEntries(description: string, start: int, location: string, owner: string)
    : seq<AttrJson.Entry>
  {
    [NewStringAttr(DESCRIPTION, description),
     AttrJson.Entry(START_TIMESTAMP, DecimalString(start), TIMESTAMP),
     NewStringAttr(LOCATION, location),
     NewStringAttr(OWNER, owner)]
  }

  /** The attribute a new event is stored as. */
  function NewEventAttr(eventName: string, description: string, start: int, location: string, owner: string)
    : (a: Attr)
    ensures a.name == eventName && a.kind == ATTRLIST
  {
    NewAttrListAttr(eventName, NewEventEntries(description, start, location, owner))
  }

  /** A new event's attribute decodes to the entries it was made from. */
  lemma NewEventAttrDecodes(eventName: string, description: string, start: int, location: string, owner: string)
    ensures AttrJson.DecodeList(NewEventAttr(eventName, description, start, location, owner).value)
      == Some(NewEventEntries(description, start, location, owner))
  {
    NewAttrListAttrReadsBack(eventName, NewEventEntries(description, start, location, owner));
  }

  /** A new event's entries fill an event with the fields it was created with. */
  lemma NewEventReadsBack(description: string, start: int, location: string, owner: string)
    requires LONG_MIN <= start <= LONG_MAX
    ensures var es := NewEventEntries(description, start, location, owner);
      StartsParse(es)
      && LastValue(es, OWNER, "") == owner
      && LastValue(es, DESCRIPTION, "") == description
      && LastValue(es, LOCATION, "") == location
      && LastStart(es, None) == Some(start)
  {
    NewEventStartReadsBack(description, start, location, owner);
    NewEventTextReadsBack(description, start, location, owner);
  }

  lemma NewEventStartReadsBack(description: string, start: int, location: string, owner: string)
    requires LONG_MIN <= start <= LONG_MAX
    ensures var es := NewEventEntries(description, start, location, owner);
      StartsParse(es) && LastStart(es, None) == Some(start)
  {
    var es := NewEventEntries(description, start, location, owner);
    DecimalRoundTrip(start, LONG_MIN, LONG_MAX);
    assert START_TIMESTAMP[0] == 's' && OWNER[0] == 'o' && DESCRIPTION[0] == 'd' && LOCATION[0] == 'l';
    assert es[..4] == es;
    LastStartStep(es, 3, None);
    LastStartStep(es, 2, None);
    LastStartStep(es, 1, None);
  }

  lemma NewEventTextReadsBack(description: string, start: int, location: string, owner: string)
    ensures var es := NewEventEntries(description, start, location, owner);
      LastValue(es, OWNER, "") == owner
      && LastValue(es, DESCRIPTION, "") == description
      && LastValue(es, LOCATION, "") == location
  {
    var es := NewEventEntries(description, start, location, owner);
    assert START_TIMESTAMP[0] == 's' && OWNER[0] == 'o' && DESCRIPTION[0] == 'd' && LOCATION[0] == 'l';
    assert es[..4] == es;
    LastValueStep(es, 3, DESCRIPTION, "");
    LastValueStep(es, 2, DESCRIPTION, "");
    LastValueStep(es, 1, DESCRIPTION, "");
    LastValueStep(es, 0, DESCRIPTION, "");
  }

  /**
   * handleCreateEvent: four arguments after the subcommand; any stored
   * attribute under the event's name refuses the create (a failed read of
   * any kind lets it go on). `start` is the parsed start time in the
   * caller's time zone, or the date parser's error.
   */
  method HandleCreateEvent(remote: Remote, call: PluginCall, start: Result<int, string>) returns (r: HandlerOutcome)
    requires remote.Valid()
    modifies remote
    ensures remote.Valid()
    ensures CheckArgumentCount(call, 5).Some? ==>
      r == Failed(CheckArgumentCount(call, 5).value) && remote.calls == old(remote.calls)
    ensures CheckArgumentCount(call, 5).None? ==>
      var eventName := GetEventName(call.arguments[1]);
      var read := old(remote.GetAttrAnswer(call.extensionId, eventName, true));
      (read.Success? ==> r == Failed(AlreadyExists(eventName)) && remote.attrs == old(remote.attrs))
      && (read.Failure? && GetCallerNameCall !in old(remote.refusals) && start.Success? ==>
            var a := NewEventAttr(eventName, call.arguments[2], start.value, call.arguments[4],
                                  old(remote.callerName));
            var set_ := SetAttrCall(call.extensionId, a.name, a.value, a.kind, true);
            var send := SendMessageToCallerCall(CreatedMessage(call.arguments[1]));
            (set_ !in old(remote.refusals) && send !in old(remote.refusals) <==> r.Returned?)
            && (set_ !in old(remote.refusals) ==>
                  remote.attrs == old(remote.attrs)[AttrKey(call.extensionId, eventName) := a])
            && (set_ in old(remote.refusals) ==>
                  r == Failed(old(remote.refusals)[set_].message) && remote.attrs == old(remote.attrs))
            && (set_ !in old(remote.refusals) && send in old(remote.refusals) ==>
                  r == Failed(old(remote.refusals)[send].message)))
      && (read.Failure? && (GetCallerNameCall in old(remote.refusals) || start.Failure?) ==>
            r.Failed? && remote.attrs == old(remote.attrs))
  {
    var countErr := CheckArgumentCount(call, 5);
    if countErr.Some? {
      return Failed(countErr.value);
    }
    var eventName := GetEventName(call.arguments[1]);
    var read := remote.GetAttr(call.extensionId, eventName, true);
    if read.Success? {
      return Failed(AlreadyExists(eventName));
    }
    r := StoreNewEvent(remote, call, eventName, start);
  }

  /** The second half of the create handler, once the event is known not to exist: the caller, then the write. */
  method StoreNewEvent(remote: Remote, call: PluginCall, eventName: string, start: Result<int, string>)
    returns (r: HandlerOutcome)
    requires remote.Valid() && |call.arguments| == 5
    modifies remote
    ensures remote.Valid()
    ensures GetCallerNameCall !in old(remote.refusals) && start.Success? ==>
      var a := NewEventAttr(eventName, call.arguments[2], start.value, call.arguments[4], old(remote.callerName));
      var set_ := SetAttrCall(call.extensionId, a.name, a.value, a.kind, true);
      var send := SendMessageToCallerCall(CreatedMessage(call.arguments[1]));
      (set_ !in old(remote.refusals) && send !in old(remote.refusals) <==> r.Returned?)
      && (set_ !in old(remote.refusals) ==>
            remote.attrs == old(remote.attrs)[AttrKey(call.extensionId, eventName) := a])
      && (set_ in old(remote.refusals) ==>
            r == Failed(old(remote.refusals)[set_].message) && remote.attrs == old(remote.attrs))
      && (set_ !in old(remote.refusals) && send in old(remote.refusals) ==>
            r == Failed(old(remote.refusals)[send].message))
    ensures GetCallerNameCall in old(remote.refusals) || start.Failure? ==>
      r.Failed? && remote.attrs == old(remote.attrs)
  {
    var caller := remote.GetCallerName();
    if caller.Failure? {
      return Failed(caller.error.message);
    }
    if start.Failure? {
      return Failed(start.error);
    }
    var a := NewEventAttr(eventName, call.arguments[2], start.value, call.arguments[4], caller.value);
    var err := remote.SetAttr(call.extensionId, a, true);
    if err.Some? {
      return Failed(err.value.message);
    }
    err := remote.SendMessageToCaller(CreatedMessage(call.arguments[1]));
    if err.Some? {
      return Failed(err.value.message);
    }
    return Returned(JString(""));
  }

  /** One listed event: its name without the '#', and its start time. */
  datatype EventRow = EventRow(name: string, startTime: Option<int>)

  function StartKey(t: Option<int>): int
  {
    if t.Some? then t.value else ZERO_TIME_UNIX
  }

  predicate SortedByStart(rows: seq<EventRow>)
  {
    forall i, j :: 0 <= i < j < |rows| ==> StartKey(rows[i].startTime) <= StartKey(rows[j].startTime)
  }

  /** The '#'-prefixed names, in order (the listing's filter loop). */
  function EventNames(names: seq<string>): (r: seq<string>)
    ensures forall i :: 0 <= i < |r| ==> |r[i]| > 0 && r[i][0] == '#'
    ensures forall n :: n in r <==> n in names && |n| > 0 && n[0] == '#'
  {
    if |names| == 0 then []
    else
      var rest := EventNames(names[1..]);
      assert forall n :: n in names <==> n == names[0] || n in names[1..];
      if |names[0]| > 0 && names[0][0] == '#' then [names[0]] + rest else rest
  }

  /** Inserting a row into a sorted listing keeps it sorted and loses nothing. */
  function InsertByStart(rows: seq<EventRow>, x: EventRow): (r: seq<EventRow>)
    requires SortedByStart(rows)
    ensures SortedByStart(r)
    ensures multiset(r) == multiset(rows) + multiset{x}
  {
    if |rows| == 0 then [x]
    else if StartKey(x.startTime) <= StartKey(rows[0].startTime) then [x] + rows
    else
      var rest := InsertByStart(rows[1..], x);
      assert rows == [rows[0]] + rows[1..];
      HeadStaysFirst(rows, x, rest);
      [rows[0]] + rest
  }

  /** The head of a sorted listing starts no later than anything in the rest with a later row added. */
  lemma HeadStaysFirst(rows: seq<EventRow>, x: EventRow, rest: seq<EventRow>)
    requires |rows| > 0 && SortedByStart(rows) && StartKey(rows[0].startTime) < StartKey(x.startTime)
    requires multiset(rest) == multiset(rows[1..]) + multiset{x}
    ensures forall k :: 0 <= k < |rest| ==> StartKey(rows[0].startTime) <= StartKey(rest[k].startTime)
  {
    forall k | 0 <= k < |rest|
      ensures StartKey(rows[0].startTime) <= StartKey(rest[k].startTime)
    {
      assert rest[k] in multiset(rest);
      assert rest[k] in multiset(rows[1..]) + multiset{x};
      if rest[k] != x {
        assert rest[k] in rows[1..];
        var j :| 0 <= j < |rows[1..]| && rows[1..][j] == rest[k];
        assert rows[j + 1] == rest[k];
      }
    }
  }

  /** sort.Slice by ascending start time: the same rows, in order. */
  method SortByStart(rows: seq<EventRow>) returns (sorted: seq<EventRow>)
    ensures SortedByStart(sorted)
    ensures multiset(sorted) == multiset(rows)
  {
    sorted := [];
    var i := 0;
    while i < |rows|
      invariant 0 <= i <= |rows|
      invariant SortedByStart(sorted)
      invariant multiset(sorted) == multiset(rows[..i])
    {
      assert rows[..i + 1] == rows[..i] + [rows[i]];
      sorted := InsertByStart(sorted, rows[i]);
      i := i + 1;
    }
    assert rows[..i] == rows;
  }

  /**
   * The row a stored '#'-name is listed as, given the server's answer to
   * reading it: named without the '#', starting at the last stored start
   * time (Go's zero time when there is none). None when the read fails,
   * the value is not an attribute list or a start time is not an int64.
   */
  function RowOf(read: Result<Attr, Error>, n: string): Option<EventRow>
    requires |n| > 0
  {
    if read.Failure? then None
    else match AttrJson.DecodeList(read.value.value)
      case None => None
      case Some(es) => if StartsParse(es) then Some(EventRow(n[1..], LastStart(es, None))) else None
  }

  /**
   * One listed event: read the stored attribute and fill an event named
   * without the '#'. The row is the stored event's, and a failed read is
   * passed on as it is.
   */
  method ReadEvent(remote: Remote, extensionId: string, n: string) returns (r: Result<EventRow, Error>)
    requires remote.Valid() && |n| > 0
    modifies remote
    ensures remote.Valid()
    ensures remote.attrs == old(remote.attrs) && remote.roles == old(remote.roles)
    ensures remote.refusals == old(remote.refusals) && remote.callerName == old(remote.callerName)
    ensures old(remote.GetAttrAnswer(extensionId, n, true)).Failure? ==>
      r == Failure(old(remote.GetAttrAnswer(extensionId, n, true)).error)
    ensures r.Success? <==> RowOf(old(remote.GetAttrAnswer(extensionId, n, true)), n).Some?
    ensures r.Success? ==> Some(r.value) == RowOf(old(remote.GetAttrAnswer(extensionId, n, true)), n)
  {
    var read := remote.GetAttr(extensionId, n, true);
    if read.Failure? {
      return Failure(read.error);
    }
    var e := new Event(n[1..]);
    var err := e.FillFromAttr(read.value);
    if err.Some? {
      return Failure(err.value);
    }
    return Success(EventRow(e.name, e.startTime));
  }

  /** The row a '#'-name reads as on a server holding `attrs` and refusing `refusals`. */
  function StoredRow(attrs: map<AttrKey, Attr>, refusals: map<RemoteCall, Error>, extensionId: string, n: string)
    : Option<EventRow>
    requires |n| > 0
  {
    RowOf(AttrAnswer(attrs, refusals, extensionId, n, true), n)
  }

  /** One turn of the reading loop, with the row the stored event reads as already known. */
  method ReadNext(remote: Remote, extensionId: string, n: string, ghost expected: Option<EventRow>)
    returns (r: Result<EventRow, Error>)
    requires remote.Valid() && |n| > 0 && n[0] == '#'
    requires expected == StoredRow(remote.attrs, remote.refusals, extensionId, n)
    modifies remote
    ensures remote.Valid()
    ensures remote.attrs == old(remote.attrs) && remote.roles == old(remote.roles)
    ensures remote.refusals == old(remote.refusals) && remote.callerName == old(remote.callerName)
    ensures r.Success? <==> expected.Some?
    ensures r.Success? ==> Some(r.value) == expected && GetEventName(r.value.name) == n
  {
    r := ReadEvent(remote, extensionId, n);
    if r.Success? {
      assert n == [n[0]] + n[1..];
    }
  }

  /**
   * The reading loop of handleListEvents: each name's stored row, in
   * order, or the first failure; it succeeds exactly when every name's
   * stored event reads as a row.
   */
  method ReadEvents(remote: Remote, extensionId: string, eventNames: seq<string>)
    returns (r: Result<seq<EventRow>, Error>)
    requires remote.Valid()
    requires forall k :: 0 <= k < |eventNames| ==> |eventNames[k]| > 0 && eventNames[k][0] == '#'
    modifies remote
    ensures remote.Valid()
    ensures remote.attrs == old(remote.attrs) && remote.roles == old(remote.roles)
    ensures remote.refusals == old(remote.refusals) && remote.callerName == old(remote.callerName)
    ensures r.Success? <==>
      forall k :: 0 <= k < |eventNames| ==>
        StoredRow(old(remote.attrs), old(remote.refusals), extensionId, eventNames[k]).Some?
    ensures r.Success? ==>
      |r.value| == |eventNames|
      && (forall k :: 0 <= k < |eventNames| ==>
            Some(r.value[k]) == StoredRow(old(remote.attrs), old(remote.refusals), extensionId, eventNames[k]))
      && (forall k :: 0 <= k < |eventNames| ==> GetEventName(r.value[k].name) == eventNames[k])
  {
    // The rows the stored events read as; the loop's own calls do not change them.
    ghost var attrs, refusals := remote.attrs, remote.refusals;
    ghost var expected := seq(|eventNames|, k requires 0 <= k < |eventNames| =>
                                StoredRow(attrs, refusals, extensionId, eventNames[k]));
    var rows: seq<EventRow> := [];
    var i := 0;
    while i < |eventNames|
      invariant 0 <= i <= |eventNames|
      invariant remote.Valid()
      invariant remote.attrs == attrs && remote.roles == old(remote.roles)
      invariant remote.refusals == refusals && remote.callerName == old(remote.callerName)
      invariant |rows| == i
      invariant forall k :: 0 <= k < i ==> Some(rows[k]) == expected[k]
      invariant forall k :: 0 <= k < i ==> GetEventName(rows[k].name) == eventNames[k]
    {
      var n := eventNames[i];
      var row := ReadNext(remote, extensionId, n, expected[i]);
      if row.Failure? {
        return Failure(row.error);
      }
      rows := rows + [row.value];
      i := i + 1;
    }
    return Success(rows);
  }

  /** A stored attribute of the extension whose name marks it as an event. */
  predicate IsStoredEvent(attrs: map<AttrKey, Attr>, extensionId: string, n: string)
  {
    AttrKey(extensionId, n) in attrs && |n| > 0 && n[0] == '#'
  }

  predicate NamesDistinct(rows: seq<EventRow>)
  {
    forall i, j :: 0 <= i < j < |rows| ==> rows[i].name != rows[j].name
  }

  predicate Unrepeated(s: seq<string>)
  {
    forall i, j :: 0 <= i < j < |s| ==> s[i] != s[j]
  }

  /** Filtering keeps a list of names free of repeats. */
  lemma {:induction false} EventNamesDistinct(names: seq<string>)
    requires Unrepeated(names)
    ensures Unrepeated(EventNames(names))
  {
    if |names| > 0 {
      var tail := names[1..];
      var rest := EventNames(tail);
      assert Unrepeated(tail) by {
        forall i, j | 0 <= i < j < |tail|
          ensures tail[i] != tail[j]
        {
          assert tail[i] == names[i + 1] && tail[j] == names[j + 1];
        }
      }
      EventNamesDistinct(tail);
      if |names[0]| > 0 && names[0][0] == '#' {
        assert names[0] !in rest by {
          forall k | 0 <= k < |tail|
            ensures tail[k] != names[0]
          {
            assert tail[k] == names[k + 1];
          }
        }
        ConsUnrepeated(names[0], rest);
      }
    }
  }

  lemma ConsUnrepeated(x: string, rest: seq<string>)
    requires Unrepeated(rest) && x !in rest
    ensures Unrepeated([x] + rest)
  {
    var r := [x] + rest;
    forall i, j | 0 <= i < j < |r|
      ensures r[i] != r[j]
    {
      assert r[j] == rest[j - 1];
      if i > 0 {
        assert r[i] == rest[i - 1];
      }
    }
  }

  /** Reordering rows whose names are distinct keeps them distinct. */
  lemma DistinctReordered(rows: seq<EventRow>, sorted: seq<EventRow>)
    requires multiset(sorted) == multiset(rows) && NamesDistinct(rows)
    ensures NamesDistinct(sorted)
  {
    forall i, j | 0 <= i < j < |sorted|
      ensures sorted[i].name != sorted[j].name
    {
      if sorted[i].name == sorted[j].name {
        var a :| 0 <= a < |rows| && rows[a] == sorted[i] by { assert sorted[i] in multiset(rows); }
        var b :| 0 <= b < |rows| && rows[b] == sorted[j] by { assert sorted[j] in multiset(rows); }
        assert a == b;
        TwiceInMultiset(sorted, i, j);
        OnceInMultiset(rows, a);
      }
    }
  }

  lemma {:induction false} TwiceInMultiset(s: seq<EventRow>, i: nat, j: nat)
    requires i < j < |s| && s[i] == s[j]
    ensures multiset(s)[s[i]] >= 2
  {
    assert s == s[..j] + s[j..];
    assert s[i] in s[..j];
    assert s[j] in s[j..];
  }

  lemma {:induction false} OnceInMultiset(s: seq<EventRow>, a: nat)
    requires a < |s| && NamesDistinct(s)
    ensures multiset(s)[s[a]] == 1
  {
    assert s == s[..a] + [s[a]] + s[a + 1..];
    assert s[a] !in s[..a];
    assert s[a] !in s[a + 1..];
  }

  /**
   * handleListEvents' gathering and ordering: the stored row of each
   * '#'-prefixed name, exactly one per name, in ascending start time. The
   * listing succeeds exactly when the names can be listed and every stored
   * event reads as a row; none stored gives the empty listing (the handler
   * then says "No events found").
   */
  method ListEvents(remote: Remote, extensionId: string) returns (r: Result<seq<EventRow>, Error>)
    requires remote.Valid()
    modifies remote
    ensures remote.Valid()
    ensures remote.attrs == old(remote.attrs) && remote.roles == old(remote.roles)
    ensures remote.refusals == old(remote.refusals) && remote.callerName == old(remote.callerName)
    ensures r.Success? <==>
      GetAttrNamesCall(extensionId, true) !in old(remote.refusals)
      && forall n :: IsStoredEvent(old(remote.attrs), extensionId, n) ==>
           StoredRow(old(remote.attrs), old(remote.refusals), extensionId, n).Some?
    ensures r.Success? ==> SortedByStart(r.value) && NamesDistinct(r.value)
    ensures r.Success? ==>
      (forall row :: row in r.value ==>
         IsStoredEvent(remote.attrs, extensionId, GetEventName(row.name))
         && Some(row) == StoredRow(remote.attrs, remote.refusals, extensionId, GetEventName(row.name)))
      && (forall n :: IsStoredEvent(remote.attrs, extensionId, n) ==>
            exists row :: row in r.value && GetEventName(row.name) == n)
  {
    var names := remote.GetAttrNames(extensionId, true);
    if names.Failure? {
      return Failure(names.error);
    }
    var eventNames := EventNames(names.value);
    assert forall n :: n in eventNames <==> IsStoredEvent(remote.attrs, extensionId, n);
    var read := ReadEvents(remote, extensionId, eventNames);
    if read.Failure? {
      var k :| 0 <= k < |eventNames| && StoredRow(remote.attrs, remote.refusals, extensionId, eventNames[k]).None?;
      assert IsStoredEvent(remote.attrs, extensionId, eventNames[k]);
      return Failure(read.error);
    }
    r := Listed(remote.attrs, remote.refusals, extensionId, names.value, read.value);
  }

  /** The end of the listing: the rows read for the names, sorted, with what that means. */
  method Listed(ghost attrs: map<AttrKey, Attr>, ghost refusals: map<RemoteCall, Error>, extensionId: string,
                ghost names: seq<string>, rows: seq<EventRow>)
    returns (r: Result<seq<EventRow>, Error>)
    requires forall n :: n in names <==> AttrKey(extensionId, n) in attrs
    requires Unrepeated(names)
    requires var eventNames := EventNames(names);
      |rows| == |eventNames|
      && forall k :: 0 <= k < |eventNames| ==> Some(rows[k]) == StoredRow(attrs, refusals, extensionId, eventNames[k])
    requires var eventNames := EventNames(names);
      forall k :: 0 <= k < |eventNames| ==> GetEventName(rows[k].name) == eventNames[k]
    ensures r.Success? && SortedByStart(r.value) && NamesDistinct(r.value)
    ensures forall row :: row in r.value ==>
      IsStoredEvent(attrs, extensionId, GetEventName(row.name))
      && Some(row) == StoredRow(attrs, refusals, extensionId, GetEventName(row.name))
    ensures forall n :: IsStoredEvent(attrs, extensionId, n) ==>
      exists row :: row in r.value && GetEventName(row.name) == n
  {
    var eventNames := EventNames(names);
    EventNamesDistinct(names);
    assert NamesDistinct(rows) by {
      forall i, j | 0 <= i < j < |rows|
        ensures rows[i].name != rows[j].name
      {
        assert GetEventName(rows[i].name) == eventNames[i];
        assert GetEventName(rows[j].name) == eventNames[j];
      }
    }
    var sorted := SortByStart(rows);
    DistinctReordered(rows, sorted);
    forall row | row in sorted
      ensures IsStoredEvent(attrs, extensionId, GetEventName(row.name))
      ensures Some(row) == StoredRow(attrs, refusals, extensionId, GetEventName(row.name))
    {
      assert row in multiset(rows);
      var k :| 0 <= k < |rows| && rows[k] == row;
      assert eventNames[k] in names;
    }
    forall n | IsStoredEvent(attrs, extensionId, n)
      ensures exists row :: row in sorted && GetEventName(row.name) == n
    {
      assert n in eventNames;
      var k :| 0 <= k < |eventNames| && eventNames[k] == n;
      assert rows[k] in multiset(sorted);
    }
    return Success(sorted);
  }

  // ---------------------------------------------------------------------
  // Deleting

  function DoesNotExist(eventName: string): string
  {
    "Event '" + eventName + "' does not exist"
  }

  /** What the caller is told once an event is removed. */
  function DeletedMessage(name: string): string
  {
    "Deleted event '" + name + "'"
  }

  /**
   * handleDeleteEvent: any failed read says the event does not exist; the
   * event must carry an owner equal to the caller before it is removed.
   */
  method HandleDeleteEvent(remote: Remote, call: PluginCall) returns (r: HandlerOutcome)
    requires remote.Valid()
    modifies remote
    ensures remote.Valid()
    ensures CheckArgumentCount(call, 2).Some? ==>
      r == Failed(CheckArgumentCount(call, 2).value) && remote.calls == old(remote.calls)
    ensures r.Returned? ==>
      var eventName := GetEventName(call.arguments[1]);
      var read := old(remote.GetAttrAnswer(call.extensionId, eventName, true));
      read.Success? && GetAttrListValue(read.value).Success?
      && OWNER in GetAttrListValue(read.value).value
      && GetAttrListValue(read.value).value[OWNER].value == old(remote.callerName)
      && remote.attrs == old(remote.attrs) - {AttrKey(call.extensionId, eventName)}
    ensures remote.attrs != old(remote.attrs) ==>
      CheckArgumentCount(call, 2).None?
      && var read := old(remote.GetAttrAnswer(call.extensionId, GetEventName(call.arguments[1]), true));
      read.Success? && GetCallerNameCall !in old(remote.refusals)
      && GetAttrListValue(read.value).Success? && OWNER in GetAttrListValue(read.value).value
      && GetAttrListValue(read.value).value[OWNER].value == old(remote.callerName)
    ensures r.Failed? && remote.attrs != old(remote.attrs) ==>
      CheckArgumentCount(call, 2).None?
      && var send := SendMessageToCallerCall(DeletedMessage(call.arguments[1]));
      send in old(remote.refusals) && r == Failed(old(remote.refusals)[send].message)
      && remote.attrs == old(remote.attrs) - {AttrKey(call.extensionId, GetEventName(call.arguments[1]))}
    ensures CheckArgumentCount(call, 2).None? ==>
      var eventName := GetEventName(call.arguments[1]);
      var read := old(remote.GetAttrAnswer(call.extensionId, eventName, true));
      (read.Failure? ==> r == Failed(DoesNotExist(eventName)) && remote.attrs == old(remote.attrs))
      && (read.Success? && GetCallerNameCall in old(remote.refusals) ==>
            r == Failed(old(remote.refusals)[GetCallerNameCall].message) && remote.attrs == old(remote.attrs))
      && (read.Success? && GetCallerNameCall !in old(remote.refusals) && GetAttrListValue(read.value).Failure? ==>
            r == Failed(GetAttrListValue(read.value).error.message) && remote.attrs == old(remote.attrs))
      && (read.Success? && GetCallerNameCall !in old(remote.refusals) && GetAttrListValue(read.value).Success? ==>
            (OWNER !in GetAttrListValue(read.value).value ==>
               r == Failed("Event is missing an owner") && remote.attrs == old(remote.attrs))
            && (OWNER in GetAttrListValue(read.value).value
                && GetAttrListValue(read.value).value[OWNER].value != old(remote.callerName) ==>
                  r == Failed("You are not the owner") && remote.attrs == old(remote.attrs))
            && (OWNER in GetAttrListValue(read.value).value
                && GetAttrListValue(read.value).value[OWNER].value == old(remote.callerName)
                && RemoveAttrCall(call.extensionId, eventName, true) in old(remote.refusals) ==>
                  r == Failed(old(remote.refusals)[RemoveAttrCall(call.extensionId, eventName, true)].message)
                  && remote.attrs == old(remote.attrs))
            && (OWNER in GetAttrListValue(read.value).value
                && GetAttrListValue(read.value).value[OWNER].value == old(remote.callerName)
                && RemoveAttrCall(call.extensionId, eventName, true) !in old(remote.refusals) ==>
                  var send := SendMessageToCallerCall(DeletedMessage(call.arguments[1]));
                  remote.attrs == old(remote.attrs) - {AttrKey(call.extensionId, eventName)}
                  && (send !in old(remote.refusals) <==> r.Returned?)))
  {
    var countErr := CheckArgumentCount(call, 2);
    if countErr.Some? {
      return Failed(countErr.value);
    }
    var eventName := GetEventName(call.arguments[1]);
    var read := remote.GetAttr(call.extensionId, eventName, true);
    if read.Failure? {
      return Failed(DoesNotExist(eventName));
    }
    var caller := remote.GetCallerName();
    if caller.Failure? {
      return Failed(caller.error.message);
    }
    var values := GetAttrListValue(read.value);
    if values.Failure? {
      return Failed(values.error.message);
    }
    if OWNER !in values.value {
      return Failed("Event is missing an owner");
    }
    if caller.value != values.value[OWNER].value {
      return Failed("You are not the owner");
    }
    var err := remote.RemoveAttr(call.extensionId, eventName, true);
    if err.Some? {
      return Failed(err.value.message);
    }
    err := remote.SendMessageToCaller(DeletedMessage(call.arguments[1]));
    if err.Some? {
      return Failed(err.value.message);
    }
    return Returned(JString(""));
  }
}
