/**
 * The Go plugin library: the JSON-RPC request handler that every plugin
 * runs (plugin.go) and the calls a plugin makes back into the server
 * (api_methods.go). The server is a `Remote` object holding the attributes
 * it stores, the role table, the caller's name, the calls it refuses, and
 * the log of every call made to it.
 */
module GoApi {
  import opened Base
  import AttrJson

  const ERR_CODE_PARSE_ERROR: int := -32700
  const ERR_CODE_INVALID_REQUEST: int := -32600
  const ERR_CODE_METHOD_NOT_FOUND: int := -32601
  const ERR_CODE_INVALID_PARAMS: int := -32602
  const ERR_CODE_INTERNAL_ERROR: int := -32603

  /** A decoded JSON value, as encoding/json unmarshals into interface{}. */
  datatype Json =
    | JNull
    | JBool(b: bool)
    | JNumber(n: int)
    | JString(s: string)
    | JArray(items: seq<Json>)
    | JObject(fields: map<string, Json>)

  /** What fmt's %T prints for a value json.Unmarshal produced. */
  function GoTypeName(j: Json): string
  {
    match j
    case JNull => "<nil>"
    case JBool(_) => "bool"
    case JNumber(_) => "float64"
    case JString(_) => "string"
    case JArray(_) => "[]interface {}"
    case JObject(_) => "map[string]interface {}"
  }

  /** The JSON kind encoding/json names when it cannot unmarshal into a map. */
  function JsonKindName(j: Json): string
  {
    match j
    case JNull => "null"
    case JBool(_) => "bool"
    case JNumber(_) => "number"
    case JString(_) => "string"
    case JArray(_) => "array"
    case JObject(_) => "object"
  }

  datatype Id = NoId | NumberId(n: int) | StringId(s: string)

  datatype Request = Request(methodName: string, params: Json, id: Id)

  datatype Response =
    | ResultResponse(id: Id, result: Json)
    | ErrorResponse(id: Id, code: int, message: string)

  datatype PluginCall = PluginCall(id: string, methodName: string, extensionId: string, arguments: seq<string>)

  datatype PluginHandler = PluginHandler(methodName: string)

  /**
   * What a subcommand handler gives back: a result (which may fail to
   * marshal), or an error.
   */
  datatype HandlerOutcome = Returned(value: Json) | Unmarshalable | Failed(message: string)

  // ---------------------------------------------------------------------
  // Decoding the plugin call

  /** json.Unmarshal of the params into a map[string]interface{}. */
  function ParamsMap(params: Json): (r: Result<map<string, Json>, string>)
    ensures r.Success? <==> params.JObject? || params.JNull?
  {
    match params
    case JObject(m) => Success(m)
    case JNull => Success(map[])
    case _ => Failure("json: cannot unmarshal " + JsonKindName(params)
                      + " into Go value of type map[string]interface {}")
  }

  /** A missing map key reads as nil. */
  function Param(m: map<string, Json>, key: string): Json
  {
    if key in m then m[key] else JNull
  }

  function ElementError(i: nat, j: Json): string
  {
    "Element " + DecimalString(i) + " in plugin call arguments is not a string: " + GoTypeName(j)
  }

  /** The index of the first element that is not a string. */
  function FirstNonString(items: seq<Json>): (i: nat)
    requires exists k :: 0 <= k < |items| && !items[k].JString?
    ensures i < |items| && !items[i].JString?
    ensures forall k :: 0 <= k < i ==> items[k].JString?
  {
    if !items[0].JString? then 0
    else
      assert exists k :: 0 <= k < |items[1..]| && !items[1..][k].JString? by {
        var k :| 0 <= k < |items| && !items[k].JString?;
        assert items[1..][k - 1] == items[k];
      }
      1 + FirstNonString(items[1..])
  }

  function Strings(items: seq<Json>): (r: seq<string>)
    requires forall k :: 0 <= k < |items| ==> items[k].JString?
    ensures |r| == |items|
    ensures forall k :: 0 <= k < |items| ==> r[k] == items[k].s
  {
    if |items| == 0 then [] else [items[0].s] + Strings(items[1..])
  }

  /** The argument list: every element must be a string. */
  function StringArguments(items: seq<Json>): (r: Result<seq<string>, string>)
  {
    if forall k :: 0 <= k < |items| ==> items[k].JString? then Success(Strings(items))
    else
      var i := FirstNonString(items);
      Failure(ElementError(i, items[i]))
  }

  /** The append loop of newPluginCall, checked against StringArguments. */
  method CollectArguments(items: seq<Json>) returns (r: Result<seq<string>, string>)
    ensures r == StringArguments(items)
  {
    var args: seq<string> := [];
    var i := 0;
    while i < |items|
      invariant 0 <= i <= |items|
      invariant forall k :: 0 <= k < i ==> items[k].JString?
      invariant args == Strings(items[..i])
    {
      if !items[i].JString? {
        assert FirstNonString(items) == i;
        return Failure(ElementError(i, items[i]));
      }
      assert items[..i + 1] == items[..i] + [items[i]];
      StringsAppend(items[..i], items[i]);
      args := args + [items[i].s];
      i := i + 1;
    }
    assert items[..i] == items;
    return Success(args);
  }

  lemma {:induction false} StringsAppend(items: seq<Json>, j: Json)
    requires forall k :: 0 <= k < |items| ==> items[k].JString?
    requires j.JString?
    ensures Strings(items + [j]) == Strings(items) + [j.s]
    decreases |items|
  {
    if |items| == 0 {
      assert items + [j] == [j];
    } else {
      assert (items + [j])[1..] == items[1..] + [j];
      StringsAppend(items[1..], j);
    }
  }

  /**
   * newPluginCall: the call ID and extension ID must be strings and the
   * arguments a list of strings.
   */
  function NewPluginCall(req: Request): (r: Result<PluginCall, string>)
  {
    match ParamsMap(req.params)
    case Failure(e) => Failure(e)
    case Success(m) =>
      if !Param(m, "_plugin_call_id").JString? then Failure("Plugin call ID not a string")
      else if !Param(m, "_extension_id").JString? then Failure("Extension ID not a string")
      else
        match Param(m, "_plugin_call_arguments")
        case JArray(items) =>
          (match StringArguments(items)
           case Failure(e) => Failure(e)
           case Success(args) =>
             Success(PluginCall(Param(m, "_plugin_call_id").s, req.methodName,
                                Param(m, "_extension_id").s, args)))
        case other => Failure("Plugin call arguments not a string list: " + GoTypeName(other))
  }

  /** A call decodes exactly when its three parameters have the right shapes. */
  lemma NewPluginCallShape(req: Request)
    ensures NewPluginCall(req).Success? <==>
      (req.params.JObject? || req.params.JNull?) &&
      var m := if req.params.JObject? then req.params.fields else map[];
      Param(m, "_plugin_call_id").JString? && Param(m, "_extension_id").JString?
      && Param(m, "_plugin_call_arguments").JArray?
      && (forall k :: 0 <= k < |Param(m, "_plugin_call_arguments").items| ==>
            Param(m, "_plugin_call_arguments").items[k].JString?)
    ensures NewPluginCall(req).Success? ==>
      var m := if req.params.JObject? then req.params.fields else map[];
      var call := NewPluginCall(req).value;
      call.id == Param(m, "_plugin_call_id").s && call.methodName == req.methodName
      && call.extensionId == Param(m, "_extension_id").s
      && |call.arguments| == |Param(m, "_plugin_call_arguments").items|
      && (forall k :: 0 <= k < |call.arguments| ==>
            JString(call.arguments[k]) == Param(m, "_plugin_call_arguments").items[k])
  {
  }

  function CheckArgumentCount(call: PluginCall, expected: int): (err: Option<string>)
    ensures err.None? <==> |call.arguments| == expected
  {
    if |call.arguments| != expected then
      Some("Expected " + DecimalString(expected) + " plugin call arguments, got "
           + DecimalString(|call.arguments|))
    else None
  }

  function CheckArgumentCountAtLeast(call: PluginCall, expected: int): (err: Option<string>)
    ensures err.None? <==> |call.arguments| >= expected
  {
    if |call.arguments| < expected then
      Some("Expected at least " + DecimalString(expected) + " plugin call arguments, got "
           + DecimalString(|call.arguments|))
    else None
  }

  // ---------------------------------------------------------------------
  // The request handler

  /**
   * PluginHandler.Handle. `dispatch` is the plugin's subcommand dispatcher
   * together with the handler it picks: None when it picks none, otherwise
   * what that handler gives back.
   */
  function Handle(h: PluginHandler, req: Request, dispatch: PluginCall -> Option<HandlerOutcome>): (r: Response)
    ensures r.id == req.id
    ensures req.methodName != h.methodName ==>
      r == ErrorResponse(req.id, ERR_CODE_METHOD_NOT_FOUND, "Unrecognized method " + req.methodName)
    ensures req.methodName == h.methodName && NewPluginCall(req).Failure? ==>
      r == ErrorResponse(req.id, ERR_CODE_INVALID_PARAMS,
                         "Invalid plugin call: " + NewPluginCall(req).error)
  {
    if req.methodName != h.methodName then
      ErrorResponse(req.id, ERR_CODE_METHOD_NOT_FOUND, "Unrecognized method " + req.methodName)
    else
      match NewPluginCall(req)
      case Failure(e) => ErrorResponse(req.id, ERR_CODE_INVALID_PARAMS, "Invalid plugin call: " + e)
      case Success(call) =>
        if |call.arguments| < 1 then
          ErrorResponse(req.id, ERR_CODE_INVALID_PARAMS, "At least one plugin call argument is required")
        else
          match dispatch(call)
          case None =>
            ErrorResponse(req.id, ERR_CODE_INVALID_PARAMS, "Unrecognized subcommand " + call.arguments[0])
          case Some(Returned(v)) => ResultResponse(req.id, v)
          case Some(Unmarshalable) =>
            ErrorResponse(req.id, ERR_CODE_INTERNAL_ERROR, "Failed to marshal result")
          case Some(Failed(msg)) => ErrorResponse(req.id, ERR_CODE_INTERNAL_ERROR, msg)
  }

  /**
   * Handle succeeds exactly when the method matches, the call decodes with
   * at least one argument, a handler is found and it returns a result; the
   * result is then the handler's, and every error code is one of -32601,
   * -32602 (bad call) and -32603 (handler failure).
   */
  lemma HandleOutcomes(h: PluginHandler, req: Request, dispatch: PluginCall -> Option<HandlerOutcome>)
    ensures var r := Handle(h, req, dispatch);
      r.ResultResponse? <==>
        req.methodName == h.methodName && NewPluginCall(req).Success?
        && |NewPluginCall(req).value.arguments| >= 1
        && dispatch(NewPluginCall(req).value).Some?
        && dispatch(NewPluginCall(req).value).value.Returned?
    ensures var r := Handle(h, req, dispatch);
      r.ResultResponse? ==> r.result == dispatch(NewPluginCall(req).value).value.value
    ensures var r := Handle(h, req, dispatch);
      r.ErrorResponse? ==>
        (r.code == ERR_CODE_METHOD_NOT_FOUND <==> req.methodName != h.methodName)
        && (r.code == ERR_CODE_INVALID_PARAMS <==>
              req.methodName == h.methodName &&
              (NewPluginCall(req).Failure? || |NewPluginCall(req).value.arguments| < 1
               || dispatch(NewPluginCall(req).value).None?))
        && (r.code == ERR_CODE_INTERNAL_ERROR <==>
              req.methodName == h.methodName && NewPluginCall(req).Success?
              && |NewPluginCall(req).value.arguments| >= 1
              && dispatch(NewPluginCall(req).value).Some?)
    ensures var r := Handle(h, req, dispatch);
      (r.ErrorResponse? && r.code == ERR_CODE_INTERNAL_ERROR
       && dispatch(NewPluginCall(req).value).value.Failed?) ==>
        r.message == dispatch(NewPluginCall(req).value).value.message
  {
  }

  // ---------------------------------------------------------------------
  // Attributes as the plugins see them

  type Attr = AttrJson.Entry

  const ATTRLIST: string := "ATTRLIST"
  /** Spelled as a concatenation, like the plugins' attribute names, so that its JSON escaping is not evaluated eagerly. */
  const STRING: string := "STRIN" + "G"

  function NewStringAttr(name: string, value: string): (a: Attr)
    ensures a.name == name && a.value == value && a.kind == STRING
  {
    AttrJson.Entry(name, value, STRING)
  }

  function NewAttrListAttr(name: string, list: seq<Attr>): (a: Attr)
    ensures a.name == name && a.kind == ATTRLIST
  {
    AttrJson.Entry(name, AttrJson.EncodeList(list), ATTRLIST)
  }

  /** An attribute-list attribute reads back as the list it was made from. */
  lemma NewAttrListAttrReadsBack(name: string, list: seq<Attr>)
    ensures AttrJson.DecodeList(NewAttrListAttr(name, list).value) == Some(list)
  {
    AttrJson.ListRoundTrip(list);
  }

  /** Errors a plugin sees: the server's not-found answer, another server error, or a local one. */
  datatype Error = NotFound(message: string) | Refused(code: int, message: string) | Plain(message: string)

  /** A list keyed by name; a later entry replaces an earlier one of the same name. */
  function MapOfList(list: seq<Attr>): (m: map<string, Attr>)
    ensures forall n :: n in m <==> exists k :: 0 <= k < |list| && list[k].name == n
    ensures forall n :: n in m ==> m[n].name == n
  {
    if |list| == 0 then map[]
    else
      var last := list[|list| - 1];
      var m0 := MapOfList(list[..|list| - 1]);
      assert forall k :: 0 <= k < |list| - 1 ==> list[..|list| - 1][k] == list[k];
      m0[last.name := last]
  }

  function GetAttrListValue(a: Attr): (r: Result<map<string, Attr>, Error>)
    ensures r.Success? <==> AttrJson.DecodeList(a.value).Some?
  {
    match AttrJson.DecodeList(a.value)
    case None => Failure(Plain("Attribute " + a.name + " does not hold an attribute list"))
    case Some(list) => Success(MapOfList(list))
  }

  function FindFirst(list: seq<Attr>, name: string): (r: Option<Attr>)
    ensures r.Some? <==> exists k :: 0 <= k < |list| && list[k].name == name
    ensures r.Some? ==> r.value.name == name
    ensures r.Some? ==> exists k :: 0 <= k < |list| && list[k] == r.value &&
                          forall j :: 0 <= j < k ==> list[j].name != name
  {
    if |list| == 0 then None
    else if list[0].name == name then Some(list[0])
    else
      var r := FindFirst(list[1..], name);
      assert forall k :: 1 <= k < |list| ==> list[1..][k - 1] == list[k];
      r
  }

  function GetAttrInAttrListValue(a: Attr, name: string): (r: Result<Attr, Error>)
    ensures r.Success? ==> r.value.name == name
  {
    match AttrJson.DecodeList(a.value)
    case None => Failure(Plain("Attribute " + a.name + " does not hold an attribute list"))
    case Some(list) =>
      match FindFirst(list, name)
      case None => Failure(Plain("Attribute " + name + " not found in " + a.name))
      case Some(sub) => Success(sub)
  }

  // ---------------------------------------------------------------------
  // The server

  datatype AttrKey = AttrKey(thingId: string, name: string)

  datatype RemoteCall =
    | GetAttrCall(thingId: string, name: string, asExtension: bool)
    | SetAttrCall(thingId: string, name: string, value: string, kind: string, asExtension: bool)
    | RemoveAttrCall(thingId: string, name: string, asExtension: bool)
    | GetAttrNamesCall(thingId: string, asExtension: bool)
    | GetCallerNameCall
    | GetRolesCall(playerName: string, asExtension: bool)
    | SendMessageToCallerCall(message: string)

  /**
   * getAttr's answer from a server holding `attrs` and refusing
   * `refusals`: a refusal first, then the attribute, else not found.
   */
  function AttrAnswer(attrs: map<AttrKey, Attr>, refusals: map<RemoteCall, Error>,
                      thingId: string, name: string, asExtension: bool): Result<Attr, Error>
  {
    var c := GetAttrCall(thingId, name, asExtension);
    if c in refusals then Failure(refusals[c])
    else if AttrKey(thingId, name) in attrs then Success(attrs[AttrKey(thingId, name)])
    else Failure(NotFound("Attribute " + name + " not found"))
  }

  /** The answer of a call that returns only an error: its refusal, if any. */
  function Refusal(refusals: map<RemoteCall, Error>, c: RemoteCall): Option<Error>
  {
    if c in refusals then Some(refusals[c]) else None
  }

  /** The call writes an attribute-list attribute named `name` on `thingId`. */
  predicate WritesList(c: RemoteCall, thingId: string, name: string, asExtension: bool)
  {
    c.SetAttrCall? && c.thingId == thingId && c.name == name && c.kind == ATTRLIST && c.asExtension == asExtension
  }

  /** A handler that ends by returning an error: "" when there is none. */
  function ErrorOutcome(err: Option<Error>): HandlerOutcome
  {
    if err.None? then Returned(JString("")) else Failed(err.value.message)
  }

  class Remote {
    /** The attributes the server holds, by thing and name. */
    var attrs: map<AttrKey, Attr>
    /** Each player's roles. */
    var roles: map<string, seq<string>>
    var callerName: string
    /** The calls the server refuses (for want of permission, say), and its answer. */
    var refusals: map<RemoteCall, Error>
    /** Every call made so far, in order. */
    var calls: seq<RemoteCall>

    ghost predicate Valid()
      reads this
    {
      (forall k :: k in attrs ==> attrs[k].name == k.name)
      && (forall c :: c in refusals ==> !refusals[c].Plain?)
    }

    constructor(attrs: map<AttrKey, Attr>, roles: map<string, seq<string>>, callerName: string,
                refusals: map<RemoteCall, Error>)
      requires forall k :: k in attrs ==> attrs[k].name == k.name
      requires forall c :: c in refusals ==> !refusals[c].Plain?
      ensures Valid()
      ensures this.attrs == attrs && this.roles == roles && this.callerName == callerName
      ensures this.refusals == refusals && calls == []
    {
      this.attrs := attrs;
      this.roles := roles;
      this.callerName := callerName;
      this.refusals := refusals;
      calls := [];
    }

    /** The server's answer to getAttr. */
    function GetAttrAnswer(thingId: string, name: string, asExtension: bool): (r: Result<Attr, Error>)
      reads this
      ensures r.Failure? && !r.error.NotFound? ==> GetAttrCall(thingId, name, asExtension) in refusals
    {
      AttrAnswer(attrs, refusals, thingId, name, asExtension)
    }

    function RolesAnswer(playerName: string, asExtension: bool): Result<seq<string>, Error>
      reads this
    {
      var c := GetRolesCall(playerName, asExtension);
      if c in refusals then Failure(refusals[c])
      else if playerName in roles then Success(roles[playerName])
      else Failure(NotFound("Player " + playerName + " not found"))
    }

    method GetAttr(thingId: string, name: string, asExtension: bool) returns (r: Result<Attr, Error>)
      requires Valid()
      modifies this
      ensures Valid()
      ensures calls == old(calls) + [GetAttrCall(thingId, name, asExtension)]
      ensures attrs == old(attrs) && roles == old(roles) && refusals == old(refusals)
      ensures callerName == old(callerName)
      ensures r == old(GetAttrAnswer(thingId, name, asExtension))
      ensures r.Success? ==> r.value.name == name
    {
      r := GetAttrAnswer(thingId, name, asExtension);
      calls := calls + [GetAttrCall(thingId, name, asExtension)];
    }

    /** HasAttr: not found is (false, nil); any other error is passed on. */
    method HasAttr(thingId: string, name: string, asExtension: bool) returns (r: Result<bool, Error>)
      requires Valid()
      modifies this
      ensures Valid()
      ensures calls == old(calls) + [GetAttrCall(thingId, name, asExtension)]
      ensures attrs == old(attrs) && roles == old(roles) && refusals == old(refusals)
      ensures callerName == old(callerName)
      ensures r == HasAttrAnswer(old(GetAttrAnswer(thingId, name, asExtension)))
    {
      var a := GetAttr(thingId, name, asExtension);
      r := HasAttrAnswer(a);
    }

    /** setAttr carries the attribute's name, value and type as they are. */
    method SetAttr(thingId: string, a: Attr, asExtension: bool) returns (err: Option<Error>)
      requires Valid()
      modifies this
      ensures Valid()
      ensures calls == old(calls) + [SetAttrCall(thingId, a.name, a.value, a.kind, asExtension)]
      ensures roles == old(roles) && refusals == old(refusals) && callerName == old(callerName)
      ensures var c := SetAttrCall(thingId, a.name, a.value, a.kind, asExtension);
        if c in refusals then err == Some(refusals[c]) && attrs == old(attrs)
        else err.None? && attrs == old(attrs)[AttrKey(thingId, a.name) := a]
    {
      var c := SetAttrCall(thingId, a.name, a.value, a.kind, asExtension);
      calls := calls + [c];
      if c in refusals {
        err := Some(refusals[c]);
      } else {
        attrs := attrs[AttrKey(thingId, a.name) := a];
        err := None;
      }
    }

    method RemoveAttr(thingId: string, name: string, asExtension: bool) returns (err: Option<Error>)
      requires Valid()
      modifies this
      ensures Valid()
      ensures calls == old(calls) + [RemoveAttrCall(thingId, name, asExtension)]
      ensures roles == old(roles) && refusals == old(refusals) && callerName == old(callerName)
      ensures var c := RemoveAttrCall(thingId, name, asExtension);
        if c in refusals then err == Some(refusals[c]) && attrs == old(attrs)
        else err.None? && attrs == old(attrs) - {AttrKey(thingId, name)}
    {
      var c := RemoveAttrCall(thingId, name, asExtension);
      calls := calls + [c];
      if c in refusals {
        err := Some(refusals[c]);
      } else {
        attrs := attrs - {AttrKey(thingId, name)};
        err := None;
      }
    }

    /** getAttrNames: the names of the thing's attributes, each once, in the server's order. */
    method GetAttrNames(thingId: string, asExtension: bool) returns (r: Result<seq<string>, Error>)
      requires Valid()
      modifies this
      ensures Valid()
      ensures calls == old(calls) + [GetAttrNamesCall(thingId, asExtension)]
      ensures attrs == old(attrs) && roles == old(roles) && refusals == old(refusals)
      ensures callerName == old(callerName)
      ensures GetAttrNamesCall(thingId, asExtension) in refusals ==>
        r == Failure(refusals[GetAttrNamesCall(thingId, asExtension)])
      ensures GetAttrNamesCall(thingId, asExtension) !in refusals ==> r.Success?
      ensures r.Success? ==>
        (forall n :: n in r.value <==> AttrKey(thingId, n) in attrs)
        && (forall i, j :: 0 <= i < j < |r.value| ==> r.value[i] != r.value[j])
    {
      var c := GetAttrNamesCall(thingId, asExtension);
      calls := calls + [c];
      if c in refusals {
        return Failure(refusals[c]);
      }
      var remaining := set k | k in attrs && k.thingId == thingId :: k.name;
      var names: seq<string> := [];
      while remaining != {}
        invariant forall n :: n in names || n in remaining <==> AttrKey(thingId, n) in attrs
        invariant forall n :: n in names ==> n !in remaining
        invariant forall i, j :: 0 <= i < j < |names| ==> names[i] != names[j]
        decreases remaining
      {
        var n :| n in remaining;
        names := names + [n];
        remaining := remaining - {n};
      }
      return Success(names);
    }

    method GetCallerName() returns (r: Result<string, Error>)
      requires Valid()
      modifies this
      ensures Valid()
      ensures calls == old(calls) + [GetCallerNameCall]
      ensures attrs == old(attrs) && roles == old(roles) && refusals == old(refusals)
      ensures callerName == old(callerName)
      ensures r == if GetCallerNameCall in refusals then Failure(refusals[GetCallerNameCall])
                   else Success(callerName)
    {
      calls := calls + [GetCallerNameCall];
      if GetCallerNameCall in refusals {
        r := Failure(refusals[GetCallerNameCall]);
      } else {
        r := Success(callerName);
      }
    }

    method GetRoles(playerName: string, asExtension: bool) returns (r: Result<seq<string>, Error>)
      requires Valid()
      modifies this
      ensures Valid()
      ensures calls == old(calls) + [GetRolesCall(playerName, asExtension)]
      ensures attrs == old(attrs) && roles == old(roles) && refusals == old(refusals)
      ensures callerName == old(callerName)
      ensures r == old(RolesAnswer(playerName, asExtension))
    {
      r := RolesAnswer(playerName, asExtension);
      calls := calls + [GetRolesCall(playerName, asExtension)];
    }

    /** sendMessageToCaller: the message goes out unless the server refuses it; nothing stored changes. */
    method SendMessageToCaller(message: string) returns (err: Option<Error>)
      requires Valid()
      modifies this
      ensures Valid()
      ensures calls == old(calls) + [SendMessageToCallerCall(message)]
      ensures attrs == old(attrs) && roles == old(roles) && refusals == old(refusals)
      ensures callerName == old(callerName)
      ensures var c := SendMessageToCallerCall(message);
        err == if c in refusals then Some(refusals[c]) else None
    {
      var c := SendMessageToCallerCall(message);
      calls := calls + [c];
      err := if c in refusals then Some(refusals[c]) else None;
    }

    /**
     * SetAttrInAttrListValue: read the list attribute, replace or add the
     * sub-attribute by name, and write the list back, with the same
     * asExtension flag on the read and the write. A failed read or decode
     * writes nothing.
     */
    method SetAttrInAttrListValue(thingId: string, name: string, subAttr: Attr, asExtension: bool)
      returns (err: Option<Error>)
      requires Valid()
      modifies this
      ensures Valid()
      ensures roles == old(roles) && refusals == old(refusals) && callerName == old(callerName)
      ensures |calls| > |old(calls)| && calls[..|old(calls)|] == old(calls)
      ensures calls[|old(calls)|] == GetAttrCall(thingId, name, asExtension)
      ensures var read := old(GetAttrAnswer(thingId, name, asExtension));
        if read.Failure? then err == Some(read.error) && calls == old(calls) + [calls[|old(calls)|]]
                              && attrs == old(attrs)
        else if GetAttrListValue(read.value).Failure? then
          err == Some(GetAttrListValue(read.value).error)
          && calls == old(calls) + [calls[|old(calls)|]] && attrs == old(attrs)
        else
          |calls| == |old(calls)| + 2
          && calls[|old(calls)| + 1].SetAttrCall?
          && calls[|old(calls)| + 1].thingId == thingId
          && calls[|old(calls)| + 1].name == name
          && calls[|old(calls)| + 1].kind == ATTRLIST
          && calls[|old(calls)| + 1].asExtension == asExtension
          && AttrJson.DecodeList(calls[|old(calls)| + 1].value).Some?
          && MapOfList(AttrJson.DecodeList(calls[|old(calls)| + 1].value).value)
             == GetAttrListValue(read.value).value[subAttr.name := subAttr]
          && (err.None? <==> calls[|old(calls)| + 1] !in refusals)
          && err == Refusal(refusals, calls[|old(calls)| + 1])
          && (err.None? ==> attrs == old(attrs)[AttrKey(thingId, name) :=
                AttrJson.Entry(name, calls[|old(calls)| + 1].value, ATTRLIST)])
          && (err.Some? ==> attrs == old(attrs))
    {
      var a := GetAttr(thingId, name, asExtension);
      if a.Failure? {
        return Some(a.error);
      }
      var decoded := GetAttrListValue(a.value);
      if decoded.Failure? {
        return Some(decoded.error);
      }
      var attrList := decoded.value;
      attrList := attrList[subAttr.name := subAttr];
      var list := ListOfMap(attrList);
      var newa := NewAttrListAttr(name, list);
      NewAttrListAttrReadsBack(name, list);
      err := SetAttr(thingId, newa, asExtension);
    }
  }

  function HasAttrAnswer(read: Result<Attr, Error>): (r: Result<bool, Error>)
    ensures r == Success(true) <==> read.Success?
    ensures r == Success(false) <==> read.Failure? && read.error.NotFound?
    ensures r.Failure? <==> read.Failure? && !read.error.NotFound?
    ensures r.Failure? ==> r.error == read.error
  {
    match read
    case Success(_) => Success(true)
    case Failure(NotFound(_)) => Success(false)
    case Failure(e) => Failure(e)
  }

  /**
   * NewAttrListAttrFromMap's list: every value of the map once, in the
   * map's iteration order (left open).
   */
  method ListOfMap(m: map<string, Attr>) returns (list: seq<Attr>)
    requires forall n :: n in m ==> m[n].name == n
    ensures MapOfList(list) == m
    ensures |list| == |m.Keys|
  {
    list := [];
    var remaining := m.Keys;
    while remaining != {}
      invariant remaining <= m.Keys
      invariant MapOfList(list) == m - remaining
      invariant |list| + |remaining| == |m.Keys|
      decreases remaining
    {
      var n :| n in remaining;
      MapOfListSnoc(list, m[n]);
      RestoreKey(m, remaining, n);
      list := list + [m[n]];
      remaining := remaining - {n};
    }
    assert m - {} == m;
  }

  lemma RestoreKey(m: map<string, Attr>, remaining: set<string>, n: string)
    requires n in remaining && n in m
    ensures (m - remaining)[n := m[n]] == m - (remaining - {n})
  {
  }

  lemma MapOfListSnoc(list: seq<Attr>, a: Attr)
    ensures MapOfList(list + [a]) == MapOfList(list)[a.name := a]
  {
    assert (list + [a])[..|list|] == list;
  }
}
