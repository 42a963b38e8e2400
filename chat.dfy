/**
 * The chat plugin (plugins/chat/main.go): channels stored as attribute-list
 * attributes on the plugin's extension, each holding five comma-separated
 * name lists, and the access rules for seeing and joining them.
 */
module Chat {
  import opened Base
  import AttrJson
  import opened GoApi

  const GOD: string := "GOD"

  /*
   * The names below are stored JSON-escaped inside attribute lists. Each is
   * spelled as a concatenation so that the verifier treats it as a value
   * rather than evaluating its escaping character by character.
   */
  const MEMBERS: string := "member" + "s"
  const VIS_ROLES: string := "visRole" + "s"
  const JOIN_ROLES: string := "joinRole" + "s"
  const VIS_PLAYERS: string := "visPlayer" + "s"
  const JOIN_PLAYERS: string := "joinPlayer" + "s"

  // ---------------------------------------------------------------------
  // The comma-list field codec

  /** A stored list field: "" is the empty list, anything else is split on ','. */
  function DecodeField(v: string): (r: seq<string>)
    ensures v == "" ==> r == []
    ensures v != "" ==> r == Split(v, ',')
  {
    if v == "" then [] else Split(v, ',')
  }

  function EncodeField(xs: seq<string>): string
  {
    Join(xs, ',')
  }

  /** Decoding a stored field and writing it back reproduces the text. */
  lemma FieldTextRoundTrip(v: string)
    ensures EncodeField(DecodeField(v)) == v
  {
    if v != "" {
      JoinSplit(v, ',');
    }
  }

  /**
   * Writing a list and reading it back gives the list, unless an element
   * holds a comma, or the list is the single empty name (which reads back
   * as no names at all).
   */
  lemma FieldListRoundTrip(xs: seq<string>)
    requires forall i :: 0 <= i < |xs| ==> ',' !in xs[i]
    ensures DecodeField(EncodeField(xs)) == xs <==> xs != [""]
  {
    if |xs| == 0 {
    } else if xs == [""] {
    } else {
      SplitJoin(xs, ',');
    }
  }

  // ---------------------------------------------------------------------
  // Access rules (maySee and mayJoin share one shape)

  function Contains(xs: seq<string>, x: string): (r: bool)
    ensures r <==> x in xs
  {
    if |xs| == 0 then false else xs[0] == x || Contains(xs[1..], x)
  }

  /** The nested role scan: does any of the caller's roles appear in the channel's list? */
  function AnyRoleListed(roles: seq<string>, channelRoles: seq<string>): bool
  {
    if |roles| == 0 then false
    else Contains(channelRoles, roles[0]) || AnyRoleListed(roles[1..], channelRoles)
  }

  /**
   * maySee (with visRoles/visPlayers) and mayJoin (with joinRoles/joinPlayers).
   * `roles` is the answer the role lookup gives for the caller; it is
   * consulted only when the channel lists roles.
   */
  function Access(listedRoles: seq<string>, listedPlayers: seq<string>, caller: string,
                  roles: Result<seq<string>, Error>): bool
  {
    if caller == GOD then true
    else if |listedRoles| > 0 && (roles.Failure? || !AnyRoleListed(roles.value, listedRoles)) then false
    else if |listedPlayers| > 0 && !Contains(listedPlayers, caller) then false
    else true
  }

  lemma {:induction false} AnyRoleListedMeaning(roles: seq<string>, channelRoles: seq<string>)
    ensures AnyRoleListed(roles, channelRoles) <==> exists r :: r in roles && r in channelRoles
  {
    if |roles| > 0 {
      AnyRoleListedMeaning(roles[1..], channelRoles);
      assert forall r :: r in roles <==> r == roles[0] || r in roles[1..];
    }
  }

  /**
   * GOD always passes. Otherwise a role list and a player list restrict
   * conjunctively: with roles listed, the lookup must succeed and share a
   * role with the list; with players listed, the caller must be one; with
   * neither, everyone passes.
   */
  lemma AccessMeaning(listedRoles: seq<string>, listedPlayers: seq<string>, caller: string,
                      roles: Result<seq<string>, Error>)
    ensures Access(listedRoles, listedPlayers, caller, roles) <==>
      caller == GOD ||
      ((|listedRoles| == 0 || (roles.Success? && exists r :: r in roles.value && r in listedRoles))
       && (|listedPlayers| == 0 || caller in listedPlayers))
  {
    if roles.Success? {
      AnyRoleListedMeaning(roles.value, listedRoles);
    }
  }

  /** A failed role lookup denies everyone but GOD when roles are listed. */
  lemma RoleLookupFailureDenies(listedRoles: seq<string>, listedPlayers: seq<string>, caller: string,
                                e: Error)
    requires |listedRoles| > 0 && caller != GOD
    ensures !Access(listedRoles, listedPlayers, caller, Failure(e))
  {
  }

  // ---------------------------------------------------------------------
  // Membership edits

  /** The list without the first occurrence of x (unchanged when x is absent). */
  function RemoveFirst(xs: seq<string>, x: string): (r: seq<string>)
  {
    if |xs| == 0 then []
    else if xs[0] == x then xs[1..]
    else [xs[0]] + RemoveFirst(xs[1..], x)
  }

  function IndexOf(xs: seq<string>, x: string): (i: nat)
    requires x in xs
    ensures i < |xs| && xs[i] == x && x !in xs[..i]
  {
    if xs[0] == x then 0
    else
      var j := IndexOf(xs[1..], x);
      assert xs[..j + 1] == [xs[0]] + xs[1..][..j];
      1 + j
  }

  /**
   * Removing a name drops exactly its first occurrence and keeps everyone
   * else in order; an absent name changes nothing.
   */
  lemma {:induction false} RemoveFirstMeaning(xs: seq<string>, x: string)
    ensures x !in xs ==> RemoveFirst(xs, x) == xs
    ensures x in xs ==> RemoveFirst(xs, x) == xs[..IndexOf(xs, x)] + xs[IndexOf(xs, x) + 1..]
  {
    if |xs| > 0 && xs[0] != x {
      RemoveFirstMeaning(xs[1..], x);
      if x in xs {
        var j := IndexOf(xs[1..], x);
        assert xs[1..][..j] + xs[1..][j + 1..] == xs[1..j + 1] + xs[j + 2..];
        assert [xs[0]] + xs[1..j + 1] == xs[..j + 1];
      } else {
        assert [xs[0]] + xs[1..] == xs;
      }
    }
  }

  // ---------------------------------------------------------------------
  // The channel

  /** Reads one list field out of a stored channel attribute. */
  function FieldOf(a: Attr, field: string): (r: Result<seq<string>, Error>)
    ensures r.Success? <==> GetAttrInAttrListValue(a, field).Success?
  {
    match GetAttrInAttrListValue(a, field)
    case Failure(e) => Failure(e)
    case Success(sub) => Success(DecodeField(sub.value))
  }

  predicate AllFieldsPresent(a: Attr)
  {
    FieldOf(a, MEMBERS).Success? && FieldOf(a, VIS_ROLES).Success? && FieldOf(a, JOIN_ROLES).Success?
    && FieldOf(a, VIS_PLAYERS).Success? && FieldOf(a, JOIN_PLAYERS).Success?
  }

  /** The first missing field's error, in the order fillFromAttr reads them. */
  function FirstFieldError(a: Attr): Error
    requires !AllFieldsPresent(a)
  {
    if FieldOf(a, MEMBERS).Failure? then FieldOf(a, MEMBERS).error
    else if FieldOf(a, VIS_ROLES).Failure? then FieldOf(a, VIS_ROLES).error
    else if FieldOf(a, JOIN_ROLES).Failure? then FieldOf(a, JOIN_ROLES).error
    else if FieldOf(a, VIS_PLAYERS).Failure? then FieldOf(a, VIS_PLAYERS).error
    else FieldOf(a, JOIN_PLAYERS).error
  }

  /** One string attribute per field name, holding that field's list comma-joined. */
  function FieldAttrs(names: seq<string>, lists: seq<seq<string>>): (r: seq<Attr>)
    requires |names| == |lists|
    ensures |r| == |names|
    ensures forall i :: 0 <= i < |r| ==> r[i] == NewStringAttr(names[i], EncodeField(lists[i]))
  {
    if |names| == 0 then []
    else [NewStringAttr(names[0], EncodeField(lists[0]))] + FieldAttrs(names[1..], lists[1..])
  }

  /** toAttr: the five fields, comma-joined, always in this order. */
  function ChannelAttr(name: string, members: seq<string>, visRoles: seq<string>, joinRoles: seq<string>,
                       visPlayers: seq<string>, joinPlayers: seq<string>): (a: Attr)
    ensures a.name == name && a.kind == ATTRLIST
  {
    NewAttrListAttr(name, FieldAttrs([MEMBERS, VIS_ROLES, JOIN_ROLES, VIS_PLAYERS, JOIN_PLAYERS],
                                     [members, visRoles, joinRoles, visPlayers, joinPlayers]))
  }

  /** The stored channel reads back as its five fields, in order. */
  lemma ChannelAttrFields(name: string, members: seq<string>, visRoles: seq<string>, joinRoles: seq<string>,
                          visPlayers: seq<string>, joinPlayers: seq<string>)
    ensures var fields := AttrJson.DecodeList(ChannelAttr(name, members, visRoles, joinRoles, visPlayers, joinPlayers).value);
      fields.Some? && |fields.value| == 5
      && fields.value[0] == NewStringAttr(MEMBERS, EncodeField(members))
      && fields.value[1] == NewStringAttr(VIS_ROLES, EncodeField(visRoles))
      && fields.value[2] == NewStringAttr(JOIN_ROLES, EncodeField(joinRoles))
      && fields.value[3] == NewStringAttr(VIS_PLAYERS, EncodeField(visPlayers))
      && fields.value[4] == NewStringAttr(JOIN_PLAYERS, EncodeField(joinPlayers))
  {
    var names := [MEMBERS, VIS_ROLES, JOIN_ROLES, VIS_PLAYERS, JOIN_PLAYERS];
    var lists := [members, visRoles, joinRoles, visPlayers, joinPlayers];
    NewAttrListAttrReadsBack(name, FieldAttrs(names, lists));
  }

  class Channel {
    var name: string
    var members: seq<string>
    var visRoles: seq<string>
    var joinRoles: seq<string>
    var visPlayers: seq<string>
    var joinPlayers: seq<string>

    constructor(name: string)
      ensures this.name == name
      ensures members == [] && visRoles == [] && joinRoles == [] && visPlayers == [] && joinPlayers == []
    {
      this.name := name;
      members := [];
      visRoles := [];
      joinRoles := [];
      visPlayers := [];
      joinPlayers := [];
    }

    /**
     * fillFromAttr: each field present and non-empty replaces the list;
     * the first missing field stops the fill with its error, leaving the
     * fields read before it filled.
     */
    method FillFromAttr(a: Attr) returns (err: Option<Error>)
      modifies this
      ensures name == old(name)
      ensures err.None? <==> AllFieldsPresent(a)
      ensures err.Some? ==> err.value == FirstFieldError(a)
      ensures FieldOf(a, MEMBERS).Success? ==> members == Filled(old(members), FieldOf(a, MEMBERS).value)
      ensures FieldOf(a, MEMBERS).Failure? ==> members == old(members)
      ensures AllFieldsPresent(a) ==>
        visRoles == Filled(old(visRoles), FieldOf(a, VIS_ROLES).value)
        && joinRoles == Filled(old(joinRoles), FieldOf(a, JOIN_ROLES).value)
        && visPlayers == Filled(old(visPlayers), FieldOf(a, VIS_PLAYERS).value)
        && joinPlayers == Filled(old(joinPlayers), FieldOf(a, JOIN_PLAYERS).value)
    {
      var f := FieldOf(a, MEMBERS);
      if f.Failure? { return Some(f.error); }
      members := Filled(members, f.value);
      err := FillAccessFromAttr(a);
    }

    /** The four access fields of fillFromAttr, read after the members. */
    method FillAccessFromAttr(a: Attr) returns (err: Option<Error>)
      requires FieldOf(a, MEMBERS).Success?
      modifies this
      ensures name == old(name) && members == old(members)
      ensures err.None? <==> AllFieldsPresent(a)
      ensures err.Some? ==> err.value == FirstFieldError(a)
      ensures AllFieldsPresent(a) ==>
        visRoles == Filled(old(visRoles), FieldOf(a, VIS_ROLES).value)
        && joinRoles == Filled(old(joinRoles), FieldOf(a, JOIN_ROLES).value)
        && visPlayers == Filled(old(visPlayers), FieldOf(a, VIS_PLAYERS).value)
        && joinPlayers == Filled(old(joinPlayers), FieldOf(a, JOIN_PLAYERS).value)
    {
      err := FillPair(a, VIS_ROLES, JOIN_ROLES, true);
      if err.Some? { return; }
      err := FillPair(a, VIS_PLAYERS, JOIN_PLAYERS, false);
    }

    /** Two fields of fillFromAttr in turn: the role lists, or the player lists. */
    method FillPair(a: Attr, first: string, second: string, roles: bool) returns (err: Option<Error>)
      modifies this
      ensures name == old(name) && members == old(members)
      ensures err.None? <==> FieldOf(a, first).Success? && FieldOf(a, second).Success?
      ensures err.Some? ==>
        err.value == if FieldOf(a, first).Failure? then FieldOf(a, first).error else FieldOf(a, second).error
      ensures roles ==> visPlayers == old(visPlayers) && joinPlayers == old(joinPlayers)
      ensures !roles ==> visRoles == old(visRoles) && joinRoles == old(joinRoles)
      ensures err.None? && roles ==>
        visRoles == Filled(old(visRoles), FieldOf(a, first).value)
        && joinRoles == Filled(old(joinRoles), FieldOf(a, second).value)
      ensures err.None? && !roles ==>
        visPlayers == Filled(old(visPlayers), FieldOf(a, first).value)
        && joinPlayers == Filled(old(joinPlayers), FieldOf(a, second).value)
    {
      var f := FieldOf(a, first);
      if f.Failure? { return Some(f.error); }
      if roles { visRoles := Filled(visRoles, f.value); } else { visPlayers := Filled(visPlayers, f.value); }
      f := FieldOf(a, second);
      if f.Failure? { return Some(f.error); }
      if roles { joinRoles := Filled(joinRoles, f.value); } else { joinPlayers := Filled(joinPlayers, f.value); }
      return None;
    }

    function IsMember(n: string): (r: bool)
      reads this
      ensures r <==> n in members
    {
      Contains(members, n)
    }

    function ToAttr(): (a: Attr)
      reads this
    {
      ChannelAttr(name, members, visRoles, joinRoles, visPlayers, joinPlayers)
    }

    function MaySee(caller: string, roles: Result<seq<string>, Error>): bool
      reads this
    {
      Access(visRoles, visPlayers, caller, roles)
    }

    function MayJoin(caller: string, roles: Result<seq<string>, Error>): bool
      reads this
    {
      Access(joinRoles, joinPlayers, caller, roles)
    }

    /** maySee, asking the server for the caller's roles only when roles are listed. */
    method CheckSee(remote: Remote, caller: string) returns (ok: bool)
      requires remote.Valid()
      modifies remote
      ensures remote.Valid()
      ensures ok == MaySee(caller, old(remote.RolesAnswer(caller, true)))
      ensures remote.attrs == old(remote.attrs) && remote.roles == old(remote.roles)
      ensures remote.refusals == old(remote.refusals) && remote.callerName == old(remote.callerName)
      ensures remote.calls == old(remote.calls) + LookupCalls(visRoles, caller)
    {
      var roles: Result<seq<string>, Error> := remote.RolesAnswer(caller, true);
      if caller != GOD && |visRoles| > 0 {
        roles := remote.GetRoles(caller, true);
      }
      ok := MaySee(caller, roles);
    }

    method CheckJoin(remote: Remote, caller: string) returns (ok: bool)
      requires remote.Valid()
      modifies remote
      ensures remote.Valid()
      ensures ok == MayJoin(caller, old(remote.RolesAnswer(caller, true)))
      ensures remote.attrs == old(remote.attrs) && remote.roles == old(remote.roles)
      ensures remote.refusals == old(remote.refusals) && remote.callerName == old(remote.callerName)
      ensures remote.calls == old(remote.calls) + LookupCalls(joinRoles, caller)
    {
      var roles: Result<seq<string>, Error> := remote.RolesAnswer(caller, true);
      if caller != GOD && |joinRoles| > 0 {
        roles := remote.GetRoles(caller, true);
      }
      ok := MayJoin(caller, roles);
    }

    /** addMember: append the name, then upsert the members field on the server. */
    method AddMember(remote: Remote, n: string, extensionId: string, asExtension: bool)
      returns (err: Option<Error>)
      requires remote.Valid()
      modifies this, remote
      ensures remote.Valid()
      ensures members == old(members) + [n]
      ensures name == old(name) && visRoles == old(visRoles) && joinRoles == old(joinRoles)
      ensures visPlayers == old(visPlayers) && joinPlayers == old(joinPlayers)
      ensures |remote.calls| > |old(remote.calls)|
      ensures remote.calls[|old(remote.calls)|] == GetAttrCall(extensionId, name, asExtension)
      ensures err.None? ==> MembersStored(old(remote.attrs), remote.attrs, AttrKey(extensionId, name), members)
      ensures err.Some? ==> remote.attrs == old(remote.attrs)
      ensures remote.refusals == old(remote.refusals) && remote.roles == old(remote.roles)
      ensures remote.callerName == old(remote.callerName)
      ensures var read := old(remote.GetAttrAnswer(extensionId, name, asExtension));
        (read.Failure? ==> err == Some(read.error))
        && (read.Success? && GetAttrListValue(read.value).Failure? ==>
              err == Some(GetAttrListValue(read.value).error))
        && (read.Success? && GetAttrListValue(read.value).Success? ==>
              |remote.calls| == |old(remote.calls)| + 2
              && WritesList(remote.calls[|old(remote.calls)| + 1], extensionId, name, asExtension)
              && err == Refusal(remote.refusals, remote.calls[|old(remote.calls)| + 1]))
    {
      members := members + [n];
      err := remote.SetAttrInAttrListValue(extensionId, name, NewStringAttr(MEMBERS, EncodeField(members)),
                                           asExtension);
    }

    /** The loop of removeMember: the first occurrence of n, if any, taken out of the members. */
    method DropMember(n: string)
      modifies this
      ensures members == RemoveFirst(old(members), n)
      ensures name == old(name) && visRoles == old(visRoles) && joinRoles == old(joinRoles)
      ensures visPlayers == old(visPlayers) && joinPlayers == old(joinPlayers)
    {
      var i := 0;
      while i < |members|
        invariant 0 <= i <= |members|
        invariant n !in members[..i]
        invariant members == old(members)
        invariant RemoveFirst(members, n) == members[..i] + RemoveFirst(members[i..], n)
      {
        if members[i] == n {
          members := members[..i] + members[i + 1..];
          return;
        }
        assert members[i..] == [members[i]] + members[i + 1..];
        assert members[..i + 1] == members[..i] + [members[i]];
        i := i + 1;
      }
      assert members[..i] == members;
    }

    /** removeMember: drop the first occurrence of the name, then upsert the members field. */
    method RemoveMember(remote: Remote, n: string, extensionId: string, asExtension: bool)
      returns (err: Option<Error>)
      requires remote.Valid()
      modifies this, remote
      ensures remote.Valid()
      ensures members == RemoveFirst(old(members), n)
      ensures name == old(name) && visRoles == old(visRoles) && joinRoles == old(joinRoles)
      ensures visPlayers == old(visPlayers) && joinPlayers == old(joinPlayers)
      ensures |remote.calls| > |old(remote.calls)|
      ensures remote.calls[|old(remote.calls)|] == GetAttrCall(extensionId, name, asExtension)
      ensures err.None? ==> MembersStored(old(remote.attrs), remote.attrs, AttrKey(extensionId, name), members)
      ensures err.Some? ==> remote.attrs == old(remote.attrs)
      ensures remote.refusals == old(remote.refusals) && remote.roles == old(remote.roles)
      ensures remote.callerName == old(remote.callerName)
      ensures var read := old(remote.GetAttrAnswer(extensionId, name, asExtension));
        (read.Failure? ==> err == Some(read.error))
        && (read.Success? && GetAttrListValue(read.value).Failure? ==>
              err == Some(GetAttrListValue(read.value).error))
        && (read.Success? && GetAttrListValue(read.value).Success? ==>
              |remote.calls| == |old(remote.calls)| + 2
              && WritesList(remote.calls[|old(remote.calls)| + 1], extensionId, name, asExtension)
              && err == Refusal(remote.refusals, remote.calls[|old(remote.calls)| + 1]))
    {
      DropMember(n);
      err := remote.SetAttrInAttrListValue(extensionId, name, NewStringAttr(MEMBERS, EncodeField(members)),
                                           asExtension);
    }
  }

  /**
   * The stored channel under `key` was an attribute list and now holds the
   * same fields except that "members" lists `members`; nothing else changed.
   */
  predicate MembersStored(before: map<AttrKey, Attr>, after: map<AttrKey, Attr>, key: AttrKey,
                          members: seq<string>)
  {
    key in before && key in after
    && GetAttrListValue(before[key]).Success? && GetAttrListValue(after[key]).Success?
    && GetAttrListValue(after[key]).value
       == GetAttrListValue(before[key]).value[MEMBERS := NewStringAttr(MEMBERS, EncodeField(members))]
    && after == before[key := after[key]]
  }

  /** A field keeps its old list when the stored text is empty. */
  function Filled(old_: seq<string>, decoded: seq<string>): seq<string>
  {
    if decoded == [] then old_ else decoded
  }

  /** The role lookups an access check makes: one, unless GOD or no roles listed. */
  function LookupCalls(listedRoles: seq<string>, caller: string): seq<RemoteCall>
  {
    if caller != GOD && |listedRoles| > 0 then [GetRolesCall(caller, true)] else []
  }

  // ---------------------------------------------------------------------
  // Looking channels up

  /** As written: channelName[0] panics on the empty name. None stands for that panic. */
  function ValidChannelNameAsWritten(channelName: string): Option<bool>
  {
    if |channelName| == 0 then None else Some(channelName[0] == '#')
  }

  function ValidChannelName(channelName: string): (ok: bool)
    ensures ok <==> |channelName| > 0 && channelName[0] == '#'
    ensures ValidChannelNameAsWritten(channelName).Some? ==> ValidChannelNameAsWritten(channelName).value == ok
  {
    |channelName| > 0 && channelName[0] == '#'
  }

  /** The empty channel name, which a player can type, makes the original code panic. */
  lemma EmptyChannelNamePanics()
    ensures ValidChannelNameAsWritten("") == None
    ensures !ValidChannelName("")
  {
  }

  function ChannelNotFound(channelName: string): Error
  {
    Plain("Channel " + channelName + " not found")
  }

  function ChannelOffLimits(channelName: string): Error
  {
    Plain("You may not join " + channelName)
  }

  /** What getChannel answers, as a function of the server's state. */
  function ChannelAnswer(remote: Remote, channelName: string, extensionId: string): (r: Result<Attr, Error>)
    reads remote
    ensures !ValidChannelName(channelName) ==> r == Failure(Plain("That is not a valid channel name"))
    ensures ValidChannelName(channelName) && r.Success? ==> AllFieldsPresent(r.value)
  {
    if !ValidChannelName(channelName) then Failure(Plain("That is not a valid channel name"))
    else
      match remote.GetAttrAnswer(extensionId, channelName, true)
      case Failure(NotFound(_)) => Failure(ChannelNotFound(channelName))
      case Failure(e) => Failure(e)
      case Success(a) => if AllFieldsPresent(a) then Success(a) else Failure(FirstFieldError(a))
  }

  /**
   * getChannel: a name without a leading '#' is refused before any lookup;
   * the server's not-found answer becomes "Channel ... not found".
   */
  method GetChannel(remote: Remote, channelName: string, extensionId: string)
    returns (r: Result<Channel, Error>)
    requires remote.Valid()
    modifies remote
    ensures remote.Valid()
    ensures remote.attrs == old(remote.attrs) && remote.roles == old(remote.roles)
    ensures remote.refusals == old(remote.refusals) && remote.callerName == old(remote.callerName)
    ensures !ValidChannelName(channelName) ==> remote.calls == old(remote.calls)
    ensures ValidChannelName(channelName) ==>
      remote.calls == old(remote.calls) + [GetAttrCall(extensionId, channelName, true)]
    ensures r.Failure? <==> old(ChannelAnswer(remote, channelName, extensionId)).Failure?
    ensures r.Failure? ==> r.error == old(ChannelAnswer(remote, channelName, extensionId)).error
    ensures r.Success? ==>
      var a := old(ChannelAnswer(remote, channelName, extensionId)).value;
      fresh(r.value) && r.value.name == channelName
      && r.value.members == FieldOf(a, MEMBERS).value
      && r.value.visRoles == FieldOf(a, VIS_ROLES).value
      && r.value.joinRoles == FieldOf(a, JOIN_ROLES).value
      && r.value.visPlayers == FieldOf(a, VIS_PLAYERS).value
      && r.value.joinPlayers == FieldOf(a, JOIN_PLAYERS).value
  {
    if !ValidChannelName(channelName) {
      return Failure(Plain("That is not a valid channel name"));
    }
    var read := remote.GetAttr(extensionId, channelName, true);
    if read.Failure? {
      if read.error.NotFound? {
        return Failure(ChannelNotFound(channelName));
      }
      return Failure(read.error);
    }
    var c := new Channel(channelName);
    var err := c.FillFromAttr(read.value);
    if err.Some? {
      return Failure(err.value);
    }
    return Success(c);
  }

  /**
   * hasChannel: "no" exactly when getChannel's error reads like the
   * not-found error (the comparison is on the message text); other errors
   * pass through.
   */
  method HasChannel(remote: Remote, channelName: string, extensionId: string) returns (r: Result<bool, Error>)
    requires remote.Valid()
    modifies remote
    ensures remote.Valid()
    ensures remote.attrs == old(remote.attrs) && remote.roles == old(remote.roles)
    ensures remote.refusals == old(remote.refusals) && remote.callerName == old(remote.callerName)
    ensures var answer := old(ChannelAnswer(remote, channelName, extensionId));
      (answer.Success? <==> r == Success(true))
      && (r == Success(false) <==>
            answer.Failure? && answer.error.message == ChannelNotFound(channelName).message)
      && (r.Failure? ==> answer.Failure? && r.error == answer.error
                         && answer.error.message != ChannelNotFound(channelName).message)
  {
    var found := GetChannel(remote, channelName, extensionId);
    if found.Failure? {
      if found.error.message == ChannelNotFound(channelName).message {
        return Success(false);
      }
      return Failure(found.error);
    }
    return Success(true);
  }

  /** The '#'-prefixed names, in their original order. */
  function ChannelNames(names: seq<string>): seq<string>
  {
    if |names| == 0 then []
    else (if ValidChannelName(names[0]) then [names[0]] else []) + ChannelNames(names[1..])
  }

  lemma {:induction false} ChannelNamesAppend(a: seq<string>, b: seq<string>)
    ensures ChannelNames(a + b) == ChannelNames(a) + ChannelNames(b)
  {
    if |a| > 0 {
      assert (a + b)[1..] == a[1..] + b;
      ChannelNamesAppend(a[1..], b);
    } else {
      assert a + b == b;
    }
  }

  /** A name is listed exactly when it is a channel name among the attribute names. */
  lemma {:induction false} ChannelNamesMembers(names: seq<string>)
    ensures forall n :: n in ChannelNames(names) <==> n in names && ValidChannelName(n)
  {
    if |names| > 0 {
      ChannelNamesMembers(names[1..]);
      assert forall n :: n in names <==> n == names[0] || n in names[1..];
    }
  }

  /** listChannelNames: the loop that keeps the '#' names. */
  method ListChannelNames(remote: Remote, extensionId: string) returns (r: Result<seq<string>, Error>)
    requires remote.Valid()
    modifies remote
    ensures remote.Valid()
    ensures remote.attrs == old(remote.attrs) && remote.roles == old(remote.roles)
    ensures remote.refusals == old(remote.refusals) && remote.callerName == old(remote.callerName)
    ensures remote.calls == old(remote.calls) + [GetAttrNamesCall(extensionId, true)]
    ensures GetAttrNamesCall(extensionId, true) !in remote.refusals <==> r.Success?
    ensures r.Success? ==>
      forall n :: n in r.value <==> AttrKey(extensionId, n) in remote.attrs && ValidChannelName(n)
  {
    var names := remote.GetAttrNames(extensionId, true);
    if names.Failure? {
      return Failure(names.error);
    }
    var channelNames: seq<string> := [];
    var i := 0;
    while i < |names.value|
      invariant 0 <= i <= |names.value|
      invariant channelNames == ChannelNames(names.value[..i])
      modifies {}
    {
      var n := names.value[i];
      ChannelNamesAppend(names.value[..i], [n]);
      assert names.value[..i + 1] == names.value[..i] + [n];
      if ValidChannelName(n) {
        channelNames := channelNames + [n];
      }
      i := i + 1;
    }
    assert names.value[..i] == names.value;
    ChannelNamesMembers(names.value);
    return Success(channelNames);
  }

  // ---------------------------------------------------------------------
  // Setting visibility and joinability

  function AfterPrefix(arg: string, prefix: string): string
    requires |prefix| <= |arg|
  {
    arg[|prefix|..]
  }

  predicate HasPrefix(s: string, prefix: string)
  {
    |prefix| <= |s| && s[..|prefix|] == prefix
  }

  /**
   * The argument loop of set_visibility and set_joinability: "roles=" and
   * "players=" replace the role or player list; anything else is an error.
   */
  function AccessArgs(args: seq<string>, roles: seq<string>, players: seq<string>)
    : (r: Result<(seq<string>, seq<string>), string>)
  {
    if |args| == 0 then Success((roles, players))
    else if HasPrefix(args[0], "roles=") then
      AccessArgs(args[1..], Split(AfterPrefix(args[0], "roles="), ','), players)
    else if HasPrefix(args[0], "players=") then
      AccessArgs(args[1..], roles, Split(AfterPrefix(args[0], "players="), ','))
    else Failure("Unsupported argument " + args[0])
  }

  predicate Supported(arg: string)
  {
    HasPrefix(arg, "roles=") || HasPrefix(arg, "players=")
  }

  /**
   * The arguments are accepted exactly when each one is supported; the
   * first unsupported one is named in the error; the last "roles=" (and
   * the last "players=") wins, and a list nobody names is kept.
   */
  lemma AccessArgsMeaning(args: seq<string>, roles: seq<string>, players: seq<string>)
    ensures AccessArgs(args, roles, players).Success? <==> forall i :: 0 <= i < |args| ==> Supported(args[i])
    ensures AccessArgs(args, roles, players).Failure? ==>
      exists i :: 0 <= i < |args| && !Supported(args[i]) && (forall j :: 0 <= j < i ==> Supported(args[j]))
        && AccessArgs(args, roles, players).error == "Unsupported argument " + args[i]
    ensures AccessArgs(args, roles, players).Success? ==>
      AccessArgs(args, roles, players).value.0 == LastList(args, "roles=", roles)
      && AccessArgs(args, roles, players).value.1 == LastList(args, "players=", players)
  {
    AccessArgsAccepted(args, roles, players);
    AccessArgsError(args, roles, players);
    AccessArgsLists(args, roles, players);
  }

  lemma {:induction false} AccessArgsAccepted(args: seq<string>, roles: seq<string>, players: seq<string>)
    ensures AccessArgs(args, roles, players).Success? <==> forall i :: 0 <= i < |args| ==> Supported(args[i])
  {
    if |args| > 0 {
      var tail := args[1..];
      assert forall i :: 1 <= i < |args| ==> args[i] == tail[i - 1];
      if HasPrefix(args[0], "roles=") {
        AccessArgsAccepted(tail, Split(AfterPrefix(args[0], "roles="), ','), players);
      } else if HasPrefix(args[0], "players=") {
        AccessArgsAccepted(tail, roles, Split(AfterPrefix(args[0], "players="), ','));
      }
    }
  }

  lemma {:induction false} AccessArgsError(args: seq<string>, roles: seq<string>, players: seq<string>)
    ensures AccessArgs(args, roles, players).Failure? ==>
      exists i :: 0 <= i < |args| && !Supported(args[i]) && (forall j :: 0 <= j < i ==> Supported(args[j]))
        && AccessArgs(args, roles, players).error == "Unsupported argument " + args[i]
  {
    if |args| > 0 {
      var tail := args[1..];
      var r := AccessArgs(args, roles, players);
      if HasPrefix(args[0], "roles=") || HasPrefix(args[0], "players=") {
        var roles', players' := roles, players;
        if HasPrefix(args[0], "roles=") {
          roles' := Split(AfterPrefix(args[0], "roles="), ',');
        } else {
          players' := Split(AfterPrefix(args[0], "players="), ',');
        }
        assert r == AccessArgs(tail, roles', players');
        AccessArgsError(tail, roles', players');
        if r.Failure? {
          var i :| 0 <= i < |tail| && !Supported(tail[i]) && (forall j :: 0 <= j < i ==> Supported(tail[j]))
            && r.error == "Unsupported argument " + tail[i];
          assert args[i + 1] == tail[i];
          assert forall j :: 0 <= j < i + 1 ==> Supported(args[j]) by {
            forall j | 0 <= j < i + 1 ensures Supported(args[j]) {
              if j > 0 { assert args[j] == tail[j - 1]; }
            }
          }
        }
      } else {
        assert !Supported(args[0]);
      }
    }
  }

  lemma {:induction false} AccessArgsLists(args: seq<string>, roles: seq<string>, players: seq<string>)
    ensures AccessArgs(args, roles, players).Success? ==>
      AccessArgs(args, roles, players).value.0 == LastList(args, "roles=", roles)
      && AccessArgs(args, roles, players).value.1 == LastList(args, "players=", players)
  {
    if |args| > 0 {
      var tail := args[1..];
      if HasPrefix(args[0], "roles=") {
        AccessArgsLists(tail, Split(AfterPrefix(args[0], "roles="), ','), players);
        assert args[0][0] == 'r';
        LastListSkip(args, "players=", players);
        LastListTake(args, "roles=", roles);
      } else if HasPrefix(args[0], "players=") {
        AccessArgsLists(tail, roles, Split(AfterPrefix(args[0], "players="), ','));
        LastListSkip(args, "roles=", roles);
        LastListTake(args, "players=", players);
      }
    }
  }

  /** The list the last argument with this prefix names, or `current` when none does. */
  function LastList(args: seq<string>, prefix: string, current: seq<string>): seq<string>
  {
    if |args| == 0 then current
    else if HasPrefix(args[0], prefix) then LastList(args[1..], prefix, Split(AfterPrefix(args[0], prefix), ','))
    else LastList(args[1..], prefix, current)
  }

  lemma LastListSkip(args: seq<string>, prefix: string, current: seq<string>)
    requires |args| > 0 && !HasPrefix(args[0], prefix)
    ensures LastList(args, prefix, current) == LastList(args[1..], prefix, current)
  {
  }

  lemma LastListTake(args: seq<string>, prefix: string, current: seq<string>)
    requires |args| > 0 && HasPrefix(args[0], prefix)
    ensures LastList(args, prefix, current) == LastList(args[1..], prefix, Split(AfterPrefix(args[0], prefix), ','))
  {
  }

  // ---------------------------------------------------------------------
  // Handlers

  /** How a join request ends, decided by the channel's lists and the caller. */
  datatype JoinVerdict = Hidden | OffLimits | AlreadyMember | Admitted

  function Verdict(members: seq<string>, visRoles: seq<string>, joinRoles: seq<string>,
                   visPlayers: seq<string>, joinPlayers: seq<string>,
                   caller: string, roles: Result<seq<string>, Error>): (v: JoinVerdict)
    ensures v == Admitted ==> caller !in members
    ensures v == AlreadyMember ==> caller in members
  {
    if !Access(visRoles, visPlayers, caller, roles) then Hidden
    else if !Access(joinRoles, joinPlayers, caller, roles) then OffLimits
    else if Contains(members, caller) then AlreadyMember
    else Admitted
  }

  /**
   * Joining is refused with "not found" exactly when the caller may not see
   * the channel, so a hidden channel cannot be told apart from a missing one;
   * GOD is never refused.
   */
  lemma VerdictMeaning(members: seq<string>, visRoles: seq<string>, joinRoles: seq<string>,
                       visPlayers: seq<string>, joinPlayers: seq<string>,
                       caller: string, roles: Result<seq<string>, Error>)
    ensures Verdict(members, visRoles, joinRoles, visPlayers, joinPlayers, caller, roles) == Hidden
      <==> !Access(visRoles, visPlayers, caller, roles)
    ensures Verdict(members, visRoles, joinRoles, visPlayers, joinPlayers, caller, roles) == OffLimits
      <==> Access(visRoles, visPlayers, caller, roles) && !Access(joinRoles, joinPlayers, caller, roles)
    ensures caller == GOD ==>
      Verdict(members, visRoles, joinRoles, visPlayers, joinPlayers, caller, roles)
        == (if caller in members then AlreadyMember else Admitted)
  {
  }

  function VerdictMessage(v: JoinVerdict, channelName: string): string
  {
    match v
    case Hidden => ChannelNotFound(channelName).message
    case OffLimits => ChannelOffLimits(channelName).message
    case AlreadyMember => "You are already a member of " + channelName
    case Admitted => ""
  }

  function StoredVerdict(a: Attr, caller: string, roles: Result<seq<string>, Error>): JoinVerdict
    requires AllFieldsPresent(a)
  {
    Verdict(FieldOf(a, MEMBERS).value, FieldOf(a, VIS_ROLES).value, FieldOf(a, JOIN_ROLES).value,
            FieldOf(a, VIS_PLAYERS).value, FieldOf(a, JOIN_PLAYERS).value, caller, roles)
  }

  /**
   * How an admitted caller's join ends, given the channel attribute that
   * addMember reads, the server's refusals and the calls logged by then: a
   * failed read or decode is the handler's error; otherwise the last call
   * writes the channel's list and the handler fails exactly when that write
   * is refused.
   */
  predicate JoinEnds(read: Result<Attr, Error>, refusals: map<RemoteCall, Error>, calls: seq<RemoteCall>,
                     extensionId: string, channelName: string, r: HandlerOutcome)
  {
    (read.Failure? ==> r == Failed(read.error.message))
    && (read.Success? && GetAttrListValue(read.value).Failure? ==>
          r == Failed(GetAttrListValue(read.value).error.message))
    && (read.Success? && GetAttrListValue(read.value).Success? ==>
          |calls| > 0
          && WritesList(calls[|calls| - 1], extensionId, channelName, true)
          && r == ErrorOutcome(Refusal(refusals, calls[|calls| - 1])))
  }

  /** The admitted caller's join: addMember as the extension, its error as the handler's. */
  method Admit(remote: Remote, channel: Channel, caller: string, extensionId: string)
    returns (r: HandlerOutcome)
    requires remote.Valid()
    modifies remote, channel
    ensures remote.Valid()
    ensures channel.name == old(channel.name)
    ensures channel.members == old(channel.members) + [caller]
    ensures |remote.calls| > |old(remote.calls)|
    ensures remote.calls[|old(remote.calls)|] == GetAttrCall(extensionId, channel.name, true)
    ensures r.Failed? ==> remote.attrs == old(remote.attrs)
    ensures r.Returned? ==>
      MembersStored(old(remote.attrs), remote.attrs, AttrKey(extensionId, channel.name), channel.members)
    ensures JoinEnds(old(remote.GetAttrAnswer(extensionId, channel.name, true)), old(remote.refusals),
                     remote.calls, extensionId, channel.name, r)
  {
    var err := channel.AddMember(remote, caller, extensionId, true);
    r := ErrorOutcome(err);
  }

  /** The part of handleJoin after the channel and the caller are known. */
  method JoinAs(remote: Remote, channel: Channel, caller: string, extensionId: string)
    returns (r: HandlerOutcome)
    requires remote.Valid()
    modifies remote, channel
    ensures remote.Valid()
    ensures channel.name == old(channel.name)
    ensures var v := old(Verdict(channel.members, channel.visRoles, channel.joinRoles, channel.visPlayers,
                                 channel.joinPlayers, caller, remote.RolesAnswer(caller, true)));
      (v == Hidden || v == OffLimits ==>
         r == Failed(VerdictMessage(v, channel.name)) && remote.attrs == old(remote.attrs))
      && (v == AlreadyMember ==>
         r == Returned(JString("")) && remote.attrs == old(remote.attrs)
         && |remote.calls| > 0
         && remote.calls[|remote.calls| - 1] == SendMessageToCallerCall(VerdictMessage(v, channel.name)))
      && (v == Admitted ==>
         channel.members == old(channel.members) + [caller]
         && |remote.calls| > |old(remote.calls)|
         && GetAttrCall(extensionId, channel.name, true) in remote.calls[|old(remote.calls)|..]
         && (r.Failed? ==> remote.attrs == old(remote.attrs))
         && (r.Returned? ==> MembersStored(old(remote.attrs), remote.attrs, AttrKey(extensionId, channel.name),
                                           old(channel.members) + [caller])))
    ensures old(Verdict(channel.members, channel.visRoles, channel.joinRoles, channel.visPlayers,
                        channel.joinPlayers, caller, remote.RolesAnswer(caller, true))) == Admitted ==>
      JoinEnds(old(remote.GetAttrAnswer(extensionId, channel.name, true)), old(remote.refusals),
               remote.calls, extensionId, channel.name, r)
  {
    ghost var roles := remote.RolesAnswer(caller, true);
    ghost var v := Verdict(channel.members, channel.visRoles, channel.joinRoles, channel.visPlayers,
                           channel.joinPlayers, caller, roles);
    ghost var read := remote.GetAttrAnswer(extensionId, channel.name, true);
    ghost var refusals := remote.refusals;
    var visible := channel.CheckSee(remote, caller);
    if !visible {
      assert v == Hidden;
      return Failed(ChannelNotFound(channel.name).message);
    }
    var joinable := channel.CheckJoin(remote, caller);
    if !joinable {
      assert v == OffLimits;
      return Failed(ChannelOffLimits(channel.name).message);
    }
    if channel.IsMember(caller) {
      assert v == AlreadyMember;
      var _ := remote.SendMessageToCaller("You are already a member of " + channel.name);
      return Returned(JString(""));
    }
    assert v == Admitted;
    assert remote.refusals == refusals && remote.GetAttrAnswer(extensionId, channel.name, true) == read;
    r := Admit(remote, channel, caller, extensionId);
  }

  /**
   * handleJoin: exactly one argument, the channel name; then the verdict
   * on the stored channel decides the answer.
   */
  method HandleJoin(remote: Remote, call: PluginCall) returns (r: HandlerOutcome)
    requires remote.Valid()
    modifies remote
    ensures remote.Valid()
    ensures CheckArgumentCount(call, 2).Some? ==>
      r == Failed(CheckArgumentCount(call, 2).value) && remote.calls == old(remote.calls)
    ensures CheckArgumentCount(call, 2).None? ==>
      var answer := old(ChannelAnswer(remote, call.arguments[1], call.extensionId));
      (answer.Failure? ==> r == Failed(answer.error.message) && remote.attrs == old(remote.attrs))
      && (answer.Success? && GetCallerNameCall in old(remote.refusals) ==>
            r == Failed(old(remote.refusals)[GetCallerNameCall].message) && remote.attrs == old(remote.attrs))
      && (answer.Success? && GetCallerNameCall !in old(remote.refusals) ==>
            var v := StoredVerdict(answer.value, old(remote.callerName),
                                   old(remote.RolesAnswer(remote.callerName, true)));
            (v == Hidden || v == OffLimits ==>
               r == Failed(VerdictMessage(v, call.arguments[1])) && remote.attrs == old(remote.attrs))
            && (v == AlreadyMember ==> r == Returned(JString("")) && remote.attrs == old(remote.attrs))
            && (v == Admitted && r.Failed? ==> remote.attrs == old(remote.attrs))
            && (v == Admitted && r.Returned? ==>
                  MembersStored(old(remote.attrs), remote.attrs, AttrKey(call.extensionId, call.arguments[1]),
                                FieldOf(answer.value, MEMBERS).value + [old(remote.callerName)]))
            && (v == Admitted ==>
                  var read := old(remote.GetAttrAnswer(call.extensionId, call.arguments[1], true));
                  read.Success?
                  && JoinEnds(read, old(remote.refusals), remote.calls, call.extensionId, call.arguments[1], r)))
  {
    var countErr := CheckArgumentCount(call, 2);
    if countErr.Some? {
      return Failed(countErr.value);
    }
    ghost var roles := remote.RolesAnswer(remote.callerName, true);
    ghost var answer := ChannelAnswer(remote, call.arguments[1], call.extensionId);
    ghost var read := remote.GetAttrAnswer(call.extensionId, call.arguments[1], true);
    var found := GetChannel(remote, call.arguments[1], call.extensionId);
    if found.Failure? {
      return Failed(found.error.message);
    }
    var caller := remote.GetCallerName();
    if caller.Failure? {
      return Failed(caller.error.message);
    }
    assert remote.RolesAnswer(caller.value, true) == roles;
    ghost var v := StoredVerdict(answer.value, caller.value, roles);
    assert v == Verdict(found.value.members, found.value.visRoles, found.value.joinRoles, found.value.visPlayers,
                        found.value.joinPlayers, caller.value, roles);
    assert read.Success? && remote.GetAttrAnswer(call.extensionId, found.value.name, true) == read;
    r := JoinAs(remote, found.value, caller.value, call.extensionId);
  }

  /**
   * The end of both handlers: the whole channel is written back (not as the
   * extension) and, when the server accepts it, the caller is told.
   */
  method WriteBack(remote: Remote, channel: Channel, extensionId: string) returns (r: HandlerOutcome)
    requires remote.Valid()
    modifies remote
    ensures remote.Valid()
    ensures var written := ChannelAttr(channel.name, channel.members, channel.visRoles, channel.joinRoles,
                                       channel.visPlayers, channel.joinPlayers);
      var set_ := SetAttrCall(extensionId, written.name, written.value, written.kind, false);
      (set_ in old(remote.refusals) ==>
         r == Failed(old(remote.refusals)[set_].message) && remote.attrs == old(remote.attrs))
      && (set_ !in old(remote.refusals) ==>
         r == Returned(JString(""))
         && remote.attrs == old(remote.attrs)[AttrKey(extensionId, channel.name) := written])
  {
    var err := remote.SetAttr(extensionId, channel.ToAttr(), false);
    if err.Some? {
      return Failed(err.value.message);
    }
    var _ := remote.SendMessageToCaller("Updated channel " + channel.name);
    return Returned(JString(""));
  }

  /**
   * The rest of handleSetVisibility once the channel is read: the
   * arguments replace the visibility lists and the whole channel is written back.
   */
  method UpdateVisibility(remote: Remote, channel: Channel, args: seq<string>, extensionId: string)
    returns (r: HandlerOutcome)
    requires remote.Valid()
    modifies remote, channel
    ensures remote.Valid()
    ensures var parsed := AccessArgs(args, old(channel.visRoles), old(channel.visPlayers));
      (parsed.Failure? ==> r == Failed(parsed.error) && remote.attrs == old(remote.attrs))
      && (parsed.Success? ==>
            var written := ChannelAttr(old(channel.name), old(channel.members), parsed.value.0,
                                     old(channel.joinRoles), parsed.value.1, old(channel.joinPlayers));
            var set_ := SetAttrCall(extensionId, written.name, written.value, written.kind, false);
            (set_ in old(remote.refusals) ==>
               r == Failed(old(remote.refusals)[set_].message) && remote.attrs == old(remote.attrs))
            && (set_ !in old(remote.refusals) ==>
               r == Returned(JString(""))
               && remote.attrs == old(remote.attrs)[AttrKey(extensionId, old(channel.name)) := written]))
  {
    var parsed := AccessArgs(args, channel.visRoles, channel.visPlayers);
    if parsed.Failure? {
      return Failed(parsed.error);
    }
    ghost var written := ChannelAttr(channel.name, channel.members, parsed.value.0, channel.joinRoles, parsed.value.1, channel.joinPlayers);
    channel.visRoles, channel.visPlayers := parsed.value.0, parsed.value.1;
    assert ChannelAttr(channel.name, channel.members, channel.visRoles, channel.joinRoles, channel.visPlayers, channel.joinPlayers) == written;
    r := WriteBack(remote, channel, extensionId);
  }

  /**
   * The rest of handleSetJoinability once the channel is read: the
   * arguments replace the joinability lists and the whole channel is written back.
   */
  method UpdateJoinability(remote: Remote, channel: Channel, args: seq<string>, extensionId: string)
    returns (r: HandlerOutcome)
    requires remote.Valid()
    modifies remote, channel
    ensures remote.Valid()
    ensures var parsed := AccessArgs(args, old(channel.joinRoles), old(channel.joinPlayers));
      (parsed.Failure? ==> r == Failed(parsed.error) && remote.attrs == old(remote.attrs))
      && (parsed.Success? ==>
            var written := ChannelAttr(old(channel.name), old(channel.members), old(channel.visRoles),
                                     parsed.value.0, old(channel.visPlayers), parsed.value.1);
            var set_ := SetAttrCall(extensionId, written.name, written.value, written.kind, false);
            (set_ in old(remote.refusals) ==>
               r == Failed(old(remote.refusals)[set_].message) && remote.attrs == old(remote.attrs))
            && (set_ !in old(remote.refusals) ==>
               r == Returned(JString(""))
               && remote.attrs == old(remote.attrs)[AttrKey(extensionId, old(channel.name)) := written]))
  {
    var parsed := AccessArgs(args, channel.joinRoles, channel.joinPlayers);
    if parsed.Failure? {
      return Failed(parsed.error);
    }
    ghost var written := ChannelAttr(channel.name, channel.members, channel.visRoles, parsed.value.0, channel.visPlayers, parsed.value.1);
    channel.joinRoles, channel.joinPlayers := parsed.value.0, parsed.value.1;
    assert ChannelAttr(channel.name, channel.members, channel.visRoles, channel.joinRoles, channel.visPlayers, channel.joinPlayers) == written;
    r := WriteBack(remote, channel, extensionId);
  }

  /**
   * handleSetVisibility: at least three arguments; the channel must exist;
   * the "roles=" and "players=" arguments replace the visibility lists and
   * the whole channel is written back (not as the extension).
   */
  method HandleSetVisibility(remote: Remote, call: PluginCall) returns (r: HandlerOutcome)
    requires remote.Valid()
    modifies remote
    ensures remote.Valid()
    ensures CheckArgumentCountAtLeast(call, 3).Some? ==>
      r == Failed(CheckArgumentCountAtLeast(call, 3).value) && remote.calls == old(remote.calls)
    ensures CheckArgumentCountAtLeast(call, 3).None? ==>
      var channelName := call.arguments[1];
      var answer := old(ChannelAnswer(remote, channelName, call.extensionId));
      (answer.Failure? ==> r == Failed(answer.error.message) && remote.attrs == old(remote.attrs))
      && (answer.Success? ==>
            var a := answer.value;
            var parsed := AccessArgs(call.arguments[2..], FieldOf(a, VIS_ROLES).value,
                                     FieldOf(a, VIS_PLAYERS).value);
            (parsed.Failure? ==> r == Failed(parsed.error) && remote.attrs == old(remote.attrs))
            && (parsed.Success? ==>
                  var written := ChannelAttr(channelName, FieldOf(a, MEMBERS).value, parsed.value.0,
                                             FieldOf(a, JOIN_ROLES).value, parsed.value.1,
                                             FieldOf(a, JOIN_PLAYERS).value);
                  var set_ := SetAttrCall(call.extensionId, written.name, written.value, written.kind, false);
                  (set_ in old(remote.refusals) ==>
                     r == Failed(old(remote.refusals)[set_].message) && remote.attrs == old(remote.attrs))
                  && (set_ !in old(remote.refusals) ==>
                     r == Returned(JString(""))
                     && remote.attrs == old(remote.attrs)[AttrKey(call.extensionId, channelName) := written])))
  {
    var countErr := CheckArgumentCountAtLeast(call, 3);
    if countErr.Some? {
      return Failed(countErr.value);
    }
    var channelName := call.arguments[1];
    ghost var answer := ChannelAnswer(remote, channelName, call.extensionId);
    var found := GetChannel(remote, channelName, call.extensionId);
    if found.Failure? {
      return Failed(found.error.message);
    }
    var channel := found.value;
    r := UpdateVisibility(remote, channel, call.arguments[2..], call.extensionId);
  }

  /**
   * handleSetJoinability: at least three arguments; the channel must exist;
   * the "roles=" and "players=" arguments replace the joinability lists and
   * the whole channel is written back (not as the extension).
   */
  method HandleSetJoinability(remote: Remote, call: PluginCall) returns (r: HandlerOutcome)
    requires remote.Valid()
    modifies remote
    ensures remote.Valid()
    ensures CheckArgumentCountAtLeast(call, 3).Some? ==>
      r == Failed(CheckArgumentCountAtLeast(call, 3).value) && remote.calls == old(remote.calls)
    ensures CheckArgumentCountAtLeast(call, 3).None? ==>
      var channelName := call.arguments[1];
      var answer := old(ChannelAnswer(remote, channelName, call.extensionId));
      (answer.Failure? ==> r == Failed(answer.error.message) && remote.attrs == old(remote.attrs))
      && (answer.Success? ==>
            var a := answer.value;
            var parsed := AccessArgs(call.arguments[2..], FieldOf(a, JOIN_ROLES).value,
                                     FieldOf(a, JOIN_PLAYERS).value);
            (parsed.Failure? ==> r == Failed(parsed.error) && remote.attrs == old(remote.attrs))
            && (parsed.Success? ==>
                  var written := ChannelAttr(channelName, FieldOf(a, MEMBERS).value, FieldOf(a, VIS_ROLES).value,
                                             parsed.value.0, FieldOf(a, VIS_PLAYERS).value, parsed.value.1);
                  var set_ := SetAttrCall(call.extensionId, written.name, written.value, written.kind, false);
                  (set_ in old(remote.refusals) ==>
                     r == Failed(old(remote.refusals)[set_].message) && remote.attrs == old(remote.attrs))
                  && (set_ !in old(remote.refusals) ==>
                     r == Returned(JString(""))
                     && remote.attrs == old(remote.attrs)[AttrKey(call.extensionId, channelName) := written])))
  {
    var countErr := CheckArgumentCountAtLeast(call, 3);
    if countErr.Some? {
      return Failed(countErr.value);
    }
    var channelName := call.arguments[1];
    ghost var answer := ChannelAnswer(remote, channelName, call.extensionId);
    var found := GetChannel(remote, channelName, call.extensionId);
    if found.Failure? {
      return Failed(found.error.message);
    }
    var channel := found.value;
    r := UpdateJoinability(remote, channel, call.arguments[2..], call.extensionId);
  }
}
