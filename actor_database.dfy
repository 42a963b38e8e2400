/**
 * The actor database (server/ActorDatabase.java): one record per username,
 * each holding a password, the ids of the actor's players, login details
 * and string preferences. Instants are modelled as ints; Java nulls as None.
 */
module ActorDatabaseModel {
  import opened Base

  /** The mutable part of a record, as one value. */
  datatype RecordState = RecordState(
    password: Option<string>,
    players: set<string>,
    mostRecentIPAddress: Option<string>,
    lastLoginTime: Option<int>,
    lockedUntil: Option<int>,
    preferences: map<string, string>)

  /**
   * What a caller of updateActorRecord may do to a record: the Consumer it
   * passes is one of the record's own setters.
   */
  datatype Mutation =
    | SetPassword(password: Option<string>)
    | AddPlayer(playerId: string)
    | RemovePlayer(playerId: string)
    | SetMostRecentIPAddress(address: Option<string>)
    | SetLastLoginTime(time: Option<int>)
    | SetLockedUntil(time: Option<int>)
    | SetPreferences(preferences: map<string, string>)
    | SetPreference(name: string, value: Option<string>)

  /** A preference set to null is removed; any other value replaces the old one. */
  function PutPreference(prefs: map<string, string>, name: string, value: Option<string>): (r: map<string, string>)
    ensures value.None? ==> name !in r
    ensures value.Some? ==> name in r && r[name] == value.value
    ensures forall k :: k != name ==> (k in r <==> k in prefs) && (k in r ==> r[k] == prefs[k])
  {
    if value.Some? then prefs[name := value.value] else prefs - {name}
  }

  /** The record state after one mutation. */
  function Apply(s: RecordState, m: Mutation): RecordState
  {
    match m
      case SetPassword(p) => s.(password := p)
      case AddPlayer(id) => s.(players := s.players + {id})
      case RemovePlayer(id) => s.(players := s.players - {id})
      case SetMostRecentIPAddress(a) => s.(mostRecentIPAddress := a)
      case SetLastLoginTime(t) => s.(lastLoginTime := t)
      case SetLockedUntil(t) => s.(lockedUntil := t)
      case SetPreferences(p) => s.(preferences := p)
      case SetPreference(n, v) => s.(preferences := PutPreference(s.preferences, n, v))
  }

  /** Players form a set: adding twice is adding once, and removal undoes a fresh add. */
  lemma PlayerSetSemantics(s: RecordState, id: string)
    ensures Apply(Apply(s, AddPlayer(id)), AddPlayer(id)) == Apply(s, AddPlayer(id))
    ensures Apply(Apply(s, RemovePlayer(id)), RemovePlayer(id)) == Apply(s, RemovePlayer(id))
    ensures id !in s.players ==> Apply(Apply(s, AddPlayer(id)), RemovePlayer(id)) == s
    ensures id in Apply(s, AddPlayer(id)).players && id !in Apply(s, RemovePlayer(id)).players
  {
    assert id !in s.players ==> s.players + {id} - {id} == s.players;
  }

  /** Removing a preference that was just put restores a map without it. */
  lemma PreferenceRoundTrip(prefs: map<string, string>, name: string, value: string)
    requires name !in prefs
    ensures PutPreference(PutPreference(prefs, name, Some(value)), name, None) == prefs
  {
  }

  class ActorRecord {
    const username: string
    var password: Option<string>
    var players: set<string>
    var mostRecentIPAddress: Option<string>
    var lastLoginTime: Option<int>
    var lockedUntil: Option<int>
    var preferences: map<string, string>

    /** A new record: the given password, no players, no preferences, nothing else set. */
    constructor (username: string, password: Option<string>)
      ensures this.username == username
      ensures State() == RecordState(password, {}, None, None, None, map[])
    {
      this.username := username;
      this.password := password;
      players := {};
      mostRecentIPAddress := None;
      lastLoginTime := None;
      lockedUntil := None;
      preferences := map[];
    }

    function State(): RecordState
      reads this
    {
      RecordState(password, players, mostRecentIPAddress, lastLoginTime, lockedUntil, preferences)
    }

    method AddPlayerId(playerId: string)
      modifies this
      ensures players == old(players) + {playerId}
      ensures State() == old(State()).(players := players)
    {
      players := players + {playerId};
    }

    method RemovePlayerId(playerId: string)
      modifies this
      ensures players == old(players) - {playerId}
      ensures State() == old(State()).(players := players)
    {
      players := players - {playerId};
    }

    /** setPreference: null removes the preference, anything else puts it. */
    method SetPreferenceValue(name: string, value: Option<string>)
      modifies this
      ensures value.None? ==> preferences == old(preferences) - {name}
      ensures value.Some? ==> preferences == old(preferences)[name := value.value]
      ensures State() == old(State()).(preferences := preferences)
    {
      if value.Some? {
        preferences := preferences[name := value.value];
      } else {
        preferences := preferences - {name};
      }
    }

    /** Runs one setter, as the Consumer given to updateActorRecord does. */
    method Mutate(m: Mutation)
      modifies this
      ensures State() == Apply(old(State()), m)
    {
      match m
      case SetPassword(p) => password := p;
      case AddPlayer(id) => AddPlayerId(id);
      case RemovePlayer(id) => RemovePlayerId(id);
      case SetMostRecentIPAddress(a) => mostRecentIPAddress := a;
      case SetLastLoginTime(t) => lastLoginTime := t;
      case SetLockedUntil(t) => lockedUntil := t;
      case SetPreferences(p) => preferences := p;
      case SetPreference(n, v) => SetPreferenceValue(n, v);
    }
  }

  class ActorDatabase {
    var actors: map<string, ActorRecord>

    /** Each record is filed under its own username (so no two names share a record). */
    ghost predicate Valid()
      reads this
    {
      forall u :: u in actors ==> actors[u].username == u
    }

    constructor ()
      ensures Valid() && actors == map[]
    {
      actors := map[];
    }

    /** A new record for a new username; an existing username is left alone. */
    method CreateActorRecord(username: string, password: Option<string>) returns (created: bool)
      requires Valid()
      modifies this
      ensures Valid()
      ensures created <==> username !in old(actors)
      ensures !created ==> actors == old(actors)
      ensures created ==>
        username in actors && fresh(actors[username])
        && actors == old(actors)[username := actors[username]]
        && actors[username].State() == RecordState(password, {}, None, None, None, map[])
    {
      if username in actors {
        return false;
      }
      var r := new ActorRecord(username, password);
      actors := actors[username := r];
      return true;
    }

    function GetActorRecord(username: string): (r: Option<ActorRecord>)
      reads this
      ensures r.Some? <==> username in actors
      ensures r.Some? ==> r.value == actors[username]
    {
      if username in actors then Some(actors[username]) else None
    }

    /** Applies the mutation to the user's record; an unknown user gives false. */
    method UpdateActorRecord(username: string, mutation: Mutation) returns (updated: bool)
      requires Valid()
      modifies if username in actors then {actors[username]} else {}
      ensures Valid() && actors == old(actors)
      ensures updated <==> username in actors
      ensures updated ==> actors[username].State() == Apply(old(actors[username].State()), mutation)
      ensures forall u :: u in actors && u != username ==> actors[u].State() == old(actors[u].State())
    {
      var record := GetActorRecord(username);
      if record.None? {
        return false;
      }
      record.value.Mutate(mutation);
      return true;
    }

    /** Removes the user's record, if any; every other record stays. */
    method RemoveActorRecord(username: string)
      requires Valid()
      modifies this
      ensures Valid()
      ensures actors == old(actors) - {username}
      ensures username !in old(actors) ==> actors == old(actors)
    {
      actors := actors - {username};
    }
  }
}
