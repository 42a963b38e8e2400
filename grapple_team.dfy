/**
 * A team in the Grapple combat system (combat/grapple/GrappleTeam.java):
 * its members and the stats of each. Players are identified by name.
 */
module GrappleTeamModel {
  import opened Base
  import opened GrappleStats

  function NotMember(player: string, team: string): Exception
  {
    IllegalArgument("Player " + player + " is not a member of team " + team)
  }

  class GrappleTeam {
    const name: string
    var members: map<string, BaseStats>

    constructor (name: string, members: map<string, BaseStats>)
      ensures this.name == name && this.members == members
    {
      this.name := name;
      this.members := members;
    }

    predicate IsMember(player: string)
      reads this
    {
      player in members
    }

    /** The stats of a member; asking for anyone else is an error. */
    function GetMemberStats(player: string): (r: Result<BaseStats, Exception>)
      reads this
      ensures r.Success? <==> IsMember(player)
      ensures r.Success? ==> r.value == members[player]
      ensures r.Failure? ==> r.error == NotMember(player, name)
    {
      if player !in members then Failure(NotMember(player, name))
      else Success(members[player])
    }

    /** Replaces a member's stats; the membership and every other member's stats stay. */
    method SetMemberStats(player: string, stats: BaseStats) returns (err: Option<Exception>)
      modifies this
      ensures err.None? <==> player in old(members)
      ensures err.None? ==> members == old(members)[player := stats]
      ensures err.Some? ==> err.value == NotMember(player, name) && members == old(members)
      ensures members.Keys == old(members).Keys
      ensures forall q :: q in members && q != player ==> members[q] == old(members)[q]
      ensures err.None? ==>
        (IsOut() <==> stats.IsOut() && forall q :: q in members && q != player ==> members[q].IsOut())
    {
      if player !in members {
        return Some(NotMember(player, name));
      }
      members := members[player := stats];
      return None;
    }

    /** A team is out when every member is (so an empty team would be out). */
    predicate IsOut()
      reads this, members.Values
    {
      forall p :: p in members ==> members[p].IsOut()
    }
  }

  /** GrappleTeam.Builder: gathers distinct members before the team is built. */
  class TeamBuilder {
    const name: string
    var members: map<string, BaseStats>

    constructor (name: string)
      ensures this.name == name && members == map[]
    {
      this.name := name;
      members := map[];
    }

    /** Adds a new member; a player already on the team is refused. */
    method Member(player: string, stats: BaseStats) returns (err: Option<Exception>)
      modifies this
      ensures err.Some? <==> player in old(members)
      ensures err.Some? ==>
        err.value == IllegalArgument(player + " is already a member of team " + name)
        && members == old(members)
      ensures err.None? ==> members == old(members)[player := stats]
    {
      if player in members {
        return Some(IllegalArgument(player + " is already a member of team " + name));
      }
      members := members[player := stats];
      return None;
    }

    /** Removes a player if present; otherwise nothing changes. */
    method RemoveMember(player: string)
      modifies this
      ensures members == old(members) - {player}
      ensures player !in old(members) ==> members == old(members)
    {
      if player in members {
        members := members - {player};
      }
    }

    /** Builds a team from the gathered members; at least one is required. */
    method Build() returns (r: Result<GrappleTeam, Exception>)
      ensures r.Failure? <==> members == map[]
      ensures r.Failure? ==> r.error == IllegalState("At least one team member is required")
      ensures r.Success? ==> fresh(r.value) && r.value.name == name && r.value.members == members
    {
      if |members| < 1 {
        return Failure(IllegalState("At least one team member is required"));
      }
      var t := new GrappleTeam(name, members);
      return Success(t);
    }
  }

  /** Adding a member and removing it again leaves the builder's members as they were. */
  lemma MemberThenRemove(members: map<string, BaseStats>, player: string, stats: BaseStats)
    requires player !in members
    ensures members[player := stats] - {player} == members
  {
  }
}
