/**
 * The turn and round state machine of the Grapple combat system
 * (combat/grapple/GrappleEngine.java): which team moves, who on it has yet
 * to move, and when combat is over and who won.
 *
 * A move's effect on stats is computed by the rules (module CombatRules);
 * Move here covers the checks made before the rules run and the bookkeeping
 * made after, with the rules' effect on the teams' stats already applied.
 */
module GrappleEngineModel {
  import opened Base
  import opened GrappleStats
  import opened GrappleTeamModel
  import opened AttrModel
  import opened ThingModel

  const ROUND_NOT_STARTED: int := 0

  const ATTR_NAME_AP_MAX_SIZE: string := "grapple_apMaxSize"
  const ATTR_NAME_AD: string := "grapple_ad"
  const ATTR_NAME_SD: string := "grapple_sd"
  const ATTR_NAME_SKILL_4: string := "grapple_skill4"
  const ATTR_NAME_SKILL_3: string := "grapple_skill3"
  const ATTR_NAME_SKILL_2: string := "grapple_skill2"
  const ATTR_NAME_DEFENSE: string := "grapple_defense"
  const ATTR_NAME_MAX_WOUNDS: string := "grapple_maxWounds"

  /** Every stats object belonging to one of the teams. */
  function StatsOf(ts: seq<GrappleTeam>): set<BaseStats>
    reads ts
  {
    set t, s | t in ts && s in t.members.Values :: s
  }

  /** The teams that still have a member standing, in order. */
  function Standing(ts: seq<GrappleTeam>): (r: seq<GrappleTeam>)
    reads ts, StatsOf(ts)
    ensures |r| <= |ts|
    decreases |ts|
  {
    if |ts| == 0 then []
    else
      assert StatsOf(ts[1..]) <= StatsOf(ts);
      (if ts[0].IsOut() then [] else [ts[0]]) + Standing(ts[1..])
  }

  /** The standing teams are exactly the listed teams that are not out. */
  lemma {:induction false} StandingMeaning(ts: seq<GrappleTeam>, t: GrappleTeam)
    ensures t in Standing(ts) <==> t in ts && !t.IsOut()
    decreases |ts|
  {
    if |ts| > 0 {
      StandingMeaning(ts[1..], t);
      assert ts == [ts[0]] + ts[1..];
    }
  }

  /** What a move reports: a new moving team or round, or the end of combat. */
  datatype MoveResult = MoveResult(
    newMovingTeam: Option<string>, newRound: Option<int>, over: bool, winner: Option<string>)

  class GrappleEngine {
    const teams: seq<GrappleTeam>
    var round: int
    var movingTeamIndex: int
    var yetToMove: set<string>
    var over: bool
    var winningTeam: Option<GrappleTeam>

    /** At least two teams, a moving team among them, and only its members yet to move. */
    ghost predicate Valid()
      reads this, teams
    {
      |teams| >= 2 && 0 <= movingTeamIndex < |teams|
      && yetToMove <= teams[movingTeamIndex].members.Keys
    }

    /** Turns taken so far: the round and the moving team read as one counter. */
    function Turn(): int
      reads this
    {
      round * |teams| + movingTeamIndex
    }

    constructor (teams: seq<GrappleTeam>, round: int, movingTeamIndex: int,
                 yetToMove: set<string>, over: bool, winningTeam: Option<GrappleTeam>)
      ensures this.teams == teams && this.round == round
      ensures this.movingTeamIndex == movingTeamIndex && this.yetToMove == yetToMove
      ensures this.over == over && this.winningTeam == winningTeam
    {
      this.teams := teams;
      this.round := round;
      this.movingTeamIndex := movingTeamIndex;
      this.yetToMove := yetToMove;
      this.over := over;
      this.winningTeam := winningTeam;
    }

    /** Starts combat: round 1, the first team moving with all its members yet to move. */
    method Start() returns (err: Option<Exception>)
      requires Valid()
      modifies this
      ensures Valid()
      ensures err.Some? <==> old(round) != ROUND_NOT_STARTED
      ensures err.Some? ==>
        err.value == IllegalState("Combat has already started")
        && round == old(round) && movingTeamIndex == old(movingTeamIndex)
        && yetToMove == old(yetToMove) && over == old(over) && winningTeam == old(winningTeam)
      ensures err.None? ==>
        round == 1 && movingTeamIndex == 0 && yetToMove == teams[0].members.Keys
        && !over && winningTeam == None
    {
      if round != ROUND_NOT_STARTED {
        return Some(IllegalState("Combat has already started"));
      }
      round := 1;
      movingTeamIndex := 0;
      yetToMove := teams[0].members.Keys;
      over := false;
      winningTeam := None;
      return None;
    }

    /**
     * Combat is over when at most one team is standing; the winner is that
     * team, or none. While two or more stand nothing changes.
     */
    method CheckIfOver()
      modifies this
      ensures round == old(round) && movingTeamIndex == old(movingTeamIndex)
      ensures yetToMove == old(yetToMove)
      ensures |Standing(teams)| >= 2 ==> over == old(over) && winningTeam == old(winningTeam)
      ensures |Standing(teams)| <= 1 ==> over
      ensures |Standing(teams)| == 1 ==> winningTeam == Some(Standing(teams)[0])
      ensures |Standing(teams)| == 0 ==> winningTeam == None
    {
      // The stats read by Standing exist already, so finding a survivor leaves them as they were.
      assert forall s :: s in StatsOf(teams) ==> allocated(s);
      var survivor, several := FindSurvivor(teams);
      if several {
        return;
      }
      over := true;
      winningTeam := survivor;
    }

    /** Whether every player still to move on the moving team is knocked out. */
    predicate RemainingOut()
      requires Valid()
      reads this, teams, teams[movingTeamIndex].members.Values
    {
      forall p :: p in yetToMove ==> teams[movingTeamIndex].members[p].IsOut()
    }

    /**
     * Why a player may not move now, if they may not: combat is over, the
     * player is not on the moving team, has already moved or is knocked out,
     * checked in that order.
     */
    function MoveRefusal(p: string): (r: Option<Exception>)
      requires Valid()
      reads this, teams, teams[movingTeamIndex].members.Values
      ensures r.None? <==> !over && p in yetToMove && !teams[movingTeamIndex].members[p].IsOut()
      ensures over ==> r == Some(IllegalState("Combat is over, so no one may move"))
      ensures !over && p !in teams[movingTeamIndex].members ==>
        r == Some(IllegalArgument("Player " + p + " is not on the moving team " + teams[movingTeamIndex].name))
      ensures !over && p in teams[movingTeamIndex].members && p !in yetToMove ==>
        r == Some(IllegalArgument("Player " + p + " has already moved"))
      ensures !over && p in yetToMove && teams[movingTeamIndex].members[p].IsOut() ==>
        r == Some(IllegalArgument("Player " + p + " is knocked out"))
    {
      var team := teams[movingTeamIndex];
      if over then Some(IllegalState("Combat is over, so no one may move"))
      else if !team.IsMember(p) then
        Some(IllegalArgument("Player " + p + " is not on the moving team " + team.name))
      else if p !in yetToMove then Some(IllegalArgument("Player " + p + " has already moved"))
      else if team.members[p].IsOut() then Some(IllegalArgument("Player " + p + " is knocked out"))
      else None
    }

    /**
     * A player's move. A refused move changes nothing. Otherwise the player
     * has moved; combat may end; and when no one fit to move remains on the
     * moving team, the next team moves, wrapping around into a new round.
     */
    method Move(p: string) returns (r: Result<MoveResult, Exception>)
      requires Valid()
      modifies this
      ensures Valid()
      ensures r.Failure? <==> old(MoveRefusal(p)).Some?
      ensures r.Failure? ==>
        r.error == old(MoveRefusal(p)).value
        && round == old(round) && movingTeamIndex == old(movingTeamIndex)
        && yetToMove == old(yetToMove) && over == old(over) && winningTeam == old(winningTeam)
      ensures r.Success? && |Standing(teams)| <= 1 ==>
        over && r.value.over && yetToMove == old(yetToMove) - {p}
        && Turn() == old(Turn())
        && r.value.winner == (if |Standing(teams)| == 1 then Some(Standing(teams)[0].name) else None)
      ensures r.Success? && |Standing(teams)| >= 2 ==>
        over == old(over) && !r.value.over && winningTeam == old(winningTeam)
      ensures r.Success? && |Standing(teams)| >= 2 ==>
        (r.value.newMovingTeam.Some? <==>
           forall q :: q in old(yetToMove) - {p} ==> teams[old(movingTeamIndex)].members[q].IsOut())
      ensures r.Success? && |Standing(teams)| >= 2 && r.value.newMovingTeam.None? ==>
        yetToMove == old(yetToMove) - {p} && yetToMove != {}
        && Turn() == old(Turn()) && r.value.newRound.None?
      ensures r.Success? && |Standing(teams)| >= 2 && r.value.newMovingTeam.Some? ==>
        Turn() == old(Turn()) + 1
        && yetToMove == teams[movingTeamIndex].members.Keys
        && r.value.newMovingTeam == Some(teams[movingTeamIndex].name)
        && r.value.newRound == (if movingTeamIndex == 0 then Some(round) else None)
    {
      var refusal := MoveRefusal(p);
      if refusal.Some? {
        return Failure(refusal.value);
      }
      yetToMove := yetToMove - {p};

      CheckIfOver();
      assert unchanged(teams) && unchanged(StatsOf(teams));
      if over {
        var winner := if winningTeam.Some? then Some(winningTeam.value.name) else None;
        return Success(MoveResult(None, None, true, winner));
      }

      if yetToMove == {} || RemainingOut() {
        var wrapped := Advance();
        assert unchanged(teams) && unchanged(StatsOf(teams));
        return Success(MoveResult(Some(teams[movingTeamIndex].name),
                                  if wrapped then Some(round) else None, false, None));
      }
      return Success(MoveResult(None, None, false, None));
    }

    /** Hands the move to the next team, wrapping around into a new round. */
    method Advance() returns (wrapped: bool)
      requires Valid()
      modifies this
      ensures Valid()
      ensures Turn() == old(Turn()) + 1
      ensures wrapped <==> movingTeamIndex == 0
      ensures yetToMove == teams[movingTeamIndex].members.Keys
      ensures over == old(over) && winningTeam == old(winningTeam)
    {
      movingTeamIndex := movingTeamIndex + 1;
      wrapped := false;
      if movingTeamIndex >= |teams| {
        wrapped := true;
        movingTeamIndex := 0;
        round := round + 1;
      }
      yetToMove := teams[movingTeamIndex].members.Keys;
    }
  }

  /**
   * The loop of checkIfOver: walks the teams looking for a standing one,
   * and stops at a second; the first one found when no second exists.
   */
  method FindSurvivor(ts: seq<GrappleTeam>) returns (survivor: Option<GrappleTeam>, several: bool)
    ensures several <==> |Standing(ts)| >= 2
    ensures !several ==> (survivor.None? <==> |Standing(ts)| == 0)
    ensures !several && survivor.Some? ==> survivor.value == Standing(ts)[0]
  {
    survivor := None;
    var i := 0;
    while i < |ts|
      invariant 0 <= i <= |ts|
      invariant |Standing(ts[..i])| <= 1
      invariant survivor.None? <==> |Standing(ts[..i])| == 0
      invariant survivor.Some? ==> survivor.value == Standing(ts[..i])[0]
    {
      StandingStep(ts, i);
      if !ts[i].IsOut() {
        if survivor.Some? {
          StandingPrefix(ts, i + 1);
          return survivor, true;
        }
        survivor := Some(ts[i]);
      }
      i := i + 1;
    }
    assert ts[..i] == ts;
    return survivor, false;
  }

  /** The standing teams of a prefix are among the first standing teams of the whole list. */
  lemma StandingPrefix(ts: seq<GrappleTeam>, k: nat)
    requires k <= |ts|
    ensures |Standing(ts[..k])| <= |Standing(ts)|
  {
    StandingAppend(ts[..k], ts[k..]);
    assert ts[..k] + ts[k..] == ts;
  }

  lemma StandingStep(ts: seq<GrappleTeam>, i: int)
    requires 0 <= i < |ts|
    ensures Standing(ts[..i + 1]) == Standing(ts[..i]) + (if ts[i].IsOut() then [] else [ts[i]])
  {
    StandingAppend(ts[..i], [ts[i]]);
    assert ts[..i + 1] == ts[..i] + [ts[i]];
  }

  lemma {:induction false} StandingAppend(a: seq<GrappleTeam>, b: seq<GrappleTeam>)
    ensures Standing(a + b) == Standing(a) + Standing(b)
    decreases |a|
  {
    if |a| > 0 {
      assert (a + b)[1..] == a[1..] + b;
      StandingAppend(a[1..], b);
    } else {
      assert a + b == b;
    }
  }

  /**
   * GrappleEngine.Builder: the teams and the saved turn state, checked when
   * the engine is built.
   */
  class EngineBuilder {
    var teams: seq<GrappleTeam>
    var round: int
    var movingTeamIndex: int
    var yetToMove: set<string>
    var over: bool
    var winningTeam: Option<GrappleTeam>

    ghost predicate Valid()
      reads this
    {
      round >= 0 && movingTeamIndex >= 0
    }

    /** A new builder: no teams, combat not started, the first team moving. */
    constructor ()
      ensures Valid()
      ensures teams == [] && round == ROUND_NOT_STARTED && movingTeamIndex == 0
      ensures yetToMove == {} && !over && winningTeam == None
    {
      teams := [];
      round := ROUND_NOT_STARTED;
      movingTeamIndex := 0;
      yetToMove := {};
      over := false;
      winningTeam := None;
    }

    method AddTeam(t: GrappleTeam)
      modifies this
      ensures teams == old(teams) + [t]
      ensures round == old(round) && movingTeamIndex == old(movingTeamIndex)
      ensures yetToMove == old(yetToMove) && over == old(over) && winningTeam == old(winningTeam)
    {
      teams := teams + [t];
    }

    method Round(r: int) returns (err: Option<Exception>)
      modifies this
      ensures err.Some? <==> r <= 0
      ensures err.Some? ==> err.value == IllegalArgument("round must be positive") && round == old(round)
      ensures err.None? ==> round == r
      ensures teams == old(teams) && movingTeamIndex == old(movingTeamIndex)
      ensures yetToMove == old(yetToMove) && over == old(over) && winningTeam == old(winningTeam)
    {
      if r <= 0 {
        return Some(IllegalArgument("round must be positive"));
      }
      round := r;
      return None;
    }

    method MovingTeamIndex(i: int) returns (err: Option<Exception>)
      modifies this
      ensures err.Some? <==> i < 0
      ensures err.Some? ==>
        err.value == IllegalArgument("movingTeamIndex must be non-negative")
        && movingTeamIndex == old(movingTeamIndex)
      ensures err.None? ==> movingTeamIndex == i
      ensures teams == old(teams) && round == old(round)
      ensures yetToMove == old(yetToMove) && over == old(over) && winningTeam == old(winningTeam)
    {
      if i < 0 {
        return Some(IllegalArgument("movingTeamIndex must be non-negative"));
      }
      movingTeamIndex := i;
      return None;
    }

    method AddYetToMove(p: string)
      modifies this
      ensures yetToMove == old(yetToMove) + {p}
      ensures teams == old(teams) && round == old(round) && movingTeamIndex == old(movingTeamIndex)
      ensures over == old(over) && winningTeam == old(winningTeam)
    {
      yetToMove := yetToMove + {p};
    }

    method Over(b: bool)
      modifies this
      ensures over == b
      ensures teams == old(teams) && round == old(round) && movingTeamIndex == old(movingTeamIndex)
      ensures yetToMove == old(yetToMove) && winningTeam == old(winningTeam)
    {
      over := b;
    }

    method WinningTeam(t: Option<GrappleTeam>)
      modifies this
      ensures winningTeam == t
      ensures teams == old(teams) && round == old(round) && movingTeamIndex == old(movingTeamIndex)
      ensures yetToMove == old(yetToMove) && over == old(over)
    {
      winningTeam := t;
    }

    /** Builds the engine, or names the first check the saved state fails. */
    method Build() returns (r: Result<GrappleEngine, Exception>)
      requires Valid()
      ensures r.Failure? <==> BuildError(teams, round, movingTeamIndex, yetToMove, over, winningTeam).Some?
      ensures r.Failure? ==> r.error == BuildError(teams, round, movingTeamIndex, yetToMove, over, winningTeam).value
      ensures r.Success? ==>
        fresh(r.value) && r.value.Valid()
        && r.value.teams == teams && r.value.round == round
        && r.value.movingTeamIndex == movingTeamIndex && r.value.yetToMove == yetToMove
        && r.value.over == over && r.value.winningTeam == winningTeam
    {
      var e := BuildError(teams, round, movingTeamIndex, yetToMove, over, winningTeam);
      if e.Some? {
        return Failure(e.value);
      }
      var engine := new GrappleEngine(teams, round, movingTeamIndex, yetToMove, over, winningTeam);
      return Success(engine);
    }
  }

  /** The checks GrappleEngine.Builder.build makes, in order. */
  function BuildError(teams: seq<GrappleTeam>, round: int, index: int, yetToMove: set<string>,
                      over: bool, winner: Option<GrappleTeam>): (r: Option<Exception>)
    requires index >= 0
    reads teams
    ensures r.None? ==>
      |teams| >= 2 && index < |teams| && yetToMove <= teams[index].members.Keys
      && (round == ROUND_NOT_STARTED || over || yetToMove != {})
      && (winner.Some? ==> over && exists t :: t in teams && t.name == winner.value.name)
    ensures |teams| < 2 ==> r == Some(IllegalState("At least two teams are required"))
    ensures |teams| >= 2 && index >= |teams| ==>
      r == Some(IllegalState("Moving team index may not exceed " + DecimalString(|teams| - 1)))
  {
    if |teams| < 2 then Some(IllegalState("At least two teams are required"))
    else if index >= |teams| then
      Some(IllegalState("Moving team index may not exceed " + DecimalString(|teams| - 1)))
    else if !(round == ROUND_NOT_STARTED || over || yetToMove != {}) then
      Some(IllegalState("Since combat isn't over, at least one player must be yet to move"))
    else if !(yetToMove <= teams[index].members.Keys) then
      Some(IllegalState("Some yet-to-move players are not on the moving team"))
    else if winner.Some? && !over then
      Some(IllegalState("A winning team may not be provided when combat isn't over"))
    else if winner.Some? && !(exists t :: t in teams && t.name == winner.value.name) then
      Some(IllegalState("The winning team is not a listed team"))
    else None
  }

  /**
   * The AD a player keeps when combat ends: half the SD, rounded toward zero
   * after adding one, is converted, in Java int arithmetic (both additions
   * wrap around).
   */
  function DrainedAd(ad: int, sd: int, apMaxSize: int): (r: int)
  {
    var finalAd := WrapInt32(ad + JavaDiv(WrapInt32(sd + 1), 2));
    if finalAd > apMaxSize then apMaxSize else finalAd
  }

  /**
   * Draining never exceeds the AP maximum, and with no negative strike dice
   * and no overflow the player gains half their SD, rounded up, as far as
   * the maximum allows.
   */
  lemma DrainedAdBounds(ad: int, sd: int, apMaxSize: int)
    requires IsInt32(ad) && IsInt32(sd)
    ensures DrainedAd(ad, sd, apMaxSize) <= apMaxSize
    ensures 0 <= sd < INT_MAX && ad + (sd + 1) / 2 <= INT_MAX ==>
      DrainedAd(ad, sd, apMaxSize) == Min(ad + (sd + 1) / 2, apMaxSize)
    ensures 0 <= sd < INT_MAX && ad + (sd + 1) / 2 <= INT_MAX && ad <= apMaxSize ==>
      ad <= DrainedAd(ad, sd, apMaxSize)
  {
    if 0 <= sd < INT_MAX {
      assert WrapInt32(sd + 1) == sd + 1;
      assert JavaDiv(sd + 1, 2) == (sd + 1) / 2;
    }
  }

  /**
   * At Integer.MAX_VALUE strike dice, sd + 1 wraps to Integer.MIN_VALUE, so
   * a player with no AD drains to a negative AD rather than to the maximum.
   */
  lemma DrainedAdAtMaxSd(apMaxSize: int)
    requires 0 <= apMaxSize
    ensures DrainedAd(0, INT_MAX, apMaxSize) == -0x4000_0000
  {
    assert WrapInt32(INT_MAX + 1) == INT_MIN;
    assert JavaDiv(INT_MIN, 2) == -0x4000_0000;
  }

  /**
   * Writes a player's final AD and zero SD back to their attributes. The
   * AP maximum is read from the player's own attribute, which must exist
   * and hold an integer.
   */
  method DrainStats(player: Thing, playerName: string, stats: BaseStats) returns (err: Option<Exception>)
    requires player.Valid() && stats.Valid()
    modifies player
    ensures player.Valid() && player.contents == old(player.contents)
    ensures ATTR_NAME_AP_MAX_SIZE !in old(player.attrs) ==>
      err == Some(IllegalArgument("Player " + playerName + " is missing attribute " + ATTR_NAME_AP_MAX_SIZE))
    ensures err.None? <==>
      ATTR_NAME_AP_MAX_SIZE in old(player.attrs) && GetIntValue(old(player.attrs)[ATTR_NAME_AP_MAX_SIZE]).Success?
    ensures err.Some? ==> player.attrs == old(player.attrs)
    ensures err.None? ==>
      var ap := GetIntValue(old(player.attrs)[ATTR_NAME_AP_MAX_SIZE]).value;
      var ad := DrainedAd(stats.ad, stats.sd, ap);
      IsInt32(ad)
      && player.attrs == old(player.attrs)[ATTR_NAME_AD := IntAttr(ATTR_NAME_AD, ad)][ATTR_NAME_SD := IntAttr(ATTR_NAME_SD, 0)]
  {
    var apAttr := player.GetAttr(ATTR_NAME_AP_MAX_SIZE);
    if apAttr.None? {
      return Some(IllegalArgument("Player " + playerName + " is missing attribute " + ATTR_NAME_AP_MAX_SIZE));
    }
    var ap := GetIntValue(apAttr.value);
    if ap.Failure? {
      return Some(ap.error);
    }
    var finalAd := DrainedAd(stats.ad, stats.sd, ap.value);
    player.SetAttr(IntAttr(ATTR_NAME_AD, finalAd));
    player.SetAttr(IntAttr(ATTR_NAME_SD, 0));
    return None;
  }
}
