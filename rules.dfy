/**
 * The dice rules of combat (combat/Rules.java): maneuvers earn strike dice,
 * strikes and skills spend them, and catching breath restores action dice.
 *
 * The dice are an input: `rolls` holds the face of each die the rule rolls,
 * so the model decides nothing at random. The rules act on the stats
 * modelled by GrappleStats.BaseStats, whose counters behave as the stats
 * these rules are written against. A skill's action difficulty is a
 * parameter, since Skill.java is not part of this model.
 */
module CombatRules {
  import opened Base
  import opened GrappleStats

  /** A die succeeds on 3 or more. */
  predicate Succ(n: int)
  {
    n >= 3
  }

  /** The number of successful dice. */
  function CountSuccs(rolls: seq<int>): (c: nat)
    ensures c <= |rolls|
  {
    if |rolls| == 0 then 0
    else CountSuccs(rolls[..|rolls| - 1]) + (if Succ(rolls[|rolls| - 1]) then 1 else 0)
  }

  /** Counting distributes over concatenation of the rolls. */
  lemma {:induction false} CountSuccsAppend(a: seq<int>, b: seq<int>)
    ensures CountSuccs(a + b) == CountSuccs(a) + CountSuccs(b)
    decreases |b|
  {
    if |b| > 0 {
      assert (a + b)[..|a + b| - 1] == a + b[..|b| - 1];
      CountSuccsAppend(a, b[..|b| - 1]);
    } else {
      assert a + b == a;
    }
  }

  /** No success exactly when every die fails; every die succeeding counts them all. */
  lemma {:induction false} CountSuccsExtremes(rolls: seq<int>)
    ensures CountSuccs(rolls) == 0 <==> forall i :: 0 <= i < |rolls| ==> !Succ(rolls[i])
    ensures (forall i :: 0 <= i < |rolls| ==> Succ(rolls[i])) ==> CountSuccs(rolls) == |rolls|
  {
    if |rolls| > 0 {
      var init := rolls[..|rolls| - 1];
      CountSuccsExtremes(init);
      assert forall i :: 0 <= i < |init| ==> init[i] == rolls[i];
    }
  }

  /** Rules.succs: counts the successes one die at a time. */
  method Succs(rolls: seq<int>) returns (sum: nat)
    ensures sum == CountSuccs(rolls)
  {
    sum := 0;
    var i := 0;
    while i < |rolls|
      invariant 0 <= i <= |rolls|
      invariant sum == CountSuccs(rolls[..i])
    {
      assert rolls[..i + 1][..i] == rolls[..i];
      if Succ(rolls[i]) {
        sum := sum + 1;
      }
      i := i + 1;
    }
    assert rolls[..i] == rolls;
  }

  datatype ManeuverOutcome = ManeuverOutcome(success: bool, adSpent: int, sdEarned: int)

  /**
   * A maneuver spends 1 to 3 action dice and rolls them with the skill's
   * rating. No success refunds the AD; otherwise up to five successes become
   * strike dice. An unknown skill fails after the AD are spent.
   */
  method Maneuver(s: BaseStats, skill: string, ad: int, rolls: seq<int>) returns (r: Result<ManeuverOutcome, Exception>)
    requires s.Valid()
    requires 1 <= ad <= 3 && skill in s.skills ==> |rolls| == s.skills[skill] + ad
    modifies s
    ensures s.Valid()
    ensures s.wounds == old(s.wounds) && s.skillUses == old(s.skillUses)
    ensures old(s.ad) < ad ==>
      r == Failure(IllegalArgument("Not enough action dice")) && s.ad == old(s.ad) && s.sd == old(s.sd)
    ensures ad <= old(s.ad) && !(1 <= ad <= 3) ==>
      r == Failure(IllegalArgument("ad must be between 1 and 3")) && s.ad == old(s.ad) && s.sd == old(s.sd)
    ensures ad <= old(s.ad) && 1 <= ad <= 3 && skill !in s.skills ==>
      r == Failure(IllegalArgument("Skill " + skill + " not present"))
      && s.ad == old(s.ad) - ad && s.sd == old(s.sd)
    ensures r.Success? <==> ad <= old(s.ad) && 1 <= ad <= 3 && skill in s.skills
    ensures r.Success? && CountSuccs(rolls) == 0 ==>
      r.value == ManeuverOutcome(false, 0, 0) && s.ad == old(s.ad) && s.sd == old(s.sd)
    ensures r.Success? && CountSuccs(rolls) > 0 ==>
      r.value == ManeuverOutcome(true, ad, Min(CountSuccs(rolls), 5))
      && s.ad == old(s.ad) - ad && s.sd == WrapInt32(old(s.sd) + Min(CountSuccs(rolls), 5))
  {
    if s.ad < ad {
      return Failure(IllegalArgument("Not enough action dice"));
    }
    if !(1 <= ad <= 3) {
      return Failure(IllegalArgument("ad must be between 1 and 3"));
    }
    var _ := s.AddAd(-ad);
    var rating := s.GetRating(skill);
    if rating.Failure? {
      return Failure(rating.error);
    }
    var sdEarned := Succs(rolls);
    var totalFailure := sdEarned == 0;
    if totalFailure {
      var _ := s.AddAd(ad);
    } else {
      if sdEarned > 5 {
        sdEarned := 5;
      }
      var _ := s.AddSd(sdEarned);
    }
    return Success(ManeuverOutcome(!totalFailure, if totalFailure then 0 else ad, sdEarned));
  }

  datatype StrikeOutcome = StrikeOutcome(success: bool, sdSpent: int, numSuccs: int, numWounds: int)

  /**
   * A strike spends 1 to 6 strike dice; each full multiple of the defender's
   * defense among the successes is a wound. No wound refunds the SD. A zero
   * defense fails the division after the SD are spent.
   */
  method Strike(s: BaseStats, sd: int, d: BaseStats, rolls: seq<int>) returns (r: Result<StrikeOutcome, Exception>)
    requires s.Valid() && d.Valid()
    requires 1 <= sd <= 6 ==> |rolls| == sd
    modifies s, d
    ensures s.Valid() && d.Valid()
    ensures s.ad == old(s.ad) && s.skillUses == old(s.skillUses) && d.skillUses == old(d.skillUses)
    ensures d.ad == old(d.ad) && (s != d ==> d.sd == old(d.sd) && s.wounds == old(s.wounds))
    ensures old(s.sd) < sd ==>
      r == Failure(IllegalArgument("Not enough strike dice")) && s.sd == old(s.sd) && d.wounds == old(d.wounds)
    ensures sd <= old(s.sd) && !(1 <= sd <= 6) ==>
      r == Failure(IllegalArgument("sd must be between 1 and 6")) && s.sd == old(s.sd) && d.wounds == old(d.wounds)
    ensures sd <= old(s.sd) && 1 <= sd <= 6 && d.defense == 0 ==>
      r == Failure(Arithmetic("/ by zero")) && s.sd == old(s.sd) - sd && d.wounds == old(d.wounds)
    ensures r.Success? <==> sd <= old(s.sd) && 1 <= sd <= 6 && d.defense != 0
    ensures r.Success? ==>
      var wounds := JavaDiv(CountSuccs(rolls), d.defense);
      r.value.numSuccs == CountSuccs(rolls) && r.value.numWounds == wounds
      && (r.value.success <==> wounds > 0)
      && (wounds > 0 ==>
            r.value.sdSpent == sd && s.sd == old(s.sd) - sd
            && d.wounds == Bound(WrapInt32(old(d.wounds) + wounds), 0, d.maxWounds))
      && (wounds <= 0 ==> r.value.sdSpent == 0 && s.sd == old(s.sd) && d.wounds == old(d.wounds))
  {
    if s.sd < sd {
      return Failure(IllegalArgument("Not enough strike dice"));
    }
    if !(1 <= sd <= 6) {
      return Failure(IllegalArgument("sd must be between 1 and 6"));
    }
    var _ := s.AddSd(-sd);
    var attack := Succs(rolls);
    if d.defense == 0 {
      return Failure(Arithmetic("/ by zero"));
    }
    var numWounds := JavaDiv(attack, d.defense);
    JavaDivBound(attack, d.defense);
    var success := numWounds > 0;
    if success {
      var _ := d.Wound(numWounds);
    } else {
      var _ := s.AddSd(sd);
    }
    return Success(StrikeOutcome(success, if success then sd else 0, attack, numWounds));
  }

  /**
   * With a positive defense, a strike wounds exactly when the successes
   * reach the defense.
   */
  lemma StrikeWoundsWhen(succs: nat, defense: int)
    requires defense > 0
    ensures JavaDiv(succs, defense) > 0 <==> succs >= defense
    ensures JavaDiv(succs, defense) == succs / defense
  {
  }

  datatype SkillActionOutcome = SkillActionOutcome(success: bool, sdSpent: int, numSuccs: int)

  /**
   * A skill action spends 0 to 6 strike dice and rolls them with the
   * skill's rating less two; it succeeds when the successes reach the
   * skill's difficulty. Failure refunds the SD; an unknown skill fails after
   * the SD are spent.
   */
  method SkillAction(s: BaseStats, sd: int, skill: string, difficulty: int, rolls: seq<int>)
    returns (r: Result<SkillActionOutcome, Exception>)
    requires s.Valid()
    requires 0 <= sd <= 6 && skill in s.skills ==> |rolls| == sd + s.skills[skill] - 2
    modifies s
    ensures s.Valid()
    ensures s.ad == old(s.ad) && s.wounds == old(s.wounds) && s.skillUses == old(s.skillUses)
    ensures old(s.sd) < sd ==>
      r == Failure(IllegalArgument("Not enough strike dice")) && s.sd == old(s.sd)
    ensures sd <= old(s.sd) && !(0 <= sd <= 6) ==>
      r == Failure(IllegalArgument("sd must be between 0 and 6")) && s.sd == old(s.sd)
    ensures sd <= old(s.sd) && 0 <= sd <= 6 && skill !in s.skills ==>
      r == Failure(IllegalArgument("Skill " + skill + " not present")) && s.sd == old(s.sd) - sd
    ensures r.Success? <==> sd <= old(s.sd) && 0 <= sd <= 6 && skill in s.skills
    ensures r.Success? ==>
      r.value.numSuccs == CountSuccs(rolls)
      && (r.value.success <==> CountSuccs(rolls) >= difficulty)
      && (r.value.success ==> r.value.sdSpent == sd && s.sd == old(s.sd) - sd)
      && (!r.value.success ==> r.value.sdSpent == 0 && s.sd == old(s.sd))
  {
    if s.sd < sd {
      return Failure(IllegalArgument("Not enough strike dice"));
    }
    if !(0 <= sd <= 6) {
      return Failure(IllegalArgument("sd must be between 0 and 6"));
    }
    var _ := s.AddSd(-sd);
    var rating := s.GetRating(skill);
    if rating.Failure? {
      return Failure(rating.error);
    }
    var attack := Succs(rolls);
    var success := attack >= difficulty;
    if !success {
      var _ := s.AddSd(sd);
    }
    return Success(SkillActionOutcome(success, if success then sd else 0, attack));
  }

  /** Catching breath earns two action dice, as far as the AP maximum allows. */
  method CatchBreath(s: BaseStats) returns (adEarned: int)
    requires s.Valid()
    modifies s
    ensures s.Valid()
    ensures adEarned == 2
    ensures s.ad == Bound(WrapInt32(old(s.ad) + 2), 0, s.apMaxSize)
    ensures old(s.ad) + 2 <= INT_MAX ==> s.ad == Min(old(s.ad) + 2, s.apMaxSize)
    ensures s.sd == old(s.sd) && s.wounds == old(s.wounds) && s.skillUses == old(s.skillUses)
  {
    var _ := s.AddAd(2);
    return 2;
  }
}
