/**
 * A combatant's statistics in the Grapple combat system
 * (combat/grapple/BaseStats.java): fixed skill ratings and limits, and the
 * action dice (AD), strike dice (SD) and wounds that change during combat.
 *
 * Skills are identified by name. Skill.java and Limits.java are not part of
 * this model: the builder takes the limits as a parameter.
 */
module GrappleStats {
  import opened Base

  /**
   * The bounds the builder enforces. Each minimum is also the builder's
   * default, so a minimum may not exceed its maximum.
   */
  datatype Limits = Limits(
    minApMaxSize: int, maxApMaxSize: int,
    minDefense: int, maxDefense: int,
    minMaxWounds: int, maxMaxWounds: int)
  {
    predicate WellFormed()
    {
      0 <= minApMaxSize <= maxApMaxSize <= INT_MAX && minDefense <= maxDefense
      && 0 <= minMaxWounds <= maxMaxWounds <= INT_MAX
    }
  }

  /** BaseStats.bound: n clamped to [lo, hi], checking the lower end first. */
  function Bound(n: int, lo: int, hi: int): (r: int)
    ensures lo <= hi ==> lo <= r <= hi
    ensures lo <= n <= hi ==> r == n
    ensures n < lo ==> r == lo
    ensures lo <= n && hi < n ==> r == hi
  {
    if n < lo then lo else if n > hi then hi else n
  }

  /** Whether every recorded skill use is true (vacuously so with none). */
  predicate AllUsed(uses: map<string, bool>)
  {
    forall k :: k in uses ==> uses[k]
  }

  /** A used skill stays used, and marking one skill used completes the set exactly when it was the only one missing. */
  lemma UseCompletes(uses: map<string, bool>, sk: string)
    ensures AllUsed(uses[sk := true]) <==> forall k :: k in uses && k != sk ==> uses[k]
    ensures AllUsed(uses) ==> AllUsed(uses[sk := true])
  {
    var m := uses[sk := true];
    if forall k :: k in uses && k != sk ==> uses[k] {
      forall k | k in m
        ensures m[k]
      {
        if k != sk {
          assert k in uses;
        }
      }
    } else {
      var k :| k in uses && k != sk && !uses[k];
      assert k in m && !m[k];
    }
  }

  class BaseStats {
    const skills: map<string, int>
    var skillUses: map<string, bool>
    const apMaxSize: int
    const defense: int
    const maxWounds: int

    var ad: int
    var sd: int
    var wounds: int

    /** Ratings are 2 to 4, AD stays in [0, apMaxSize] and wounds never exceed their maximum. */
    ghost predicate Valid()
      reads this
    {
      (forall k :: k in skills ==> 2 <= skills[k] <= 4)
      && 0 <= ad <= apMaxSize && wounds <= maxWounds && 0 <= maxWounds
      // the counters and their limits are Java ints
      && IsInt32(apMaxSize) && IsInt32(maxWounds) && IsInt32(sd) && IsInt32(wounds)
    }

    /** Every skill starts unused; the counters start at zero. */
    constructor (skills: map<string, int>, apMaxSize: int, defense: int, maxWounds: int)
      ensures this.skills == skills && this.apMaxSize == apMaxSize
      ensures this.defense == defense && this.maxWounds == maxWounds
      ensures skillUses.Keys == skills.Keys && forall k :: k in skillUses ==> !skillUses[k]
      ensures ad == 0 && sd == 0 && wounds == 0
      ensures ((forall k :: k in skills ==> 2 <= skills[k] <= 4)
               && 0 <= apMaxSize <= INT_MAX && 0 <= maxWounds <= INT_MAX) ==> Valid()
    {
      this.skills := skills;
      this.apMaxSize := apMaxSize;
      this.defense := defense;
      this.maxWounds := maxWounds;
      skillUses := map k | k in skills :: false;
      ad := 0;
      sd := 0;
      wounds := 0;
    }

    /**
     * Sets the counters. AD outside [0, apMaxSize] is refused before
     * anything changes; too many wounds are refused after AD and SD are
     * already set.
     */
    method Init(ad: int, sd: int, wounds: int) returns (err: Option<Exception>)
      requires Valid() && IsInt32(sd) && IsInt32(wounds)
      modifies this
      ensures Valid()
      ensures skillUses == old(skillUses)
      ensures ad > apMaxSize ==>
        err == Some(IllegalArgument("ad may not exceed " + DecimalString(apMaxSize)))
        && this.ad == old(this.ad) && this.sd == old(this.sd) && this.wounds == old(this.wounds)
      ensures ad <= apMaxSize && ad < 0 ==>
        err == Some(IllegalArgument("ad must be non-negative"))
        && this.ad == old(this.ad) && this.sd == old(this.sd) && this.wounds == old(this.wounds)
      ensures 0 <= ad <= apMaxSize ==> this.ad == ad && this.sd == sd
      ensures 0 <= ad <= apMaxSize && wounds > maxWounds ==>
        err == Some(IllegalArgument("wounds may not exceed " + DecimalString(maxWounds)))
        && this.wounds == old(this.wounds)
      ensures err.None? <==> 0 <= ad <= apMaxSize && wounds <= maxWounds
      ensures err.None? ==> this.wounds == wounds
    {
      if ad > apMaxSize {
        return Some(IllegalArgument("ad may not exceed " + DecimalString(apMaxSize)));
      }
      if ad < 0 {
        return Some(IllegalArgument("ad must be non-negative"));
      }
      this.ad := ad;
      this.sd := sd;
      if wounds > maxWounds {
        return Some(IllegalArgument("wounds may not exceed " + DecimalString(maxWounds)));
      }
      this.wounds := wounds;
      return None;
    }

    /** The rating of a skill the stats have; any other skill is an error. */
    function GetRating(sk: string): (r: Result<int, Exception>)
      reads this
      ensures r.Success? <==> sk in skills
      ensures r.Success? ==> r.value == skills[sk]
      ensures r.Failure? ==> r.error == IllegalArgument("Skill " + sk + " not present")
    {
      if sk !in skills then Failure(IllegalArgument("Skill " + sk + " not present"))
      else Success(skills[sk])
    }

    /** Marks a skill used; a skill never recorded gains an entry. */
    method UseSkill(sk: string)
      modifies this
      ensures skillUses == old(skillUses)[sk := true]
      ensures ad == old(ad) && sd == old(sd) && wounds == old(wounds)
    {
      skillUses := skillUses[sk := true];
    }

    /** Whether a skill was used; unboxing the missing entry of an unknown skill fails. */
    function IsUsed(sk: string): (r: Result<bool, Exception>)
      reads this
      ensures r.Success? <==> sk in skillUses
      ensures r.Success? ==> r.value == skillUses[sk]
    {
      if sk in skillUses then Success(skillUses[sk]) else Failure(NullPointer(""))
    }

    predicate AllSkillsUsed()
      reads this
    {
      AllUsed(skillUses)
    }

    /** Clears every recorded use, one skill at a time. */
    method ResetSkillUses()
      modifies this
      ensures skillUses.Keys == old(skillUses).Keys
      ensures forall k :: k in skillUses ==> !skillUses[k]
      ensures AllSkillsUsed() <==> skillUses == map[]
      ensures ad == old(ad) && sd == old(sd) && wounds == old(wounds)
    {
      var todo := skillUses.Keys;
      while todo != {}
        invariant todo <= skillUses.Keys
        invariant skillUses.Keys == old(skillUses).Keys
        invariant forall k :: k in skillUses && k !in todo ==> !skillUses[k]
        invariant ad == old(ad) && sd == old(sd) && wounds == old(wounds)
        decreases |todo|
      {
        var k :| k in todo;
        skillUses := skillUses[k := false];
        todo := todo - {k};
      }
      if skillUses != map[] {
        var k :| k in skillUses;
        assert !skillUses[k];
      }
    }

    /** Adds to AD as Java ints add (wrapping around), clamps to [0, apMaxSize], and returns the new AD. */
    method AddAd(amt: int) returns (r: int)
      requires Valid() && IsInt32(amt)
      modifies this
      ensures Valid()
      ensures r == ad && ad == Bound(WrapInt32(old(ad) + amt), 0, apMaxSize)
      ensures sd == old(sd) && wounds == old(wounds) && skillUses == old(skillUses)
    {
      ad := Bound(WrapInt32(ad + amt), 0, apMaxSize);
      return ad;
    }

    /** Sets AD, clamped to [0, apMaxSize], and returns the new AD. */
    method SetAd(amt: int) returns (r: int)
      requires Valid()
      modifies this
      ensures Valid()
      ensures r == ad && ad == Bound(amt, 0, apMaxSize)
      ensures sd == old(sd) && wounds == old(wounds) && skillUses == old(skillUses)
    {
      ad := Bound(amt, 0, apMaxSize);
      return ad;
    }

    /** Adds to SD as Java ints add (wrapping around), with no clamping at either end. */
    method AddSd(amt: int) returns (r: int)
      requires Valid() && IsInt32(amt)
      modifies this
      ensures Valid()
      ensures r == sd && sd == WrapInt32(old(sd) + amt)
      ensures ad == old(ad) && wounds == old(wounds) && skillUses == old(skillUses)
    {
      sd := WrapInt32(sd + amt);
      return sd;
    }

    /** Sets SD to any int. */
    method SetSd(amt: int) returns (r: int)
      requires Valid() && IsInt32(amt)
      modifies this
      ensures Valid()
      ensures r == sd && sd == amt
      ensures ad == old(ad) && wounds == old(wounds) && skillUses == old(skillUses)
    {
      sd := amt;
      return sd;
    }

    /** Adds wounds as Java ints add (a negative amount heals), clamped to [0, maxWounds]. */
    method Wound(amt: int) returns (r: int)
      requires Valid() && IsInt32(amt)
      modifies this
      ensures Valid()
      ensures r == wounds && wounds == Bound(WrapInt32(old(wounds) + amt), 0, maxWounds)
      ensures 0 <= wounds <= maxWounds
      ensures ad == old(ad) && sd == old(sd) && skillUses == old(skillUses)
    {
      wounds := Bound(WrapInt32(wounds + amt), 0, maxWounds);
      return wounds;
    }

    predicate IsOut()
      reads this
    {
      wounds >= maxWounds
    }
  }

  /**
   * Wounding by enough knocks out and healing by one revives: a combatant is
   * out exactly when wounds have reached the maximum.
   */
  lemma WoundOutcome(wounds: int, maxWounds: int, amt: int)
    requires wounds <= maxWounds && 0 < maxWounds
    ensures (Bound(WrapInt32(wounds + amt), 0, maxWounds) >= maxWounds) <==> WrapInt32(wounds + amt) >= maxWounds
  {
  }

  /**
   * A Java int sum that runs past Integer.MAX_VALUE wraps to a negative
   * number, so adding a large amount to AD or to the wounds clamps them to
   * zero: at AD 1, addAd(Integer.MAX_VALUE) leaves no action dice.
   */
  lemma OverflowClampsToZero(x: int, amt: int, hi: int)
    requires 0 <= x <= hi <= INT_MAX && IsInt32(amt) && x + amt > INT_MAX
    ensures Bound(WrapInt32(x + amt), 0, hi) == 0
  {
    assert WrapInt32(x + amt) == x + amt - 0x1_0000_0000;
  }

  /** The checks build makes: some skills, and for a non-NPC exactly three rated 2, 3 and 4. */
  function ValidateSkills(skills: Option<map<string, int>>, npc: bool): (r: Option<Exception>)
    ensures r.None? <==>
      skills.Some? && (npc || (|skills.value| == 3 && 2 in skills.value.Values
        && 3 in skills.value.Values && 4 in skills.value.Values))
    ensures skills.None? ==> r == Some(IllegalState("No skills are set"))
    ensures skills.Some? && !npc && |skills.value| != 3 ==>
      r == Some(IllegalState("Exactly 3 skills are required"))
  {
    if skills.None? then Some(IllegalState("No skills are set"))
    else if npc then None
    else if |skills.value| != 3 then Some(IllegalState("Exactly 3 skills are required"))
    else if 2 !in skills.value.Values then Some(MissingRating(2))
    else if 3 !in skills.value.Values then Some(MissingRating(3))
    else if 4 !in skills.value.Values then Some(MissingRating(4))
    else None
  }

  function MissingRating(i: int): Exception
  {
    IllegalState("No skill with rating " + DecimalString(i) + " is set")
  }

  /**
   * A non-NPC passes validation exactly with three skills, one rated 2, one
   * rated 3 and one rated 4, when every rating is between 2 and 4.
   */
  lemma {:induction false} ThreeRatedSkills(m: map<string, int>)
    requires forall k :: k in m ==> 2 <= m[k] <= 4
    requires ValidateSkills(Some(m), false).None?
    ensures exists a, b, c :: m == map[a := 2, b := 3, c := 4]
  {
    var a :| a in m && m[a] == 2;
    var b :| b in m && m[b] == 3;
    var c :| c in m && m[c] == 4;
    var abc := map[a := 2, b := 3, c := 4];
    assert {a, b, c} <= m.Keys;
    assert |{a, b, c}| == 3;
    assert |m.Keys| == 3;
    FillsSet({a, b, c}, m.Keys);
    assert m == abc;
  }

  /** BaseStats.Builder: collects skills and limits, checking each as it is set. */
  class Builder {
    const limits: Limits
    var skills: Option<map<string, int>>
    var apMaxSize: int
    var defense: int
    var maxWounds: int
    var npc: bool

    /** Each rating is 2 to 4 and each limit is within its bounds. */
    ghost predicate Valid()
      reads this
    {
      limits.WellFormed()
      && (skills.Some? ==> skills.value != map[] && forall k :: k in skills.value ==> 2 <= skills.value[k] <= 4)
      && limits.minApMaxSize <= apMaxSize <= limits.maxApMaxSize
      && limits.minDefense <= defense <= limits.maxDefense
      && limits.minMaxWounds <= maxWounds <= limits.maxMaxWounds
    }

    /** A new builder has no skills, the minimum limits and is not for an NPC. */
    constructor (limits: Limits)
      requires limits.WellFormed()
      ensures Valid() && this.limits == limits
      ensures skills == None && !npc
      ensures apMaxSize == limits.minApMaxSize && defense == limits.minDefense
      ensures maxWounds == limits.minMaxWounds
    {
      this.limits := limits;
      skills := None;
      apMaxSize := limits.minApMaxSize;
      defense := limits.minDefense;
      maxWounds := limits.minMaxWounds;
      npc := false;
    }

    /** Rates a skill 2 to 4, replacing any earlier rating of it. */
    method Skill(sk: string, rating: int) returns (err: Option<Exception>)
      requires Valid()
      modifies this
      ensures Valid()
      ensures err.Some? <==> !(2 <= rating <= 4)
      ensures err.Some? ==> err.value == IllegalArgument("rating must be between 2 and 4") && skills == old(skills)
      ensures err.None? ==> skills == Some((if old(skills).Some? then old(skills).value else map[])[sk := rating])
      ensures apMaxSize == old(apMaxSize) && defense == old(defense)
      ensures maxWounds == old(maxWounds) && npc == old(npc)
    {
      if !(2 <= rating <= 4) {
        return Some(IllegalArgument("rating must be between 2 and 4"));
      }
      var m := if skills.Some? then skills.value else map[];
      assert sk in m[sk := rating];
      skills := Some(m[sk := rating]);
      return None;
    }

    method ApMaxSize(n: int) returns (err: Option<Exception>)
      requires Valid()
      modifies this
      ensures Valid()
      ensures n < limits.minApMaxSize ==>
        err == Some(IllegalArgument("apMaxSize must be at least " + DecimalString(limits.minApMaxSize)))
      ensures limits.minApMaxSize <= n && n > limits.maxApMaxSize ==>
        err == Some(IllegalArgument("apMaxSize must be no more than " + DecimalString(limits.maxApMaxSize)))
      ensures err.None? <==> limits.minApMaxSize <= n <= limits.maxApMaxSize
      ensures apMaxSize == if err.None? then n else old(apMaxSize)
      ensures skills == old(skills) && defense == old(defense)
      ensures maxWounds == old(maxWounds) && npc == old(npc)
    {
      if n < limits.minApMaxSize {
        return Some(IllegalArgument("apMaxSize must be at least " + DecimalString(limits.minApMaxSize)));
      }
      if n > limits.maxApMaxSize {
        return Some(IllegalArgument("apMaxSize must be no more than " + DecimalString(limits.maxApMaxSize)));
      }
      apMaxSize := n;
      return None;
    }

    method Defense(n: int) returns (err: Option<Exception>)
      requires Valid()
      modifies this
      ensures Valid()
      ensures n < limits.minDefense ==>
        err == Some(IllegalArgument("defense must be at least " + DecimalString(limits.minDefense)))
      ensures limits.minDefense <= n && n > limits.maxDefense ==>
        err == Some(IllegalArgument("defense must be no more than " + DecimalString(limits.maxDefense)))
      ensures err.None? <==> limits.minDefense <= n <= limits.maxDefense
      ensures defense == if err.None? then n else old(defense)
      ensures skills == old(skills) && apMaxSize == old(apMaxSize)
      ensures maxWounds == old(maxWounds) && npc == old(npc)
    {
      if n < limits.minDefense {
        return Some(IllegalArgument("defense must be at least " + DecimalString(limits.minDefense)));
      }
      if n > limits.maxDefense {
        return Some(IllegalArgument("defense must be no more than " + DecimalString(limits.maxDefense)));
      }
      defense := n;
      return None;
    }

    method MaxWounds(n: int) returns (err: Option<Exception>)
      requires Valid()
      modifies this
      ensures Valid()
      ensures n < limits.minMaxWounds ==>
        err == Some(IllegalArgument("maxWounds must be at least " + DecimalString(limits.minMaxWounds)))
      ensures limits.minMaxWounds <= n && n > limits.maxMaxWounds ==>
        err == Some(IllegalArgument("maxWounds must be no more than " + DecimalString(limits.maxMaxWounds)))
      ensures err.None? <==> limits.minMaxWounds <= n <= limits.maxMaxWounds
      ensures maxWounds == if err.None? then n else old(maxWounds)
      ensures skills == old(skills) && apMaxSize == old(apMaxSize)
      ensures defense == old(defense) && npc == old(npc)
    {
      if n < limits.minMaxWounds {
        return Some(IllegalArgument("maxWounds must be at least " + DecimalString(limits.minMaxWounds)));
      }
      if n > limits.maxMaxWounds {
        return Some(IllegalArgument("maxWounds must be no more than " + DecimalString(limits.maxMaxWounds)));
      }
      maxWounds := n;
      return None;
    }

    method Npc()
      requires Valid()
      modifies this
      ensures Valid() && npc
      ensures skills == old(skills) && apMaxSize == old(apMaxSize)
      ensures defense == old(defense) && maxWounds == old(maxWounds)
    {
      npc := true;
    }

    /**
     * Validates the skills, looking for the ratings 2, 3 and 4 in turn, and
     * builds fresh, valid stats with every skill unused.
     */
    method Build() returns (r: Result<BaseStats, Exception>)
      requires Valid()
      ensures r.Failure? <==> ValidateSkills(skills, npc).Some?
      ensures r.Failure? ==> r.error == ValidateSkills(skills, npc).value
      ensures r.Success? ==>
        fresh(r.value) && r.value.Valid()
        && r.value.skills == skills.value && r.value.apMaxSize == apMaxSize
        && r.value.defense == defense && r.value.maxWounds == maxWounds
        && r.value.ad == 0 && r.value.sd == 0 && r.value.wounds == 0
        && !r.value.AllSkillsUsed() && r.value.skillUses.Keys == skills.value.Keys
    {
      if skills.None? {
        return Failure(IllegalState("No skills are set"));
      }
      var m := skills.value;
      if !npc {
        if |m| != 3 {
          return Failure(IllegalState("Exactly 3 skills are required"));
        }
        for i := 2 to 5
          invariant forall j :: 2 <= j < i ==> j in m.Values
        {
          if i !in m.Values {
            return Failure(MissingRating(i));
          }
        }
      }
      var s := new BaseStats(m, apMaxSize, defense, maxWounds);
      if m != map[] {
        var k :| k in m;
        assert k in s.skillUses && !s.skillUses[k];
      }
      return Success(s);
    }
  }
}
