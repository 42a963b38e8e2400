/**
 * An NPC in the Grapple combat system (combat/grapple/GrappleNpc.java). Its
 * combat stats travel as a stats spec of eight ':'-separated parts: the
 * skills rated 4, 3 and 2 (any may be empty, not all), then AP maximum,
 * defense, maximum wounds, AD and SD as integers. Parsing a spec stores the
 * parts as the NPC's combat attributes; the spec is generated back from
 * those attributes.
 */
module GrappleNpcModel {
  import opened Base
  import opened AttrModel
  import opened ThingModel
  import opened GrappleStats
  import opened GrappleEngineModel

  // ---------------------------------------------------------------------
  // Guava's Splitter.on(sep).limit(n).trimResults()

  /**
   * Splitter.limit(n): at most n pieces; once n - 1 pieces are split off,
   * the rest of the text, separators included, is the last piece.
   */
  function SplitLimit(s: string, sep: char, limit: nat): (r: seq<string>)
    requires limit >= 1
    ensures 1 <= |r| <= limit
    ensures |Split(s, sep)| <= limit ==> r == Split(s, sep)
    ensures |Split(s, sep)| > limit ==> |r| == limit && r[..limit - 1] == Split(s, sep)[..limit - 1]
    ensures forall i :: 0 <= i < |r| - 1 ==> sep !in r[i]
  {
    var parts := Split(s, sep);
    if |parts| <= limit then parts
    else parts[..limit - 1] + [Join(parts[limit - 1..], sep)]
  }

  lemma {:induction false} JoinRest(a: seq<string>, b: seq<string>, sep: char)
    requires |b| >= 1
    ensures Join(a + [Join(b, sep)], sep) == Join(a + b, sep)
  {
    if |a| > 0 {
      JoinRest(a[1..], b, sep);
      assert (a + [Join(b, sep)])[1..] == a[1..] + [Join(b, sep)];
      assert (a + b)[1..] == a[1..] + b;
    } else {
      assert a + b == b;
      assert a + [Join(b, sep)] == [Join(b, sep)];
    }
  }

  /** The limited splitter loses nothing: its pieces join back into the text. */
  lemma SplitLimitJoin(s: string, sep: char, limit: nat)
    requires limit >= 1
    ensures Join(SplitLimit(s, sep, limit), sep) == s
  {
    var parts := Split(s, sep);
    JoinSplit(s, sep);
    if |parts| > limit {
      JoinRest(parts[..limit - 1], parts[limit - 1..], sep);
      assert parts[..limit - 1] + parts[limit - 1..] == parts;
    }
  }

  /** trimResults(): every piece trimmed of Guava whitespace. */
  function TrimAll(xs: seq<string>): (r: seq<string>)
    ensures |r| == |xs|
    ensures forall i :: 0 <= i < |xs| ==> r[i] == GuavaTrim(xs[i])
  {
    seq(|xs|, i requires 0 <= i < |xs| => GuavaTrim(xs[i]))
  }

  /** Text that starts and ends with non-whitespace is its own trim. */
  lemma TrimmedIdentity(s: string)
    requires |s| > 0 ==> !IsGuavaWhitespace(s[0]) && !IsGuavaWhitespace(s[|s| - 1])
    ensures GuavaTrim(s) == s
  {
  }

  lemma GuavaTrimIdempotent(s: string)
    ensures GuavaTrim(GuavaTrim(s)) == GuavaTrim(s)
  {
    TrimmedIdentity(GuavaTrim(s));
  }

  /** Trimming only drops characters, so it adds no separator. */
  lemma GuavaTrimKeeps(s: string, c: char)
    requires c !in s
    ensures c !in GuavaTrim(s)
  {
    var t := StripTrailing(s, 1);
    assert forall x :: x in t ==> x in s;
    var r := StripLeading(t, 1);
    assert forall x :: x in r ==> x in t;
  }

  // ---------------------------------------------------------------------
  // Stats specs

  datatype StatsSpec = StatsSpec(
    skill4: string, skill3: string, skill2: string,
    apMaxSize: int, defense: int, maxWounds: int, ad: int, sd: int)

  predicate IntsFit(v: StatsSpec)
  {
    IsInt32(v.apMaxSize) && IsInt32(v.defense) && IsInt32(v.maxWounds) && IsInt32(v.ad) && IsInt32(v.sd)
  }

  /**
   * The specs a parse can yield: skill names free of ':' and of outer
   * whitespace, at least one of them named, and five Java ints.
   */
  predicate Canonical(v: StatsSpec)
  {
    ':' !in v.skill4 && ':' !in v.skill3 && ':' !in v.skill2
    && GuavaTrim(v.skill4) == v.skill4 && GuavaTrim(v.skill3) == v.skill3
    && GuavaTrim(v.skill2) == v.skill2
    && (v.skill4 != "" || v.skill3 != "" || v.skill2 != "")
    && IntsFit(v)
  }

  /** The printed spec, String.format("%s:%s:%s:%d:%d:%d:%d:%d", ...). */
  function FormatStatsSpec(v: StatsSpec): string
  {
    Join(PrintedParts(v), ':')
  }

  function PrintedParts(v: StatsSpec): seq<string>
  {
    [v.skill4, v.skill3, v.skill2, DecimalString(v.apMaxSize), DecimalString(v.defense),
     DecimalString(v.maxWounds), DecimalString(v.ad), DecimalString(v.sd)]
  }

  function EightParts(): Exception { IllegalArgument("statsSpec must have eight parts") }

  function NoSkill(): Exception { IllegalArgument("statsSpec must name at least one skill") }

  /** The checks after the count: at least one skill, then each integer part in turn. */
  function ParseParts(parts: seq<string>): (r: Result<StatsSpec, Exception>)
    requires |parts| == 8
    ensures r.Failure? ==> r.error != EightParts()
    ensures r.Success? ==> IntsFit(r.value)
    ensures r.Failure? <==>
      ((parts[0] == "" && parts[1] == "" && parts[2] == "") || exists i :: 3 <= i < 8 && ParseInt32(parts[i]).None?)
    ensures r.Success? ==>
      r.value.skill4 == parts[0] && r.value.skill3 == parts[1] && r.value.skill2 == parts[2]
      && Some(r.value.apMaxSize) == ParseInt32(parts[3]) && Some(r.value.defense) == ParseInt32(parts[4])
      && Some(r.value.maxWounds) == ParseInt32(parts[5]) && Some(r.value.ad) == ParseInt32(parts[6])
      && Some(r.value.sd) == ParseInt32(parts[7])
  {
    if parts[0] == "" && parts[1] == "" && parts[2] == "" then Failure(NoSkill())
    else
      var apMaxSize :- ParseJavaInt(parts[3]);
      var defense :- ParseJavaInt(parts[4]);
      var maxWounds :- ParseJavaInt(parts[5]);
      var ad :- ParseJavaInt(parts[6]);
      var sd :- ParseJavaInt(parts[7]);
      Success(StatsSpec(parts[0], parts[1], parts[2], apMaxSize, defense, maxWounds, ad, sd))
  }

  /** The trimmed pieces of a spec, as the limited splitter yields them. */
  function SpecParts(spec: string): (parts: seq<string>)
    ensures 1 <= |parts| <= 8
    ensures |parts| == 8 <==> |Split(spec, ':')| >= 8
  {
    TrimAll(SplitLimit(spec, ':', 8))
  }

  /** populateCombatAttributes(String)'s checks, in order: eight parts first. */
  function ParseStatsSpec(spec: string): (r: Result<StatsSpec, Exception>)
    ensures r == Failure(EightParts()) <==> |Split(spec, ':')| < 8
    ensures r.Success? ==> IntsFit(r.value)
  {
    var parts := SpecParts(spec);
    if |parts| != 8 then Failure(EightParts()) else ParseParts(parts)
  }

  lemma DecimalStringChars(n: int)
    ensures forall c :: c in DecimalString(n) ==> c == '-' || IsDigit(c)
    ensures !IsGuavaWhitespace(DecimalString(n)[0])
    ensures IsDigit(DecimalString(n)[|DecimalString(n)| - 1])
  {
    if n < 0 {
      assert DecimalString(n) == "-" + NatString(-n);
    }
  }

  lemma PrintedIntPiece(n: int)
    ensures ':' !in DecimalString(n)
    ensures GuavaTrim(DecimalString(n)) == DecimalString(n)
  {
    DecimalStringChars(n);
    TrimmedIdentity(DecimalString(n));
  }

  lemma PrintedIntParses(n: int)
    requires IsInt32(n)
    ensures ParseJavaInt(DecimalString(n)) == Success(n)
  {
    DecimalRoundTrip(n, INT_MIN, INT_MAX);
  }

  lemma TrimAllIdentity(xs: seq<string>)
    requires forall i :: 0 <= i < |xs| ==> GuavaTrim(xs[i]) == xs[i]
    ensures TrimAll(xs) == xs
  {
  }

  /** Each printed piece is free of separators and already trimmed. */
  lemma PrintedPieces(v: StatsSpec)
    requires Canonical(v)
    ensures forall i :: 0 <= i < 8 ==> ':' !in PrintedParts(v)[i] && GuavaTrim(PrintedParts(v)[i]) == PrintedParts(v)[i]
  {
    PrintedIntPiece(v.apMaxSize);
    PrintedIntPiece(v.defense);
    PrintedIntPiece(v.maxWounds);
    PrintedIntPiece(v.ad);
    PrintedIntPiece(v.sd);
    var xs := PrintedParts(v);
    PiecesHold(xs, ':');
  }

  /** Per-piece facts, gathered into a quantified one. */
  lemma PiecesHold(xs: seq<string>, sep: char)
    requires |xs| == 8
    requires sep !in xs[0] && sep !in xs[1] && sep !in xs[2] && sep !in xs[3]
    requires sep !in xs[4] && sep !in xs[5] && sep !in xs[6] && sep !in xs[7]
    requires GuavaTrim(xs[0]) == xs[0] && GuavaTrim(xs[1]) == xs[1] && GuavaTrim(xs[2]) == xs[2]
    requires GuavaTrim(xs[3]) == xs[3] && GuavaTrim(xs[4]) == xs[4] && GuavaTrim(xs[5]) == xs[5]
    requires GuavaTrim(xs[6]) == xs[6] && GuavaTrim(xs[7]) == xs[7]
    ensures forall i :: 0 <= i < 8 ==> sep !in xs[i] && GuavaTrim(xs[i]) == xs[i]
  {
    forall i | 0 <= i < 8
      ensures sep !in xs[i] && GuavaTrim(xs[i]) == xs[i]
    {
      if i < 4 {
        assert i == 0 || i == 1 || i == 2 || i == 3;
      } else {
        assert i == 4 || i == 5 || i == 6 || i == 7;
      }
    }
  }

  lemma SpecPartsOfPrinted(v: StatsSpec)
    requires Canonical(v)
    ensures SpecParts(FormatStatsSpec(v)) == PrintedParts(v)
  {
    var xs := PrintedParts(v);
    PrintedPieces(v);
    SplitJoin(xs, ':');
    TrimAllIdentity(xs);
  }

  lemma ParsePrintedParts(v: StatsSpec)
    requires Canonical(v)
    ensures ParseParts(PrintedParts(v)) == Success(v)
  {
    PrintedIntParses(v.apMaxSize);
    PrintedIntParses(v.defense);
    PrintedIntParses(v.maxWounds);
    PrintedIntParses(v.ad);
    PrintedIntParses(v.sd);
  }

  /** A canonical spec, printed, parses back to itself. */
  lemma ParseFormat(v: StatsSpec)
    requires Canonical(v)
    ensures ParseStatsSpec(FormatStatsSpec(v)) == Success(v)
  {
    SpecPartsOfPrinted(v);
    ParsePrintedParts(v);
  }

  /** Whatever a parse yields is canonical. */
  lemma ParsedIsCanonical(spec: string)
    requires ParseStatsSpec(spec).Success?
    ensures Canonical(ParseStatsSpec(spec).value)
  {
    var raw := SplitLimit(spec, ':', 8);
    var parts := SpecParts(spec);
    assert |parts| == 8 && ParseStatsSpec(spec) == ParseParts(parts);
    forall i | 0 <= i < 3
      ensures ':' !in parts[i] && GuavaTrim(parts[i]) == parts[i]
    {
      GuavaTrimKeeps(raw[i], ':');
      GuavaTrimIdempotent(raw[i]);
    }
  }

  /**
   * Printing a parsed spec gives the canonical spec, which parses to the
   * same stats: parse-then-print-then-parse is parse.
   */
  lemma PrintParsed(spec: string)
    requires ParseStatsSpec(spec).Success?
    ensures ParseStatsSpec(FormatStatsSpec(ParseStatsSpec(spec).value)) == ParseStatsSpec(spec)
  {
    ParsedIsCanonical(spec);
    ParseFormat(ParseStatsSpec(spec).value);
  }

  // ---------------------------------------------------------------------
  // The NPC's combat attributes

  /** The skill attributes a spec leaves: one per named skill. */
  function WithSkillAttrs(attrs: map<string, Attr>, skill4: string, skill3: string, skill2: string): map<string, Attr>
  {
    var a4 := if skill4 != "" then attrs[ATTR_NAME_SKILL_4 := StringAttr(ATTR_NAME_SKILL_4, skill4)] else attrs;
    var a3 := if skill3 != "" then a4[ATTR_NAME_SKILL_3 := StringAttr(ATTR_NAME_SKILL_3, skill3)] else a4;
    if skill2 != "" then a3[ATTR_NAME_SKILL_2 := StringAttr(ATTR_NAME_SKILL_2, skill2)] else a3
  }

  /** The integer attributes a spec leaves. */
  function WithIntAttrs(attrs: map<string, Attr>, apMaxSize: int, defense: int, maxWounds: int, ad: int, sd: int)
    : map<string, Attr>
    requires IsInt32(apMaxSize) && IsInt32(defense) && IsInt32(maxWounds) && IsInt32(ad) && IsInt32(sd)
  {
    attrs[ATTR_NAME_AP_MAX_SIZE := IntAttr(ATTR_NAME_AP_MAX_SIZE, apMaxSize)]
      [ATTR_NAME_DEFENSE := IntAttr(ATTR_NAME_DEFENSE, defense)]
      [ATTR_NAME_MAX_WOUNDS := IntAttr(ATTR_NAME_MAX_WOUNDS, maxWounds)]
      [ATTR_NAME_AD := IntAttr(ATTR_NAME_AD, ad)]
      [ATTR_NAME_SD := IntAttr(ATTR_NAME_SD, sd)]
  }

  function CombatAttrNames(): set<string>
  {
    {ATTR_NAME_SKILL_4, ATTR_NAME_SKILL_3, ATTR_NAME_SKILL_2, ATTR_NAME_AP_MAX_SIZE,
     ATTR_NAME_DEFENSE, ATTR_NAME_MAX_WOUNDS, ATTR_NAME_AD, ATTR_NAME_SD}
  }

  /** The attributes a parsed spec leaves on the NPC, over its earlier ones. */
  function WithCombatAttrs(attrs: map<string, Attr>, v: StatsSpec): map<string, Attr>
    requires IntsFit(v)
  {
    WithIntAttrs(WithSkillAttrs(attrs, v.skill4, v.skill3, v.skill2), v.apMaxSize, v.defense, v.maxWounds, v.ad, v.sd)
  }

  /**
   * populateCombatAttributes(String): parses the spec and stores its parts
   * as attributes. A refused spec leaves the NPC unbuilt, so only the
   * successful outcome's attributes are stated.
   */
  method PopulateCombatAttributes(npc: Thing, statsSpec: string) returns (err: Option<Exception>)
    requires npc.Valid()
    modifies npc
    ensures npc.Valid() && npc.contents == old(npc.contents)
    ensures err.None? <==> ParseStatsSpec(statsSpec).Success?
    ensures err.Some? ==> err.value == ParseStatsSpec(statsSpec).error
    ensures err.None? ==> npc.attrs == WithCombatAttrs(old(npc.attrs), ParseStatsSpec(statsSpec).value)
  {
    var parts := SpecParts(statsSpec);
    if |parts| != 8 {
      return Some(EightParts());
    }
    var hasSkill := false;
    if parts[0] != "" {
      hasSkill := true;
      npc.SetAttr(StringAttr(ATTR_NAME_SKILL_4, parts[0]));
    }
    if parts[1] != "" {
      hasSkill := true;
      npc.SetAttr(StringAttr(ATTR_NAME_SKILL_3, parts[1]));
    }
    if parts[2] != "" {
      hasSkill := true;
      npc.SetAttr(StringAttr(ATTR_NAME_SKILL_2, parts[2]));
    }
    if !hasSkill {
      return Some(NoSkill());
    }
    assert npc.attrs == WithSkillAttrs(old(npc.attrs), parts[0], parts[1], parts[2]);
    err := PopulateIntAttrs(npc, parts);
  }

  /** The integer half of populateCombatAttributes(String), once a skill is named. */
  method PopulateIntAttrs(npc: Thing, parts: seq<string>) returns (err: Option<Exception>)
    requires npc.Valid() && |parts| == 8 && !(parts[0] == "" && parts[1] == "" && parts[2] == "")
    modifies npc
    ensures npc.Valid() && npc.contents == old(npc.contents)
    ensures err.None? <==> ParseParts(parts).Success?
    ensures err.Some? ==> err.value == ParseParts(parts).error
    ensures err.None? ==>
      var v := ParseParts(parts).value;
      npc.attrs == WithIntAttrs(old(npc.attrs), v.apMaxSize, v.defense, v.maxWounds, v.ad, v.sd)
  {
    var apMaxSize := ParseJavaInt(parts[3]);
    if apMaxSize.Failure? {
      return Some(apMaxSize.error);
    }
    npc.SetAttr(IntAttr(ATTR_NAME_AP_MAX_SIZE, apMaxSize.value));
    var defense := ParseJavaInt(parts[4]);
    if defense.Failure? {
      return Some(defense.error);
    }
    npc.SetAttr(IntAttr(ATTR_NAME_DEFENSE, defense.value));
    var maxWounds := ParseJavaInt(parts[5]);
    if maxWounds.Failure? {
      return Some(maxWounds.error);
    }
    npc.SetAttr(IntAttr(ATTR_NAME_MAX_WOUNDS, maxWounds.value));
    var ad := ParseJavaInt(parts[6]);
    if ad.Failure? {
      return Some(ad.error);
    }
    npc.SetAttr(IntAttr(ATTR_NAME_AD, ad.value));
    var sd := ParseJavaInt(parts[7]);
    if sd.Failure? {
      return Some(sd.error);
    }
    npc.SetAttr(IntAttr(ATTR_NAME_SD, sd.value));
    return None;
  }

  /** The attribute slot of the skill with a rating of 4, 3 or 2. */
  function SkillSlot(rating: int): string
  {
    if rating == 4 then ATTR_NAME_SKILL_4 else if rating == 3 then ATTR_NAME_SKILL_3 else ATTR_NAME_SKILL_2
  }

  function At(attrs: map<string, Attr>, name: string): Option<Attr>
  {
    if name in attrs then Some(attrs[name]) else None
  }

  /**
   * After copying the skills in `done`: a rating some copied skill has fills
   * its slot with one of those skills' names; any other slot is as before.
   */
  ghost predicate SlotCopied(attrs: map<string, Attr>, before: map<string, Attr>, rating: int,
                             done: set<string>, skills: map<string, int>)
    requires done <= skills.Keys
  {
    if exists sk :: sk in done && skills[sk] == rating
    then exists sk :: sk in done && skills[sk] == rating && At(attrs, SkillSlot(rating)) == Some(StringAttr(SkillSlot(rating), sk))
    else At(attrs, SkillSlot(rating)) == At(before, SkillSlot(rating))
  }

  /** Copying one more skill keeps every slot as SlotCopied describes. */
  lemma CopyStep(before: map<string, Attr>, prev: map<string, Attr>, next: map<string, Attr>,
                 done: set<string>, sk: string, skills: map<string, int>)
    requires done <= skills.Keys && sk in skills
    requires forall r :: 2 <= r <= 4 ==> SlotCopied(prev, before, r, done, skills)
    requires next == if 2 <= skills[sk] <= 4 then prev[SkillSlot(skills[sk]) := StringAttr(SkillSlot(skills[sk]), sk)] else prev
    ensures forall r :: 2 <= r <= 4 ==> SlotCopied(next, before, r, done + {sk}, skills)
  {
    forall r | 2 <= r <= 4
      ensures SlotCopied(next, before, r, done + {sk}, skills)
    {
      CopyStepSlot(before, prev, next, done, sk, skills, r);
    }
  }

  lemma CopyStepSlot(before: map<string, Attr>, prev: map<string, Attr>, next: map<string, Attr>,
                     done: set<string>, sk: string, skills: map<string, int>, r: int)
    requires done <= skills.Keys && sk in skills && 2 <= r <= 4
    requires SlotCopied(prev, before, r, done, skills)
    requires next == if 2 <= skills[sk] <= 4 then prev[SkillSlot(skills[sk]) := StringAttr(SkillSlot(skills[sk]), sk)] else prev
    ensures SlotCopied(next, before, r, done + {sk}, skills)
  {
    if r == skills[sk] {
      assert sk in done + {sk} && At(next, SkillSlot(r)) == Some(StringAttr(SkillSlot(r), sk));
    } else {
      if 2 <= skills[sk] <= 4 {
        SlotsDistinct(r, skills[sk]);
      }
      assert At(next, SkillSlot(r)) == At(prev, SkillSlot(r));
      if x :| x in done && skills[x] == r {
        var y :| y in done && skills[y] == r && At(prev, SkillSlot(r)) == Some(StringAttr(SkillSlot(r), y));
        assert y in done + {sk};
      } else {
        assert !exists x :: x in done + {sk} && skills[x] == r;
      }
    }
  }

  lemma SlotsDistinct(r: int, q: int)
    requires 2 <= r <= 4 && 2 <= q <= 4 && r != q
    ensures SkillSlot(r) != SkillSlot(q)
  {
    NamesDistinct();
  }

  /** SlotCopied depends only on the slot itself. */
  lemma SlotTransfer(a: map<string, Attr>, b: map<string, Attr>, before: map<string, Attr>, r: int,
                     done: set<string>, skills: map<string, int>)
    requires done <= skills.Keys && SlotCopied(a, before, r, done, skills)
    requires At(a, SkillSlot(r)) == At(b, SkillSlot(r))
    ensures SlotCopied(b, before, r, done, skills)
  {
    if x :| x in done && skills[x] == r {
      var y :| y in done && skills[y] == r && At(a, SkillSlot(r)) == Some(StringAttr(SkillSlot(r), y));
      assert At(b, SkillSlot(r)) == Some(StringAttr(SkillSlot(r), y));
    }
  }

  /** The five integer writes of populateCombatAttributes(Stats). */
  method SetIntAttrs(npc: Thing, apMaxSize: int, defense: int, maxWounds: int, ad: int, sd: int)
    requires npc.Valid()
    requires IsInt32(apMaxSize) && IsInt32(defense) && IsInt32(maxWounds) && IsInt32(ad) && IsInt32(sd)
    modifies npc
    ensures npc.Valid() && npc.contents == old(npc.contents)
    ensures npc.attrs == WithIntAttrs(old(npc.attrs), apMaxSize, defense, maxWounds, ad, sd)
  {
    npc.SetAttr(IntAttr(ATTR_NAME_AP_MAX_SIZE, apMaxSize));
    npc.SetAttr(IntAttr(ATTR_NAME_DEFENSE, defense));
    npc.SetAttr(IntAttr(ATTR_NAME_MAX_WOUNDS, maxWounds));
    npc.SetAttr(IntAttr(ATTR_NAME_AD, ad));
    npc.SetAttr(IntAttr(ATTR_NAME_SD, sd));
  }

  /** The integer writes fill their five slots and touch nothing else. */
  lemma IntSlots(m: map<string, Attr>, apMaxSize: int, defense: int, maxWounds: int, ad: int, sd: int)
    requires IsInt32(apMaxSize) && IsInt32(defense) && IsInt32(maxWounds) && IsInt32(ad) && IsInt32(sd)
    ensures var w := WithIntAttrs(m, apMaxSize, defense, maxWounds, ad, sd);
      At(w, ATTR_NAME_AP_MAX_SIZE) == Some(IntAttr(ATTR_NAME_AP_MAX_SIZE, apMaxSize))
      && At(w, ATTR_NAME_DEFENSE) == Some(IntAttr(ATTR_NAME_DEFENSE, defense))
      && At(w, ATTR_NAME_MAX_WOUNDS) == Some(IntAttr(ATTR_NAME_MAX_WOUNDS, maxWounds))
      && At(w, ATTR_NAME_AD) == Some(IntAttr(ATTR_NAME_AD, ad))
      && At(w, ATTR_NAME_SD) == Some(IntAttr(ATTR_NAME_SD, sd))
      && forall n :: n !in {ATTR_NAME_AP_MAX_SIZE, ATTR_NAME_DEFENSE, ATTR_NAME_MAX_WOUNDS, ATTR_NAME_AD, ATTR_NAME_SD} ==>
           At(w, n) == At(m, n)
  {
  }

  /** The loop of populateCombatAttributes(Stats): each skill rated 4, 3 or 2 into its slot. */
  method CopySkills(npc: Thing, skills: map<string, int>) returns (hasSkill: bool)
    requires npc.Valid()
    modifies npc
    ensures npc.Valid() && npc.contents == old(npc.contents)
    ensures hasSkill <==> exists sk :: sk in skills && 2 <= skills[sk] <= 4
    ensures forall r :: 2 <= r <= 4 ==> SlotCopied(npc.attrs, old(npc.attrs), r, skills.Keys, skills)
    ensures forall n :: n !in CombatAttrNames() ==> At(npc.attrs, n) == At(old(npc.attrs), n)
    ensures !hasSkill ==> npc.attrs == old(npc.attrs)
  {
    ghost var before := npc.attrs;
    hasSkill := false;
    var todo := skills.Keys;
    ghost var done: set<string> := {};
    while todo != {}
      invariant npc.Valid() && npc.contents == old(npc.contents)
      invariant todo + done == skills.Keys && todo !! done
      invariant hasSkill <==> exists sk :: sk in done && 2 <= skills[sk] <= 4
      invariant forall r :: 2 <= r <= 4 ==> SlotCopied(npc.attrs, before, r, done, skills)
      invariant forall n :: n !in CombatAttrNames() ==> At(npc.attrs, n) == At(before, n)
      invariant !hasSkill ==> npc.attrs == before
      decreases todo
    {
      var sk :| sk in todo;
      var rating := skills[sk];
      ghost var prev := npc.attrs;
      if 2 <= rating <= 4 {
        npc.SetAttr(StringAttr(SkillSlot(rating), sk));
        hasSkill := true;
      }
      CopyStep(before, prev, npc.attrs, done, sk, skills);
      todo := todo - {sk};
      done := done + {sk};
    }
  }

  /**
   * populateCombatAttributes(Stats): copies each skill rated 4, 3 or 2 into
   * its slot, in the skill map's own order (so of two skills with one
   * rating, either may end up in the slot), then the five numbers. Stats
   * without such a skill are refused before anything is stored.
   */
  method PopulateFromStats(npc: Thing, stats: BaseStats) returns (err: Option<Exception>)
    requires npc.Valid()
    requires IsInt32(stats.apMaxSize) && IsInt32(stats.defense) && IsInt32(stats.maxWounds)
    requires IsInt32(stats.ad) && IsInt32(stats.sd)
    modifies npc
    ensures npc.Valid() && npc.contents == old(npc.contents)
    ensures err.Some? <==> !exists sk :: sk in stats.skills && 2 <= stats.skills[sk] <= 4
    ensures err.Some? ==>
      err.value == IllegalArgument("stats must have at least one skill") && npc.attrs == old(npc.attrs)
    ensures err.None? ==> forall r :: 2 <= r <= 4 ==> SlotCopied(npc.attrs, old(npc.attrs), r, stats.skills.Keys, stats.skills)
    ensures err.None? ==>
      At(npc.attrs, ATTR_NAME_AP_MAX_SIZE) == Some(IntAttr(ATTR_NAME_AP_MAX_SIZE, stats.apMaxSize))
      && At(npc.attrs, ATTR_NAME_DEFENSE) == Some(IntAttr(ATTR_NAME_DEFENSE, stats.defense))
      && At(npc.attrs, ATTR_NAME_MAX_WOUNDS) == Some(IntAttr(ATTR_NAME_MAX_WOUNDS, stats.maxWounds))
      && At(npc.attrs, ATTR_NAME_AD) == Some(IntAttr(ATTR_NAME_AD, stats.ad))
      && At(npc.attrs, ATTR_NAME_SD) == Some(IntAttr(ATTR_NAME_SD, stats.sd))
    ensures forall n :: n !in CombatAttrNames() ==> At(npc.attrs, n) == At(old(npc.attrs), n)
  {
    ghost var before := npc.attrs;
    var hasSkill := CopySkills(npc, stats.skills);
    if !hasSkill {
      return Some(IllegalArgument("stats must have at least one skill"));
    }
    ghost var copied := npc.attrs;
    SetIntAttrs(npc, stats.apMaxSize, stats.defense, stats.maxWounds, stats.ad, stats.sd);
    IntSlots(copied, stats.apMaxSize, stats.defense, stats.maxWounds, stats.ad, stats.sd);
    forall r | 2 <= r <= 4
      ensures SlotCopied(npc.attrs, before, r, stats.skills.Keys, stats.skills)
    {
      SlotTransfer(copied, npc.attrs, before, r, stats.skills.Keys, stats.skills);
    }
    return None;
  }

  /** A skill slot prints the attribute's text, or nothing when it is absent. */
  function SkillPart(npc: Thing, name: string): (s: string)
    reads npc
    ensures name !in npc.attrs ==> s == ""
    ensures name in npc.attrs ==> s == npc.attrs[name].value
  {
    match npc.GetAttr(name)
      case None => ""
      case Some(a) => a.value
  }

  /** An integer slot needs its attribute: Optional.get() on an absent one throws. */
  function IntPart(npc: Thing, name: string): (r: Result<int, Exception>)
    reads npc
    ensures name !in npc.attrs ==> r == Failure(NoSuchElement("No value present"))
    ensures name in npc.attrs ==> r == GetIntValue(npc.attrs[name])
  {
    match npc.GetAttr(name)
      case None => Failure(NoSuchElement("No value present"))
      case Some(a) => GetIntValue(a)
  }

  /** The five integer slots hold Java ints. */
  predicate HasIntSlots(npc: Thing)
    reads npc
  {
    IntPart(npc, ATTR_NAME_AP_MAX_SIZE).Success? && IntPart(npc, ATTR_NAME_DEFENSE).Success?
    && IntPart(npc, ATTR_NAME_MAX_WOUNDS).Success? && IntPart(npc, ATTR_NAME_AD).Success?
    && IntPart(npc, ATTR_NAME_SD).Success?
  }

  /**
   * generateStatsSpec: prints the spec back from the NPC's combat
   * attributes; the first integer slot that is absent or not an int fails it.
   */
  function GenerateStatsSpec(npc: Thing): (r: Result<string, Exception>)
    reads npc
    ensures r.Success? <==> HasIntSlots(npc)
    ensures ATTR_NAME_AP_MAX_SIZE !in npc.attrs ==> r == Failure(NoSuchElement("No value present"))
    ensures ATTR_NAME_AP_MAX_SIZE in npc.attrs && GetIntValue(npc.attrs[ATTR_NAME_AP_MAX_SIZE]).Failure? ==>
      r == Failure(GetIntValue(npc.attrs[ATTR_NAME_AP_MAX_SIZE]).error)
  {
    var apMaxSize :- IntPart(npc, ATTR_NAME_AP_MAX_SIZE);
    var defense :- IntPart(npc, ATTR_NAME_DEFENSE);
    var maxWounds :- IntPart(npc, ATTR_NAME_MAX_WOUNDS);
    var ad :- IntPart(npc, ATTR_NAME_AD);
    var sd :- IntPart(npc, ATTR_NAME_SD);
    Success(FormatStatsSpec(StatsSpec(SkillPart(npc, ATTR_NAME_SKILL_4), SkillPart(npc, ATTR_NAME_SKILL_3),
                                      SkillPart(npc, ATTR_NAME_SKILL_2), apMaxSize, defense, maxWounds, ad, sd)))
  }

  /**
   * The attributes a spec leaves print that spec again, provided the NPC
   * had no attribute in a skill slot the spec leaves empty.
   */
  lemma GenerateAfterPopulate(npc: Thing, before: map<string, Attr>, v: StatsSpec)
    requires IntsFit(v)
    requires npc.attrs == WithCombatAttrs(before, v)
    requires v.skill4 == "" ==> ATTR_NAME_SKILL_4 !in before
    requires v.skill3 == "" ==> ATTR_NAME_SKILL_3 !in before
    requires v.skill2 == "" ==> ATTR_NAME_SKILL_2 !in before
    ensures GenerateStatsSpec(npc) == Success(FormatStatsSpec(v))
  {
    CombatIntSlots(before, v);
    CombatSkillSlots(before, v);
    PrintedIntParses(v.apMaxSize);
    PrintedIntParses(v.defense);
    PrintedIntParses(v.maxWounds);
    PrintedIntParses(v.ad);
    PrintedIntParses(v.sd);
    assert IntPart(npc, ATTR_NAME_AP_MAX_SIZE) == Success(v.apMaxSize);
    assert IntPart(npc, ATTR_NAME_DEFENSE) == Success(v.defense);
    assert IntPart(npc, ATTR_NAME_MAX_WOUNDS) == Success(v.maxWounds);
    assert IntPart(npc, ATTR_NAME_AD) == Success(v.ad);
    assert IntPart(npc, ATTR_NAME_SD) == Success(v.sd);
    assert SkillPart(npc, ATTR_NAME_SKILL_4) == v.skill4;
    assert SkillPart(npc, ATTR_NAME_SKILL_3) == v.skill3;
    assert SkillPart(npc, ATTR_NAME_SKILL_2) == v.skill2;
  }

  /** The attributes a spec leaves: the earlier ones, the five integer slots and the named skills. */
  lemma CombatAttrKeys(before: map<string, Attr>, v: StatsSpec)
    requires IntsFit(v)
    ensures WithCombatAttrs(before, v).Keys
      == before.Keys + {ATTR_NAME_AP_MAX_SIZE, ATTR_NAME_DEFENSE, ATTR_NAME_MAX_WOUNDS, ATTR_NAME_AD, ATTR_NAME_SD}
        + (if v.skill4 != "" then {ATTR_NAME_SKILL_4} else {})
        + (if v.skill3 != "" then {ATTR_NAME_SKILL_3} else {})
        + (if v.skill2 != "" then {ATTR_NAME_SKILL_2} else {})
  {
    SkillAttrSlots(before, v.skill4, v.skill3, v.skill2);
    IntAttrSlots(WithSkillAttrs(before, v.skill4, v.skill3, v.skill2), v.apMaxSize, v.defense, v.maxWounds, v.ad, v.sd);
  }

  /** A spec's integers fill the five integer slots. */
  lemma CombatIntSlots(before: map<string, Attr>, v: StatsSpec)
    requires IntsFit(v)
    ensures var m := WithCombatAttrs(before, v);
      m[ATTR_NAME_AP_MAX_SIZE] == IntAttr(ATTR_NAME_AP_MAX_SIZE, v.apMaxSize)
      && m[ATTR_NAME_DEFENSE] == IntAttr(ATTR_NAME_DEFENSE, v.defense)
      && m[ATTR_NAME_MAX_WOUNDS] == IntAttr(ATTR_NAME_MAX_WOUNDS, v.maxWounds)
      && m[ATTR_NAME_AD] == IntAttr(ATTR_NAME_AD, v.ad)
      && m[ATTR_NAME_SD] == IntAttr(ATTR_NAME_SD, v.sd)
  {
    IntAttrSlots(WithSkillAttrs(before, v.skill4, v.skill3, v.skill2), v.apMaxSize, v.defense, v.maxWounds, v.ad, v.sd);
  }

  /** A named skill fills its slot; an empty one leaves what the NPC had there. */
  lemma CombatSkillSlots(before: map<string, Attr>, v: StatsSpec)
    requires IntsFit(v)
    ensures var m := WithCombatAttrs(before, v);
      (v.skill4 != "" ==> m[ATTR_NAME_SKILL_4] == StringAttr(ATTR_NAME_SKILL_4, v.skill4))
      && (v.skill3 != "" ==> m[ATTR_NAME_SKILL_3] == StringAttr(ATTR_NAME_SKILL_3, v.skill3))
      && (v.skill2 != "" ==> m[ATTR_NAME_SKILL_2] == StringAttr(ATTR_NAME_SKILL_2, v.skill2))
      && (v.skill4 == "" ==> (ATTR_NAME_SKILL_4 in m <==> ATTR_NAME_SKILL_4 in before))
      && (v.skill3 == "" ==> (ATTR_NAME_SKILL_3 in m <==> ATTR_NAME_SKILL_3 in before))
      && (v.skill2 == "" ==> (ATTR_NAME_SKILL_2 in m <==> ATTR_NAME_SKILL_2 in before))
      && (v.skill4 == "" && ATTR_NAME_SKILL_4 in before ==> m[ATTR_NAME_SKILL_4] == before[ATTR_NAME_SKILL_4])
      && (v.skill3 == "" && ATTR_NAME_SKILL_3 in before ==> m[ATTR_NAME_SKILL_3] == before[ATTR_NAME_SKILL_3])
      && (v.skill2 == "" && ATTR_NAME_SKILL_2 in before ==> m[ATTR_NAME_SKILL_2] == before[ATTR_NAME_SKILL_2])
  {
    NamesDistinct();
    var m1 := WithSkillAttrs(before, v.skill4, v.skill3, v.skill2);
    SkillAttrSlots(before, v.skill4, v.skill3, v.skill2);
    IntAttrSlots(m1, v.apMaxSize, v.defense, v.maxWounds, v.ad, v.sd);
  }

  /** Attributes outside the eight combat slots are left alone. */
  lemma CombatOthersKept(before: map<string, Attr>, v: StatsSpec)
    requires IntsFit(v)
    ensures forall n :: n in before && n !in CombatAttrNames() ==> WithCombatAttrs(before, v)[n] == before[n]
  {
    SkillAttrSlots(before, v.skill4, v.skill3, v.skill2);
    IntAttrSlots(WithSkillAttrs(before, v.skill4, v.skill3, v.skill2), v.apMaxSize, v.defense, v.maxWounds, v.ad, v.sd);
  }

  /** The skill writes: each named skill in its slot, every other attribute kept. */
  lemma SkillAttrSlots(before: map<string, Attr>, skill4: string, skill3: string, skill2: string)
    ensures var m := WithSkillAttrs(before, skill4, skill3, skill2);
      m.Keys == before.Keys
        + (if skill4 != "" then {ATTR_NAME_SKILL_4} else {})
        + (if skill3 != "" then {ATTR_NAME_SKILL_3} else {})
        + (if skill2 != "" then {ATTR_NAME_SKILL_2} else {})
      && (skill4 != "" ==> m[ATTR_NAME_SKILL_4] == StringAttr(ATTR_NAME_SKILL_4, skill4))
      && (skill3 != "" ==> m[ATTR_NAME_SKILL_3] == StringAttr(ATTR_NAME_SKILL_3, skill3))
      && (skill2 != "" ==> m[ATTR_NAME_SKILL_2] == StringAttr(ATTR_NAME_SKILL_2, skill2))
      && (skill4 == "" && ATTR_NAME_SKILL_4 in before ==> m[ATTR_NAME_SKILL_4] == before[ATTR_NAME_SKILL_4])
      && (skill3 == "" && ATTR_NAME_SKILL_3 in before ==> m[ATTR_NAME_SKILL_3] == before[ATTR_NAME_SKILL_3])
      && (skill2 == "" && ATTR_NAME_SKILL_2 in before ==> m[ATTR_NAME_SKILL_2] == before[ATTR_NAME_SKILL_2])
      && forall n :: n in before && n != ATTR_NAME_SKILL_4 && n != ATTR_NAME_SKILL_3 && n != ATTR_NAME_SKILL_2 ==>
           m[n] == before[n]
  {
    NamesDistinct();
  }

  /** The integer writes: the five slots filled, every other attribute kept. */
  lemma IntAttrSlots(m1: map<string, Attr>, apMaxSize: int, defense: int, maxWounds: int, ad: int, sd: int)
    requires IsInt32(apMaxSize) && IsInt32(defense) && IsInt32(maxWounds) && IsInt32(ad) && IsInt32(sd)
    ensures var m := WithIntAttrs(m1, apMaxSize, defense, maxWounds, ad, sd);
      m.Keys == m1.Keys + {ATTR_NAME_AP_MAX_SIZE, ATTR_NAME_DEFENSE, ATTR_NAME_MAX_WOUNDS, ATTR_NAME_AD, ATTR_NAME_SD}
      && m[ATTR_NAME_AP_MAX_SIZE] == IntAttr(ATTR_NAME_AP_MAX_SIZE, apMaxSize)
      && m[ATTR_NAME_DEFENSE] == IntAttr(ATTR_NAME_DEFENSE, defense)
      && m[ATTR_NAME_MAX_WOUNDS] == IntAttr(ATTR_NAME_MAX_WOUNDS, maxWounds)
      && m[ATTR_NAME_AD] == IntAttr(ATTR_NAME_AD, ad)
      && m[ATTR_NAME_SD] == IntAttr(ATTR_NAME_SD, sd)
      && forall n ::
           (n in m1 && n != ATTR_NAME_AP_MAX_SIZE && n != ATTR_NAME_DEFENSE && n != ATTR_NAME_MAX_WOUNDS
            && n != ATTR_NAME_AD && n != ATTR_NAME_SD) ==> m[n] == m1[n]
  {
    NamesDistinct();
  }

  predicate NotASkillName(n: string)
  {
    n != ATTR_NAME_SKILL_4 && n != ATTR_NAME_SKILL_3 && n != ATTR_NAME_SKILL_2
  }

  /** The eight combat attribute names are pairwise different. */
  lemma NamesDistinct()
    ensures ATTR_NAME_SKILL_4 != ATTR_NAME_SKILL_3 && ATTR_NAME_SKILL_4 != ATTR_NAME_SKILL_2
      && ATTR_NAME_SKILL_3 != ATTR_NAME_SKILL_2
    ensures ATTR_NAME_AD != ATTR_NAME_SD && ATTR_NAME_AP_MAX_SIZE != ATTR_NAME_MAX_WOUNDS
    ensures NotASkillName(ATTR_NAME_AP_MAX_SIZE) && NotASkillName(ATTR_NAME_DEFENSE)
      && NotASkillName(ATTR_NAME_MAX_WOUNDS) && NotASkillName(ATTR_NAME_AD) && NotASkillName(ATTR_NAME_SD)
    ensures ATTR_NAME_AP_MAX_SIZE != ATTR_NAME_DEFENSE && ATTR_NAME_AP_MAX_SIZE != ATTR_NAME_AD
      && ATTR_NAME_AP_MAX_SIZE != ATTR_NAME_SD
    ensures ATTR_NAME_DEFENSE != ATTR_NAME_MAX_WOUNDS && ATTR_NAME_DEFENSE != ATTR_NAME_AD
      && ATTR_NAME_DEFENSE != ATTR_NAME_SD
    ensures ATTR_NAME_MAX_WOUNDS != ATTR_NAME_AD && ATTR_NAME_MAX_WOUNDS != ATTR_NAME_SD
  {
    assert ATTR_NAME_SKILL_4[13] == '4' && ATTR_NAME_SKILL_3[13] == '3' && ATTR_NAME_SKILL_2[13] == '2';
    assert ATTR_NAME_AD[8] == 'a' && ATTR_NAME_SD[8] == 's';
    assert ATTR_NAME_AP_MAX_SIZE[8] == 'a' && ATTR_NAME_MAX_WOUNDS[8] == 'm';
  }

  /**
   * The NPC round trip: a spec that parses, stored on an NPC without skill
   * attributes, prints as a spec that parses to the same stats.
   */
  lemma SpecRoundTrip(npc: Thing, before: map<string, Attr>, spec: string)
    requires ParseStatsSpec(spec).Success?
    requires npc.attrs == WithCombatAttrs(before, ParseStatsSpec(spec).value)
    requires ATTR_NAME_SKILL_4 !in before && ATTR_NAME_SKILL_3 !in before && ATTR_NAME_SKILL_2 !in before
    ensures GenerateStatsSpec(npc).Success?
    ensures ParseStatsSpec(GenerateStatsSpec(npc).value) == ParseStatsSpec(spec)
  {
    ParsedIsCanonical(spec);
    GenerateAfterPopulate(npc, before, ParseStatsSpec(spec).value);
    ParseFormat(ParseStatsSpec(spec).value);
  }
}
