/**
 * The policy change instruction (command/ChangePolicyCommand.java): a
 * comma-separated list of modifications such as `r+dB` or `w-g`. Each
 * names a category letter, an operator and role letters. Parsing fills
 * the roles to add and to remove per category, and executing the
 * instruction rewrites every category of a policy as (old ∪ add) \ remove.
 */
module ChangePolicy {
  import opened Base
  import opened PolicyModel

  /** One parsed modification. */
  datatype Modification = Modification(category: Category, add: bool, roles: set<Role>)

  /** The roles to add and to remove, per category. */
  datatype Instruction = Instruction(toAdd: map<Category, set<Role>>, toRemove: map<Category, set<Role>>)

  function CategoryOf(ch: char): Option<Category>
  {
    match ch
    case 'g' => Some(GENERAL)
    case 'r' => Some(READ)
    case 'w' => Some(WRITE)
    case 'u' => Some(USE)
    case _ => None
  }

  function RoleOf(ch: char): Option<Role>
  {
    match ch
    case 'g' => Some(GUEST)
    case 'd' => Some(DENIZEN)
    case 'o' => Some(OWNER)
    case 'B' => Some(BARD)
    case 'A' => Some(ADEPT)
    case 'T' => Some(THAUMATURGE)
    case _ => None
  }

  /** The roles named by a run of role letters; None if any letter is unknown. */
  function RoleLetters(text: string): (r: Option<set<Role>>)
    ensures r.Some? <==> forall i :: 0 <= i < |text| ==> RoleOf(text[i]).Some?
    ensures r.Some? ==> forall role :: role in r.value <==> exists i :: 0 <= i < |text| && RoleOf(text[i]) == Some(role)
    decreases |text|
  {
    if |text| == 0 then Some({})
    else
      var init := text[..|text| - 1];
      assert forall i :: 0 <= i < |init| ==> init[i] == text[i];
      match (RoleLetters(init), RoleOf(text[|text| - 1]))
      case (Some(rs), Some(x)) => Some(rs + {x})
      case _ => None
  }

  /** One modification, after trimming: its length, then category, roles and operator are checked in turn. */
  function ParseMod(raw: string): Result<Modification, Exception>
  {
    var mod := JavaTrim(raw);
    if |mod| < 3 then Failure(IllegalArgument("Invalid modification: " + mod))
    else match CategoryOf(mod[0])
      case None => Failure(IllegalArgument("Invalid policy category in " + mod))
      case Some(c) =>
        match RoleLetters(mod[2..])
        case None => Failure(IllegalArgument("Invalid role in " + mod))
        case Some(rs) =>
          if mod[1] == '+' then Success(Modification(c, true, rs))
          else if mod[1] == '-' then Success(Modification(c, false, rs))
          else Failure(IllegalArgument("Invalid operator in " + mod))
  }

  /**
   * A modification is accepted exactly when, once trimmed, it has at least
   * three characters, a known category letter, an operator '+' or '-' and
   * only known role letters after it; the first failed check names the error.
   */
  lemma ParseModMeaning(raw: string)
    ensures var mod := JavaTrim(raw); var r := ParseMod(raw);
      && (|mod| < 3 ==> r == Failure(IllegalArgument("Invalid modification: " + mod)))
      && (|mod| >= 3 && CategoryOf(mod[0]).None? ==> r == Failure(IllegalArgument("Invalid policy category in " + mod)))
      && (|mod| >= 3 && CategoryOf(mod[0]).Some? && RoleLetters(mod[2..]).None? ==>
            r == Failure(IllegalArgument("Invalid role in " + mod)))
      && (|mod| >= 3 && CategoryOf(mod[0]).Some? && RoleLetters(mod[2..]).Some? && mod[1] !in {'+', '-'} ==>
            r == Failure(IllegalArgument("Invalid operator in " + mod)))
      && (r.Success? <==>
            |mod| >= 3 && CategoryOf(mod[0]).Some? && RoleLetters(mod[2..]).Some? && mod[1] in {'+', '-'})
      && (r.Success? ==>
            r.value.category == CategoryOf(mod[0]).value
            && r.value.add == (mod[1] == '+')
            && r.value.roles == RoleLetters(mod[2..]).value)
  {
  }

  /** Records a modification, replacing any earlier one with the same category and operator. */
  function Put(ins: Instruction, m: Modification): Instruction
  {
    if m.add then ins.(toAdd := ins.toAdd[m.category := m.roles])
    else ins.(toRemove := ins.toRemove[m.category := m.roles])
  }

  /** Each modification parsed on its own. */
  function ParseAll(mods: seq<string>): (ps: seq<Result<Modification, Exception>>)
    ensures |ps| == |mods| && forall i :: 0 <= i < |mods| ==> ps[i] == ParseMod(mods[i])
  {
    if |mods| == 0 then [] else ParseAll(mods[..|mods| - 1]) + [ParseMod(mods[|mods| - 1])]
  }

  /** The parsed modifications applied left to right; the first failure stops the parse. */
  function ApplyAll(ps: seq<Result<Modification, Exception>>): Result<Instruction, Exception>
    decreases |ps|
  {
    if |ps| == 0 then Success(Instruction(map[], map[]))
    else
      match ApplyAll(ps[..|ps| - 1])
      case Failure(e) => Failure(e)
      case Success(ins) =>
        match ps[|ps| - 1]
        case Failure(e) => Failure(e)
        case Success(m) => Success(Put(ins, m))
  }

  /** One more modification: a failure stops the parse, a success is recorded. */
  lemma ApplyAllStep(ps: seq<Result<Modification, Exception>>, i: nat)
    requires i < |ps| && ApplyAll(ps[..i]).Success?
    ensures ps[i].Failure? ==> ApplyAll(ps[..i + 1]) == Failure(ps[i].error)
    ensures ps[i].Success? ==> ApplyAll(ps[..i + 1]) == Success(Put(ApplyAll(ps[..i]).value, ps[i].value))
  {
    assert ps[..i + 1][..i] == ps[..i];
  }

  /** Once a prefix fails, the whole list fails the same way. */
  lemma {:induction false} PrefixFailure(ps: seq<Result<Modification, Exception>>, k: nat)
    requires k <= |ps| && ApplyAll(ps[..k]).Failure?
    ensures ApplyAll(ps) == ApplyAll(ps[..k])
    decreases |ps| - k
  {
    if k < |ps| {
      assert ps[..k + 1][..k] == ps[..k];
      PrefixFailure(ps, k + 1);
    } else {
      assert ps[..k] == ps;
    }
  }

  /** The list succeeds exactly when every modification parsed; otherwise the first failure is reported. */
  lemma {:induction false} ApplyAllMeaning(ps: seq<Result<Modification, Exception>>)
    ensures ApplyAll(ps).Success? <==> forall i :: 0 <= i < |ps| ==> ps[i].Success?
    ensures ApplyAll(ps).Failure? ==>
      exists i :: 0 <= i < |ps| && ps[i] == Failure(ApplyAll(ps).error)
        && forall j :: 0 <= j < i ==> ps[j].Success?
    decreases |ps|
  {
    if |ps| > 0 {
      var init := ps[..|ps| - 1];
      ApplyAllMeaning(init);
      assert forall i :: 0 <= i < |init| ==> init[i] == ps[i];
    }
  }

  function Side(ins: Instruction, add: bool): map<Category, set<Role>>
  {
    if add then ins.toAdd else ins.toRemove
  }

  predicate Hits(p: Result<Modification, Exception>, c: Category, add: bool)
  {
    p.Success? && p.value.category == c && p.value.add == add
  }

  /**
   * A category has roles to add (or remove) exactly when some modification
   * names it with that operator, and then it holds the roles of the last
   * such modification.
   */
  lemma {:induction false} LastModificationWins(ps: seq<Result<Modification, Exception>>, c: Category, add: bool)
    requires ApplyAll(ps).Success?
    ensures c in Side(ApplyAll(ps).value, add) <==> exists i :: 0 <= i < |ps| && Hits(ps[i], c, add)
    ensures c in Side(ApplyAll(ps).value, add) ==>
      exists i :: 0 <= i < |ps| && Hits(ps[i], c, add)
        && Side(ApplyAll(ps).value, add)[c] == ps[i].value.roles
        && forall j :: i < j < |ps| ==> !Hits(ps[j], c, add)
    decreases |ps|
  {
    if |ps| > 0 {
      var n := |ps| - 1;
      var init := ps[..n];
      LastModificationWins(init, c, add);
      assert forall i :: 0 <= i < n ==> init[i] == ps[i];
      var side := Side(ApplyAll(ps).value, add);
      if Hits(ps[n], c, add) {
        assert side[c] == ps[n].value.roles;
      } else if c in side {
        var i :| 0 <= i < n && Hits(init[i], c, add)
                 && Side(ApplyAll(init).value, add)[c] == init[i].value.roles
                 && forall j :: i < j < n ==> !Hits(init[j], c, add);
        assert side[c] == ps[i].value.roles;
      }
    }
  }

  /** The first category (in the given order) that both adds and removes some role. */
  function FirstConflict(ins: Instruction, cats: seq<Category>): (r: Option<Category>)
    ensures r.None? <==> forall k :: 0 <= k < |cats| ==> RolesIn(ins.toAdd, cats[k]) * RolesIn(ins.toRemove, cats[k]) == {}
    ensures r.Some? ==> r.value in cats && RolesIn(ins.toAdd, r.value) * RolesIn(ins.toRemove, r.value) != {}
  {
    if |cats| == 0 then None
    else if RolesIn(ins.toAdd, cats[0]) * RolesIn(ins.toRemove, cats[0]) != {} then Some(cats[0])
    else
      assert forall k :: 1 <= k < |cats| ==> cats[1..][k - 1] == cats[k];
      FirstConflict(ins, cats[1..])
  }

  const ALL_ROLES: seq<Role> := [GUEST, DENIZEN, OWNER, BARD, ADEPT, THAUMATURGE, GOD]

  function RoleName(r: Role): string
  {
    match r
    case GUEST => "GUEST"
    case DENIZEN => "DENIZEN"
    case OWNER => "OWNER"
    case BARD => "BARD"
    case ADEPT => "ADEPT"
    case THAUMATURGE => "THAUMATURGE"
    case GOD => "GOD"
  }

  function CategoryName(c: Category): string
  {
    match c
    case GENERAL => "GENERAL"
    case READ => "READ"
    case WRITE => "WRITE"
    case USE => "USE"
  }

  function NamesIn(rs: set<Role>, order: seq<Role>): seq<string>
  {
    if |order| == 0 then []
    else (if order[0] in rs then [RoleName(order[0])] else []) + NamesIn(rs, order[1..])
  }

  function CommaList(xs: seq<string>): string
  {
    if |xs| == 0 then "" else if |xs| == 1 then xs[0] else xs[0] + ", " + CommaList(xs[1..])
  }

  /** A set of roles as Java prints a collection, listed in declaration order. */
  function RolesText(rs: set<Role>): string
  {
    "[" + CommaList(NamesIn(rs, ALL_ROLES)) + "]"
  }

  function ConflictError(s: string, ins: Instruction, c: Category): Exception
  {
    IllegalArgument("Invalid instruction '" + s + "': both adds and removes "
                    + RolesText(RolesIn(ins.toAdd, c) * RolesIn(ins.toRemove, c))
                    + " for category " + CategoryName(c))
  }

  /** The instruction a string denotes: its modifications, then the per-category conflict check. */
  function Instructions(s: string): Result<Instruction, Exception>
  {
    match ApplyAll(ParseAll(JavaSplit(s, ',')))
    case Failure(e) => Failure(e)
    case Success(ins) =>
      match FirstConflict(ins, ALL_CATEGORIES)
      case Some(c) => Failure(ConflictError(s, ins, c))
      case None => Success(ins)
  }

  /** A parsed instruction never both adds and removes the same role in one category. */
  lemma InstructionConsistent(s: string, c: Category)
    requires Instructions(s).Success?
    ensures RolesIn(Instructions(s).value.toAdd, c) * RolesIn(Instructions(s).value.toRemove, c) == {}
  {
    var ins := ApplyAll(ParseAll(JavaSplit(s, ','))).value;
    assert c == ALL_CATEGORIES[0] || c == ALL_CATEGORIES[1] || c == ALL_CATEGORIES[2] || c == ALL_CATEGORIES[3];
  }

  /** The role-letter loop. */
  method ParseRoles(text: string) returns (r: Option<set<Role>>)
    ensures r == RoleLetters(text)
  {
    var roles: set<Role> := {};
    var i := 0;
    while i < |text|
      invariant 0 <= i <= |text|
      invariant RoleLetters(text[..i]) == Some(roles)
    {
      assert text[..i + 1][..i] == text[..i];
      var role := RoleOf(text[i]);
      if role.None? {
        return None;
      }
      roles := roles + {role.value};
      i := i + 1;
    }
    assert text[..i] == text;
    return Some(roles);
  }

  /** The body of the modification loop: one trimmed modification checked and parsed. */
  method ParseModification(raw: string) returns (r: Result<Modification, Exception>)
    ensures r == ParseMod(raw)
  {
    var mod := JavaTrim(raw);
    if |mod| < 3 {
      return Failure(IllegalArgument("Invalid modification: " + mod));
    }
    var c := CategoryOf(mod[0]);
    if c.None? {
      return Failure(IllegalArgument("Invalid policy category in " + mod));
    }
    var rs := ParseRoles(mod[2..]);
    if rs.None? {
      return Failure(IllegalArgument("Invalid role in " + mod));
    }
    if mod[1] == '+' {
      return Success(Modification(c.value, true, rs.value));
    } else if mod[1] == '-' {
      return Success(Modification(c.value, false, rs.value));
    }
    return Failure(IllegalArgument("Invalid operator in " + mod));
  }

  /** The closing loop over the categories. */
  method FindConflict(ins: Instruction) returns (r: Option<Category>)
    ensures r == FirstConflict(ins, ALL_CATEGORIES)
  {
    var k := 0;
    while k < |ALL_CATEGORIES|
      invariant 0 <= k <= |ALL_CATEGORIES|
      invariant FirstConflict(ins, ALL_CATEGORIES) == FirstConflict(ins, ALL_CATEGORIES[k..])
    {
      var c := ALL_CATEGORIES[k];
      assert ALL_CATEGORIES[k..][1..] == ALL_CATEGORIES[k + 1..];
      if RolesIn(ins.toAdd, c) * RolesIn(ins.toRemove, c) != {} {
        return Some(c);
      }
      k := k + 1;
    }
    return None;
  }

  /** The loop step of ApplyModifications: the next parsed modification `p` stops or extends the result. */
  lemma ApplyNext(ps: seq<Result<Modification, Exception>>, i: nat, ins: Instruction, p: Result<Modification, Exception>)
    requires i < |ps| && ps[i] == p && ApplyAll(ps[..i]) == Success(ins)
    ensures p.Failure? ==> ApplyAll(ps) == Failure(p.error)
    ensures p.Success? ==> ApplyAll(ps[..i + 1]) == Success(Put(ins, p.value))
  {
    ApplyAllStep(ps, i);
    if p.Failure? {
      PrefixFailure(ps, i + 1);
    }
  }

  /** The loop over the comma-separated modifications. */
  method ApplyModifications(mods: seq<string>) returns (r: Result<Instruction, Exception>)
    ensures r == ApplyAll(ParseAll(mods))
  {
    ghost var ps := ParseAll(mods);
    var ins := Instruction(map[], map[]);
    var i := 0;
    while i < |mods|
      invariant 0 <= i <= |mods|
      invariant ApplyAll(ps[..i]) == Success(ins)
    {
      var m := ParseModification(mods[i]);
      ApplyNext(ps, i, ins, m);
      if m.Failure? {
        return Failure(m.error);
      }
      ins := Put(ins, m.value);
      i := i + 1;
    }
    assert ps[..i] == ps;
    return Success(ins);
  }

  /** The ChangeInstruction constructor. */
  method ParseInstruction(s: string) returns (r: Result<Instruction, Exception>)
    ensures r == Instructions(s)
  {
    var applied := ApplyModifications(JavaSplit(s, ','));
    if applied.Failure? {
      return Failure(applied.error);
    }
    var ins := applied.value;
    var conflict := FindConflict(ins);
    if conflict.Some? {
      return Failure(ConflictError(s, ins, conflict.value));
    }
    return Success(ins);
  }

  /** The policy after an instruction: per category, the old roles plus those added, less those removed. */
  function Changed(old_: set<Role>, ins: Instruction, c: Category): set<Role>
  {
    (old_ + RolesIn(ins.toAdd, c)) - RolesIn(ins.toRemove, c)
  }

  /** execute: every category is rewritten, each from its own old roles. */
  method Execute(policy: Policy, ins: Instruction)
    modifies policy
    ensures forall c :: c in policy.permissions
    ensures forall c :: policy.GetRoles(c) == Changed(old(policy.GetRoles(c)), ins, c)
  {
    ghost var before := policy.permissions;
    for k := 0 to |ALL_CATEGORIES|
      invariant forall j :: 0 <= j < k ==> ALL_CATEGORIES[j] in policy.permissions
      invariant forall j :: 0 <= j < k ==>
        policy.GetRoles(ALL_CATEGORIES[j]) == Changed(RolesIn(before, ALL_CATEGORIES[j]), ins, ALL_CATEGORIES[j])
      invariant forall j :: k <= j < |ALL_CATEGORIES| ==>
        policy.GetRoles(ALL_CATEGORIES[j]) == RolesIn(before, ALL_CATEGORIES[j])
    {
      var c := ALL_CATEGORIES[k];
      var roles := policy.GetRoles(c);
      roles := roles + RolesIn(ins.toAdd, c);
      roles := roles - RolesIn(ins.toRemove, c);
      policy.SetRoles(c, roles);
    }
    forall c
      ensures c in policy.permissions
      ensures policy.GetRoles(c) == Changed(RolesIn(before, c), ins, c)
    {
      assert c == ALL_CATEGORIES[0] || c == ALL_CATEGORIES[1] || c == ALL_CATEGORIES[2] || c == ALL_CATEGORIES[3];
    }
  }

  /**
   * Under a consistent instruction, a role added to a category is granted
   * afterwards, a role removed is not, and a role neither added nor
   * removed keeps its old standing.
   */
  lemma {:induction false} ChangedMeaning(old_: set<Role>, s: string, c: Category, r: Role)
    requires Instructions(s).Success?
    ensures var ins := Instructions(s).value;
      && (r in RolesIn(ins.toAdd, c) ==> r in Changed(old_, ins, c))
      && (r in RolesIn(ins.toRemove, c) ==> r !in Changed(old_, ins, c))
      && (r !in RolesIn(ins.toAdd, c) && r !in RolesIn(ins.toRemove, c) ==> (r in Changed(old_, ins, c) <==> r in old_))
  {
    InstructionConsistent(s, c);
    var ins := Instructions(s).value;
    if r in RolesIn(ins.toAdd, c) {
      assert r !in RolesIn(ins.toRemove, c) by {
        assert r !in RolesIn(ins.toAdd, c) * RolesIn(ins.toRemove, c);
      }
    }
  }
}
