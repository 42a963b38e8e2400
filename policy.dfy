/**
 * A thing's policy (auth/Policy.java): for each permission category, the
 * set of roles granted that permission.
 */
module PolicyModel {
  /**
   * The roles named in this model. Role.java is not part of this model;
   * these are the roles the policy instruction language and the checks
   * refer to.
   */
  datatype Role = GUEST | DENIZEN | OWNER | BARD | ADEPT | THAUMATURGE | GOD

  datatype Category = GENERAL | READ | WRITE | USE

  /** Category.values(), in declaration order. */
  const ALL_CATEGORIES: seq<Category> := [GENERAL, READ, WRITE, USE]

  /** Map.getOrDefault with the empty set. */
  function RolesIn(m: map<Category, set<Role>>, c: Category): (r: set<Role>)
    ensures c in m ==> r == m[c]
    ensures c !in m ==> r == {}
  {
    if c in m then m[c] else {}
  }

  class Policy {
    var permissions: map<Category, set<Role>>

    /** A new policy grants nothing. */
    constructor ()
      ensures permissions == map[]
      ensures forall c :: GetRoles(c) == {}
    {
      permissions := map[];
    }

    /** The deserializing constructor copies the given permissions. */
    constructor FromMap(m: map<Category, set<Role>>)
      ensures permissions == m
    {
      permissions := m;
    }

    /** The roles granted a category; none when the category was never set. */
    function GetRoles(c: Category): (r: set<Role>)
      reads this
      ensures r == RolesIn(permissions, c)
    {
      RolesIn(permissions, c)
    }

    /** Replaces the roles of one category; the others keep theirs. */
    method SetRoles(c: Category, roles: set<Role>)
      modifies this
      ensures permissions == old(permissions)[c := roles]
      ensures GetRoles(c) == roles
      ensures forall d :: d != c ==> GetRoles(d) == old(GetRoles(d))
    {
      permissions := permissions[c := roles];
    }

    /** The categories that grant the role. */
    function GetCategories(role: Role): (r: set<Category>)
      reads this
      ensures forall c :: c in r <==> role in GetRoles(c)
    {
      set c | c in permissions && role in permissions[c]
    }

    /** Whether any of the roles is granted the category. */
    predicate Passes(c: Category, roles: set<Role>)
      reads this
    {
      roles * GetRoles(c) != {}
    }
  }

  /** A check passes exactly when some offered role is granted the category. */
  lemma PassesMeaning(p: Policy, c: Category, roles: set<Role>)
    ensures p.Passes(c, roles) <==> exists r :: r in roles && r in p.GetRoles(c)
  {
    if p.Passes(c, roles) {
      var r :| r in roles * p.GetRoles(c);
    } else {
      forall r | r in roles
        ensures r !in p.GetRoles(c)
      {
        assert r !in roles * p.GetRoles(c);
      }
    }
  }

  /** A role's categories are exactly those it passes alone. */
  lemma CategoriesArePasses(p: Policy, role: Role, c: Category)
    ensures c in p.GetCategories(role) <==> p.Passes(c, {role})
  {
    PassesMeaning(p, c, {role});
  }

  /** Passing is monotone in the roles offered. */
  lemma PassesMonotone(p: Policy, c: Category, roles: set<Role>, more: set<Role>)
    requires roles <= more
    ensures p.Passes(c, roles) ==> p.Passes(c, more)
  {
    PassesMeaning(p, c, roles);
    PassesMeaning(p, c, more);
  }
}
