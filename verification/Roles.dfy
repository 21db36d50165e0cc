/** From a user to a role: the user's groups, then the role those groups select. */
module Roles {
  import opened Wrappers
  import opened Policy

  const PRIORITY: seq<string> := ["ebpf-admin", "ebpf-net", "ebpf"]

  ghost predicate SharesGroup(role: Role, groups: set<string>) {
    exists g :: g in role.groups && g in groups
  }

  ghost predicate Matches(config: PolicyConfig, name: string, groups: set<string>) {
    name in config.roles && SharesGroup(config.roles[name], groups)
  }

  /** The first of `names` that is configured and shares a group with the user. */
  ghost function FirstMatch(config: PolicyConfig, names: seq<string>, groups: set<string>): (r: Option<string>)
    ensures r.Some? ==> r.value in names && Matches(config, r.value, groups)
    ensures r.None? ==> forall n :: n in names ==> !Matches(config, n, groups)
  {
    if names == [] then None
    else if Matches(config, names[0], groups) then Some(names[0])
    else FirstMatch(config, names[1..], groups)
  }

  /** The role of a user: well-known roles first, then the hash map's own order. */
  ghost function RoleFor(config: PolicyConfig, order: seq<string>, groups: set<string>): Option<string> {
    FirstMatch(config, PRIORITY + order, groups)
  }

  lemma {:induction false} FirstMatchAt(config: PolicyConfig, names: seq<string>, groups: set<string>, k: nat)
    requires k < |names| && Matches(config, names[k], groups)
    requires forall j :: 0 <= j < k ==> !Matches(config, names[j], groups)
    ensures FirstMatch(config, names, groups) == Some(names[k])
  {
    if k > 0 { FirstMatchAt(config, names[1..], groups, k - 1); }
  }

  // ---- get_role_for_groups

  method HasCommonGroup(role: Role, userGroups: seq<string>) returns (found: bool)
    ensures found <==> exists i :: 0 <= i < |role.groups| && role.groups[i] in userGroups
    ensures found <==> SharesGroup(role, Elements(userGroups))
  {
    for i := 0 to |role.groups|
      invariant forall j :: 0 <= j < i ==> role.groups[j] !in userGroups
    {
      if role.groups[i] in userGroups {
        return true;
      }
    }
    return false;
  }

  method GetRoleForGroups(config: PolicyConfig, order: seq<string>, userGroups: seq<string>) returns (r: Option<string>)
    requires Enumerates(order, config.roles.Keys)
    ensures r == RoleFor(config, order, Elements(userGroups))
  {
    ghost var groups := Elements(userGroups);
    ghost var names := PRIORITY + order;
    for k := 0 to |PRIORITY|
      invariant forall j :: 0 <= j < k ==> !Matches(config, names[j], groups)
    {
      if PRIORITY[k] in config.roles {
        var found := HasCommonGroup(config.roles[PRIORITY[k]], userGroups);
        if found {
          FirstMatchAt(config, names, groups, k);
          return Some(PRIORITY[k]);
        }
      }
    }
    for k := 0 to |order|
      invariant forall j :: 0 <= j < |PRIORITY| + k ==> !Matches(config, names[j], groups)
    {
      var found := HasCommonGroup(config.roles[order[k]], userGroups);
      if found {
        FirstMatchAt(config, names, groups, |PRIORITY| + k);
        return Some(order[k]);
      }
    }
    return None;
  }

  // ---- What the resolved role is

  /** 0, 1, 2 for the well-known roles in order, 3 for any other, 4 for no role. */
  function Rank(r: Option<string>): nat {
    if r.None? then 4
    else if r.value == "ebpf-admin" then 0
    else if r.value == "ebpf-net" then 1
    else if r.value == "ebpf" then 2
    else 3
  }

  lemma PriorityRanks(k: nat)
    requires k < 3
    ensures Rank(Some(PRIORITY[k])) == k
  {
  }

  /** A role is found iff some configured role shares a group with the user; it is one of
      those, and none of those has a better rank. */
  lemma ResolvedRoleIsBest(config: PolicyConfig, order: seq<string>, groups: set<string>)
    requires Enumerates(order, config.roles.Keys)
    ensures var r := RoleFor(config, order, groups);
            && (r.Some? <==> exists n :: Matches(config, n, groups))
            && (r.Some? ==> Matches(config, r.value, groups))
            && (forall n :: Matches(config, n, groups) ==> Rank(r) <= Rank(Some(n)))
  {
    var r := RoleFor(config, order, groups);
    forall n | Matches(config, n, groups) ensures r.Some? && Rank(r) <= Rank(Some(n)) {
      assert n in order && n in PRIORITY + order;
      BestPriority(config, order, groups, n);
    }
  }

  lemma BestPriority(config: PolicyConfig, order: seq<string>, groups: set<string>, n: string)
    requires Matches(config, n, groups) && n in order
    ensures Rank(RoleFor(config, order, groups)) <= Rank(Some(n))
  {
    var names := PRIORITY + order;
    assert names[0] == PRIORITY[0] && names[1] == PRIORITY[1] && names[2] == PRIORITY[2];
    if k: nat :| && k < 3 && Matches(config, PRIORITY[k], groups)
                 && forall j: nat :: j < k ==> !Matches(config, PRIORITY[j], groups) {
      FirstMatchAt(config, names, groups, k);
      PriorityRanks(k);
    }
  }

  /** Joining more groups never costs a user rank. */
  lemma MoreGroupsNeverLowerRank(config: PolicyConfig, order: seq<string>, groups: set<string>, more: set<string>)
    requires Enumerates(order, config.roles.Keys) && groups <= more
    ensures Rank(RoleFor(config, order, more)) <= Rank(RoleFor(config, order, groups))
  {
    var r := RoleFor(config, order, groups);
    ResolvedRoleIsBest(config, order, groups);
    ResolvedRoleIsBest(config, order, more);
    if r.Some? {
      var g :| g in config.roles[r.value].groups && g in groups;
      assert g in more;
      assert Matches(config, r.value, more);
    }
  }

  // ---- When the hash map's order shows

  lemma EnumerationExists(keys: set<string>) returns (order: seq<string>)
    ensures Enumerates(order, keys)
  {
    if keys == {} {
      order := [];
    } else {
      var x :| x in keys;
      var rest := EnumerationExists(keys - {x});
      order := [x] + rest;
    }
  }

  /** A matching ordinary role that happens to be walked first is the one resolved. */
  lemma FirstInOrderWins(config: PolicyConfig, groups: set<string>, n: string) returns (order: seq<string>)
    requires Matches(config, n, groups)
    requires forall k: nat :: k < 3 ==> !Matches(config, PRIORITY[k], groups)
    ensures Enumerates(order, config.roles.Keys) && RoleFor(config, order, groups) == Some(n)
  {
    var rest := EnumerationExists(config.roles.Keys - {n});
    order := [n] + rest;
    FirstMatchAt(config, PRIORITY + order, groups, 3);
  }

  ghost predicate OrderIndependent(config: PolicyConfig, groups: set<string>) {
    forall a, b :: Enumerates(a, config.roles.Keys) && Enumerates(b, config.roles.Keys) ==>
      RoleFor(config, a, groups) == RoleFor(config, b, groups)
  }

  /** The role depends on the order in which the hash map is walked exactly when no
      well-known role matches and two others do. */
  lemma OrderIndependentIff(config: PolicyConfig, groups: set<string>)
    ensures OrderIndependent(config, groups)
       <==> (|| (exists k: nat :: k < 3 && Matches(config, PRIORITY[k], groups))
             || (forall m, n :: Matches(config, m, groups) && Matches(config, n, groups) ==> m == n))
  {
    if exists k: nat :: k < 3 && Matches(config, PRIORITY[k], groups) {
      forall a, b | Enumerates(a, config.roles.Keys) && Enumerates(b, config.roles.Keys)
        ensures RoleFor(config, a, groups) == RoleFor(config, b, groups)
      {
        SamePriorityRole(config, a, b, groups);
      }
    } else {
      if OrderIndependent(config, groups) {
        forall m, n | Matches(config, m, groups) && Matches(config, n, groups) ensures m == n {
          var a := FirstInOrderWins(config, groups, m);
          var b := FirstInOrderWins(config, groups, n);
          assert RoleFor(config, a, groups) == RoleFor(config, b, groups);
        }
      }
      if forall m, n :: Matches(config, m, groups) && Matches(config, n, groups) ==> m == n {
        forall a, b | Enumerates(a, config.roles.Keys) && Enumerates(b, config.roles.Keys)
          ensures RoleFor(config, a, groups) == RoleFor(config, b, groups)
        {
          ResolvedRoleIsBest(config, a, groups);
          ResolvedRoleIsBest(config, b, groups);
        }
      }
    }
  }

  lemma SamePriorityRole(config: PolicyConfig, a: seq<string>, b: seq<string>, groups: set<string>)
    requires exists k: nat :: k < 3 && Matches(config, PRIORITY[k], groups)
    ensures RoleFor(config, a, groups) == RoleFor(config, b, groups)
  {
    var k: nat := if Matches(config, PRIORITY[0], groups) then 0
                  else if Matches(config, PRIORITY[1], groups) then 1
                  else 2;
    assert forall j :: 0 <= j < 3 ==> (PRIORITY + a)[j] == PRIORITY[j] == (PRIORITY + b)[j];
    FirstMatchAt(config, PRIORITY + a, groups, k);
    FirstMatchAt(config, PRIORITY + b, groups, k);
  }

  // ---- get_user_groups

  /** What the user database answers: the name of the primary group if it resolves, and the
      group list, each entry a name if it resolves, unless the lookup itself fails. */
  datatype UserDb = UserDb(primary: Option<string>, groupList: Option<seq<Option<string>>>)

  /** The groups that resolve: the report's order and repetitions are gone. */
  ghost function GroupsOf(db: UserDb): (r: set<string>)
    ensures forall g :: g in r <==> db.primary == Some(g) || (db.groupList.Some? && Some(g) in db.groupList.value)
  {
    (if db.primary.Some? then {db.primary.value} else {})
    + (if db.groupList.Some? then set x | x in db.groupList.value && x.Some? :: x.value else {})
  }

  ghost predicate NoDuplicates(s: seq<string>) {
    forall i, j :: 0 <= i < j < |s| ==> s[i] != s[j]
  }

  method GetUserGroups(db: UserDb) returns (groups: seq<string>)
    ensures NoDuplicates(groups)
    ensures Elements(groups) == GroupsOf(db)
    ensures db.primary.Some? ==> |groups| > 0 && groups[0] == db.primary.value
  {
    groups := [];
    if db.primary.Some? {
      groups := groups + [db.primary.value];
    }
    if db.groupList.Some? {
      var list := db.groupList.value;
      for i := 0 to |list|
        invariant NoDuplicates(groups)
        invariant db.primary.Some? ==> |groups| > 0 && groups[0] == db.primary.value
        invariant forall g :: g in groups <==> db.primary == Some(g) || Some(g) in list[..i]
      {
        if list[i].Some? && list[i].value !in groups {
          groups := groups + [list[i].value];
        }
      }
    }
  }

  /** The role resolved for a user is a function of the set of groups that resolve. */
  method ResolveUser(config: PolicyConfig, order: seq<string>, db: UserDb) returns (role: Option<string>)
    requires Enumerates(order, config.roles.Keys)
    ensures role == RoleFor(config, order, GroupsOf(db))
  {
    var groups := GetUserGroups(db);
    role := GetRoleForGroups(config, order, groups);
  }

  // ---- The resolution, entry by entry

  /** A role is resolved iff some configured role lists one of the user's groups, and then it
      is such a role. */
  lemma ResolvedIffGroupListed(config: PolicyConfig, order: seq<string>, groups: set<string>)
    requires Enumerates(order, config.roles.Keys)
    ensures RoleFor(config, order, groups).Some?
       <==> exists n, g :: n in config.roles && g in config.roles[n].groups && g in groups
    ensures RoleFor(config, order, groups).Some? ==>
              var r := RoleFor(config, order, groups).value;
              r in config.roles && exists g :: g in config.roles[r].groups && g in groups
  {
    ResolvedRoleIsBest(config, order, groups);
    if n, g :| n in config.roles && g in config.roles[n].groups && g in groups {
      assert Matches(config, n, groups);
    }
  }

  /** Of the roles that list one of the user's groups, the well-known ones go first, in this
      order. */
  lemma WellKnownRolesGoFirst(config: PolicyConfig, order: seq<string>, groups: set<string>)
    ensures "ebpf-admin" in config.roles && (exists g :: g in config.roles["ebpf-admin"].groups && g in groups) ==>
              RoleFor(config, order, groups) == Some("ebpf-admin")
    ensures && "ebpf-net" in config.roles && (exists g :: g in config.roles["ebpf-net"].groups && g in groups)
            && ("ebpf-admin" in config.roles ==> forall g :: g in config.roles["ebpf-admin"].groups ==> g !in groups)
            ==> RoleFor(config, order, groups) == Some("ebpf-net")
    ensures && "ebpf" in config.roles && (exists g :: g in config.roles["ebpf"].groups && g in groups)
            && ("ebpf-admin" in config.roles ==> forall g :: g in config.roles["ebpf-admin"].groups ==> g !in groups)
            && ("ebpf-net" in config.roles ==> forall g :: g in config.roles["ebpf-net"].groups ==> g !in groups)
            ==> RoleFor(config, order, groups) == Some("ebpf")
  {
    var names := PRIORITY + order;
    assert names[0] == "ebpf-admin" && names[1] == "ebpf-net" && names[2] == "ebpf";
    if
    case Matches(config, "ebpf-admin", groups) => FirstMatchAt(config, names, groups, 0);
    case !Matches(config, "ebpf-admin", groups) && Matches(config, "ebpf-net", groups) =>
      FirstMatchAt(config, names, groups, 1);
    case !Matches(config, "ebpf-admin", groups) && !Matches(config, "ebpf-net", groups) =>
      if Matches(config, "ebpf", groups) { FirstMatchAt(config, names, groups, 2); }
  }

  /** Any other role is resolved only if it is the first one walked that lists such a group. */
  lemma OtherRolesGoInOrder(config: PolicyConfig, order: seq<string>, groups: set<string>)
    requires RoleFor(config, order, groups).Some?
    requires RoleFor(config, order, groups).value !in ["ebpf-admin", "ebpf-net", "ebpf"]
    ensures exists k :: && 0 <= k < |order| && order[k] == RoleFor(config, order, groups).value
                        && forall j, g :: 0 <= j < k && order[j] in config.roles && g in config.roles[order[j]].groups
                                          ==> g !in groups
  {
    var names := PRIORITY + order;
    var i := FirstMatchIndex(config, names, groups);
    assert PRIORITY == ["ebpf-admin", "ebpf-net", "ebpf"];
    assert i >= 3;
    var k := i - 3;
    forall j, g | 0 <= j < k && order[j] in config.roles && g in config.roles[order[j]].groups ensures g !in groups {
      assert names[j + 3] == order[j] && !Matches(config, names[j + 3], groups);
    }
    assert order[k] == names[i];
  }

  lemma {:induction false} FirstMatchIndex(config: PolicyConfig, names: seq<string>, groups: set<string>)
    returns (k: nat)
    ensures k <= |names| && forall j :: 0 <= j < k ==> !Matches(config, names[j], groups)
    ensures FirstMatch(config, names, groups) == if k < |names| then Some(names[k]) else None
  {
    if names == [] || Matches(config, names[0], groups) {
      k := 0;
    } else {
      var j := FirstMatchIndex(config, names[1..], groups);
      k := j + 1;
    }
  }
}
