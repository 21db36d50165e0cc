/** The policy engine at the level of names: wildcards and the system-policy ceiling. */
module Policy {
  import opened Wrappers
  import opened Protocol

  type TypeOps = map<string, seq<string>>

  datatype SystemPolicy = SystemPolicy(commands: seq<string>, progTypes: TypeOps, mapTypes: TypeOps)

  datatype Role = Role(groups: seq<string>, commands: seq<string>, progTypes: TypeOps, mapTypes: TypeOps)

  datatype PolicyConfig = PolicyConfig(systemPolicy: Option<SystemPolicy>, roles: map<string, Role>)

  const ANY: string := "any"

  predicate ListAllows(list: seq<string>, x: string) {
    exists e | e in list :: e == ANY || e == x
  }

  /** A wildcard key, when present, is the only key consulted. */
  predicate CheckTypeOp(m: TypeOps, typeName: string, op: string) {
    if ANY in m then ListAllows(m[ANY], op)
    else if typeName in m then ListAllows(m[typeName], op)
    else false
  }

  function ProgCeiling(config: PolicyConfig): Option<TypeOps> {
    if config.systemPolicy.Some? then Some(config.systemPolicy.value.progTypes) else None
  }

  function MapCeiling(config: PolicyConfig): Option<TypeOps> {
    if config.systemPolicy.Some? then Some(config.systemPolicy.value.mapTypes) else None
  }

  predicate IsCommandAllowed(config: PolicyConfig, role: Role, command: string) {
    && ListAllows(role.commands, command)
    && (config.systemPolicy.Some? ==> ListAllows(config.systemPolicy.value.commands, command))
  }

  predicate IsProgOpAllowed(config: PolicyConfig, role: Role, progType: string, op: string) {
    && CheckTypeOp(role.progTypes, progType, op)
    && (config.systemPolicy.Some? ==> CheckTypeOp(config.systemPolicy.value.progTypes, progType, op))
  }

  predicate IsMapOpAllowed(config: PolicyConfig, role: Role, mapType: string, op: string) {
    && CheckTypeOp(role.mapTypes, mapType, op)
    && (config.systemPolicy.Some? ==> CheckTypeOp(config.systemPolicy.value.mapTypes, mapType, op))
  }

  predicate IsAllowed(config: PolicyConfig, roleName: string, request: Request) {
    && roleName in config.roles
    && var role := config.roles[roleName];
       match request
       case LoadProgram(progType, _, _) =>
         IsCommandAllowed(config, role, "PROG_LOAD") && IsProgOpAllowed(config, role, progType, "load")
       case CreateMap(mapType, _, _, _, _) =>
         IsCommandAllowed(config, role, "MAP_CREATE") && IsMapOpAllowed(config, role, mapType, "create")
       case Attach(attachType, _, _) =>
         IsCommandAllowed(config, role, "PROG_ATTACH") && IsProgOpAllowed(config, role, attachType, "attach")
  }

  // ---- Growing a type map

  /** `n` has all the keys of `m`, each with at least the operations it had. */
  ghost predicate Extends(n: TypeOps, m: TypeOps) {
    forall k :: k in m ==> k in n && Elements(m[k]) <= Elements(n[k])
  }

  /** Granting more can take rights away, because a new wildcard key shadows the specific
      ones. It never does so exactly when the wildcard key is not new, or its own list
      covers everything the old keys granted. */
  lemma ExtensionIsMonotoneIff(m: TypeOps, n: TypeOps)
    requires Extends(n, m)
    ensures (forall t, op :: CheckTypeOp(m, t, op) ==> CheckTypeOp(n, t, op))
       <==> (ANY in m || ANY !in n || forall k, op :: k in m && op in m[k] ==> ListAllows(n[ANY], op))
  {
    if ANY !in m && ANY in n {
      if forall t, op :: CheckTypeOp(m, t, op) ==> CheckTypeOp(n, t, op) {
        forall k, op | k in m && op in m[k] ensures ListAllows(n[ANY], op) {
          assert CheckTypeOp(m, k, op);
        }
      }
      if forall k, op :: k in m && op in m[k] ==> ListAllows(n[ANY], op) {
        forall t, op | CheckTypeOp(m, t, op) ensures CheckTypeOp(n, t, op) {
          if ANY in m[t] { assert ListAllows(n[ANY], ANY); }
        }
      }
    } else {
      forall t, op | CheckTypeOp(m, t, op) ensures CheckTypeOp(n, t, op) {
        var k := if ANY in m then ANY else t;
        assert Elements(m[k]) <= Elements(n[k]);
      }
    }
  }

  /** Adding `any: [read]` to `hash: [create]` takes `create` on hash maps away. */
  lemma NewWildcardTakesRightsAway()
    ensures var m := map["hash" := ["create"]]; var n := m[ANY := ["read"]];
            Extends(n, m) && CheckTypeOp(m, "hash", "create") && !CheckTypeOp(n, "hash", "create")
  {
    var m := map["hash" := ["create"]];
    var n := m[ANY := ["read"]];
    assert "create" in m["hash"];
    assert n[ANY] == ["read"];
  }

  // ---- The decisions, entry by entry

  /** A command is allowed iff it, or `any`, is on the role's list and on the ceiling's. */
  lemma CommandDecision(config: PolicyConfig, role: Role, command: string)
    ensures IsCommandAllowed(config, role, command)
       <==> && ("any" in role.commands || command in role.commands)
            && (config.systemPolicy.Some? ==>
                  var listed := config.systemPolicy.value.commands; "any" in listed || command in listed)
  {
  }

  /** An operation on a program type is allowed iff, in the role's map and in the ceiling's,
      the list consulted exists and contains this very operation or `any`. The list consulted
      is that of the key `any` if there is one, else that of the type. */
  lemma ProgOpDecision(config: PolicyConfig, role: Role, t: string, op: string)
    ensures IsProgOpAllowed(config, role, t, op)
       <==> && (var m := role.progTypes; var k := if "any" in m then "any" else t;
                k in m && ("any" in m[k] || op in m[k]))
            && (config.systemPolicy.Some? ==>
                  var m := config.systemPolicy.value.progTypes; var k := if "any" in m then "any" else t;
                  k in m && ("any" in m[k] || op in m[k]))
  {
  }

  lemma MapOpDecision(config: PolicyConfig, role: Role, t: string, op: string)
    ensures IsMapOpAllowed(config, role, t, op)
       <==> && (var m := role.mapTypes; var k := if "any" in m then "any" else t;
                k in m && ("any" in m[k] || op in m[k]))
            && (config.systemPolicy.Some? ==>
                  var m := config.systemPolicy.value.mapTypes; var k := if "any" in m then "any" else t;
                  k in m && ("any" in m[k] || op in m[k]))
  {
  }

  /** The whole decision on a request: the role is configured, and its command list and type
      map, and the ceiling's, grant the command and the operation that the request needs. */
  lemma RequestDecision(config: PolicyConfig, roleName: string, request: Request)
    ensures
      var lists := (list: seq<string>, x: string) => "any" in list || x in list;
      var grants := (m: TypeOps, t: string, op: string) =>
                      var k := if "any" in m then "any" else t; k in m && ("any" in m[k] || op in m[k]);
      IsAllowed(config, roleName, request)
      <==> && roleName in config.roles
           && var role, sys := config.roles[roleName], config.systemPolicy;
              match request
              case LoadProgram(t, _, _) =>
                && lists(role.commands, "PROG_LOAD") && grants(role.progTypes, t, "load")
                && (sys.Some? ==> lists(sys.value.commands, "PROG_LOAD") && grants(sys.value.progTypes, t, "load"))
              case CreateMap(t, _, _, _, _) =>
                && lists(role.commands, "MAP_CREATE") && grants(role.mapTypes, t, "create")
                && (sys.Some? ==> lists(sys.value.commands, "MAP_CREATE") && grants(sys.value.mapTypes, t, "create"))
              case Attach(t, _, _) =>
                && lists(role.commands, "PROG_ATTACH") && grants(role.progTypes, t, "attach")
                && (sys.Some? ==> lists(sys.value.commands, "PROG_ATTACH") && grants(sys.value.progTypes, t, "attach"))
  {
    if roleName in config.roles {
      var role := config.roles[roleName];
      match request
      case LoadProgram(t, _, _) =>
        CommandDecision(config, role, "PROG_LOAD");
        ProgOpDecision(config, role, t, "load");
      case CreateMap(t, _, _, _, _) =>
        CommandDecision(config, role, "MAP_CREATE");
        MapOpDecision(config, role, t, "create");
      case Attach(t, _, _) =>
        CommandDecision(config, role, "PROG_ATTACH");
        ProgOpDecision(config, role, t, "attach");
    }
  }
}
