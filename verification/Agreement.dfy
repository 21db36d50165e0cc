/** The two enforcement points compared: the proxy decides on names, the kernel hooks on
    the words compiled from the same policy. */
module Agreement {
  import opened Wrappers
  import opened Bits
  import opened BitTables
  import opened Protocol
  import opened Policy
  import opened Bitmaps
  import opened Ceiling
  import opened Lsm

  /** The map entry for a namespace that holds `role`. */
  ghost function CompiledPolicy(config: PolicyConfig, role: Role): PolicyValue {
    PolicyValue(CommandsMask(config, role), ProgTypesMask(config, role), MapTypesMask(config, role), 0, 0)
  }

  function CommandOf(request: Request): string {
    match request
    case LoadProgram(_, _, _) => "PROG_LOAD"
    case CreateMap(_, _, _, _, _) => "MAP_CREATE"
    case Attach(_, _, _) => "PROG_ATTACH"
  }

  /** The request names a type that has a kernel number, where the kernel is given one: an
      attach passes no program type to it. */
  predicate Numbered(request: Request) {
    match request
    case LoadProgram(t, _, _) => ProgTypeToBit(t).Some?
    case CreateMap(t, _, _, _, _) => MapTypeToBit(t).Some?
    case Attach(_, _, _) => true
  }

  /** The hook that runs on the request's type, if one does: none runs on an attach. */
  function TypeCheckOf(request: Request): Option<Check>
    requires Numbered(request)
  {
    match request
    case LoadProgram(t, _, _) => Some(ProgLoad(ProgTypeToBit(t)))
    case CreateMap(t, _, _, _, _) => Some(MapCreate(MapTypeToBit(t)))
    case Attach(_, _, _) => None
  }

  /** All the hooks that run on the request let it through from namespace `id`. */
  predicate LsmAllows(policies: PolicyMap, id: UsernsId, request: Request)
    requires Numbered(request)
  {
    && CommandToBit(CommandOf(request)).Some?
    && Allows(policies, HookCall(0, Ok(id), Command(CommandToBit(CommandOf(request)).value)))
    && (TypeCheckOf(request).Some? ==> Allows(policies, HookCall(0, Ok(id), TypeCheckOf(request).value)))
  }

  /** Which hooks run on which request, by kernel number: a load and a map creation meet the
      command hook and their type hook, an attach the command hook alone. */
  lemma HooksOfRequests(policies: PolicyMap, id: UsernsId, request: Request)
    requires Numbered(request)
    ensures LsmAllows(policies, id, request)
       <==> match request
            case LoadProgram(t, _, _) =>
              && Hook(policies, HookCall(0, Ok(id), Command(5))) == 0
              && Hook(policies, HookCall(0, Ok(id), ProgLoad(ProgTypeToBit(t)))) == 0
            case CreateMap(t, _, _, _, _) =>
              && Hook(policies, HookCall(0, Ok(id), Command(0))) == 0
              && Hook(policies, HookCall(0, Ok(id), MapCreate(MapTypeToBit(t)))) == 0
            case Attach(_, _, _) =>
              Hook(policies, HookCall(0, Ok(id), Command(8))) == 0
  {
    CommandNumbers();
  }

  // ---- The hooks read exactly the compiled bits

  lemma CommandNumbers()
    ensures CommandToBit("PROG_LOAD") == Some(5)
    ensures CommandToBit("MAP_CREATE") == Some(0)
    ensures CommandToBit("PROG_ATTACH") == Some(8)
  {
  }

  lemma HookReadsCompiledBit(config: PolicyConfig, role: Role, policies: PolicyMap, id: UsernsId, check: Check)
    requires id in policies && policies[id] == CompiledPolicy(config, role)
    requires TestedBit(check).Some?
    ensures Allows(policies, HookCall(0, Ok(id), check))
       <==> HasBit(TestedWord(CompiledPolicy(config, role), check), TestedBit(check).value)
  {
    VerdictExact(policies, HookCall(0, Ok(id), check));
    HasBitZero(0);
    HasBitZero(1);
  }

  // ---- Commands

  /** The word lets through a command that the names deny: a role wildcard, which skips the
      ceiling, under a ceiling without the command. */
  predicate CommandGap(config: PolicyConfig, role: Role, command: string) {
    && ANY in role.commands
    && config.systemPolicy.Some?
    && !ListAllows(config.systemPolicy.value.commands, command)
  }

  lemma CommandBitExact(config: PolicyConfig, role: Role, command: string)
    requires CommandToBit(command).Some?
    ensures HasBit(CommandsMask(config, role), CommandToBit(command).value)
       <==> IsCommandAllowed(config, role, command) || CommandGap(config, role, command)
  {
    var b := CommandToBit(command).value;
    var sys := config.systemPolicy;
    EffectiveBit(CommandToBit, Elements(role.commands),
                 if sys.Some? then Some(Elements(sys.value.commands)) else None, b);
    CommandNamed(role.commands, command);
    if sys.Some? { CommandNamed(sys.value.commands, command); }
  }

  lemma CommandNamed(list: seq<string>, command: string)
    requires CommandToBit(command).Some?
    ensures Named(CommandToBit, Elements(list), CommandToBit(command).value) <==> command in list
  {
  }

  /** Names and word agree on all 32 commands exactly when the role has no wildcard, or the
      ceiling is absent, has a wildcard itself, or lists all 32. */
  lemma CommandsAgreeIff(config: PolicyConfig, role: Role)
    ensures (forall c :: CommandToBit(c).Some? ==>
               (HasBit(CommandsMask(config, role), CommandToBit(c).value) <==> IsCommandAllowed(config, role, c)))
       <==> (|| ANY !in role.commands
             || config.systemPolicy.None?
             || ANY in config.systemPolicy.value.commands
             || forall i: nat :: i < 32 ==>
                  CommandName(i).Some? && CommandName(i).value in config.systemPolicy.value.commands)
  {
    forall c | CommandToBit(c).Some?
      ensures (HasBit(CommandsMask(config, role), CommandToBit(c).value) <==> IsCommandAllowed(config, role, c))
         <==> !CommandGap(config, role, c)
    {
      CommandBitExact(config, role, c);
    }
    forall i: nat | i < 32 ensures CommandName(i).Some? && CommandToBit(CommandName(i).value) == Some(i) {
      CommandTableOnto(i);
    }
    if config.systemPolicy.Some? && ANY in role.commands && ANY !in config.systemPolicy.value.commands {
      var listed := config.systemPolicy.value.commands;
      if forall c :: CommandToBit(c).Some? ==> !CommandGap(config, role, c) {
        forall i: nat | i < 32 ensures CommandName(i).value in listed {
          assert !CommandGap(config, role, CommandName(i).value);
        }
      }
    }
  }

  /** Folding the ceiling into the role before compiling makes the command word exact. */
  lemma FoldingClosesCommandGap(config: PolicyConfig, role: Role, command: string)
    requires config.systemPolicy.Some? && CommandToBit(command).Some?
    ensures var role' := FoldRole(config.systemPolicy.value, role);
            HasBit(CommandsMask(FoldConfig(config), role'), CommandToBit(command).value)
            <==> IsCommandAllowed(config, role, command)
  {
    CommandBitExact(FoldConfig(config), FoldRole(config.systemPolicy.value, role), command);
    FoldDecides(config, role, command, "", "");
  }

  // ---- Types

  /** The list consulted for `t` exists and does not grant `op`. */
  predicate OpMissing(m: TypeOps, t: string, op: string) {
    var k := if ANY in m then ANY else t;
    k in m && !ListAllows(m[k], op)
  }

  /** The word lets through a type whose name is denied `op`. Under a role wildcard: the
      wildcard's own list, or the skipped ceiling, lacks it. Otherwise both sides have some
      key for the bit, but one of them lacks this very name or this operation. */
  predicate TypeGap(tb: BitTable, m: TypeOps, ceiling: Option<TypeOps>, t: string, op: string)
    requires tb(t).Some?
  {
    if ANY in m then
      !ListAllows(m[ANY], op) || (ceiling.Some? && !CheckTypeOp(ceiling.value, t, op))
    else
      && Named(tb, m.Keys, tb(t).value)
      && (ceiling.Some? ==> ANY in ceiling.value || Named(tb, ceiling.value.Keys, tb(t).value))
      && (|| t !in m
          || OpMissing(m, t, op)
          || (ceiling.Some? && (OpMissing(ceiling.value, t, op) || (ANY !in ceiling.value && t !in ceiling.value))))
  }

  /** For a table without shared bits only operations are lost: the name is on both sides. */
  predicate InjectiveTypeGap(m: TypeOps, ceiling: Option<TypeOps>, t: string, op: string) {
    if ANY in m then
      !ListAllows(m[ANY], op) || (ceiling.Some? && !CheckTypeOp(ceiling.value, t, op))
    else
      && t in m
      && (ceiling.Some? ==> ANY in ceiling.value || t in ceiling.value)
      && (OpMissing(m, t, op) || (ceiling.Some? && OpMissing(ceiling.value, t, op)))
  }

  ghost predicate OpAllowed(m: TypeOps, ceiling: Option<TypeOps>, t: string, op: string) {
    CheckTypeOp(m, t, op) && (ceiling.Some? ==> CheckTypeOp(ceiling.value, t, op))
  }

  ghost function KeysOf(ceiling: Option<TypeOps>): Option<set<string>> {
    if ceiling.Some? then Some(ceiling.value.Keys) else None
  }

  lemma TypeBitExact(tb: BitTable, m: TypeOps, ceiling: Option<TypeOps>, t: string, op: string)
    requires tb(t).Some?
    ensures HasBit(EffectiveMask(tb, m.Keys, KeysOf(ceiling)), tb(t).value)
       <==> OpAllowed(m, ceiling, t, op) || TypeGap(tb, m, ceiling, t, op)
    ensures !(OpAllowed(m, ceiling, t, op) && TypeGap(tb, m, ceiling, t, op))
  {
    EffectiveBit(tb, m.Keys, KeysOf(ceiling), tb(t).value);
    assert t in m ==> t in m.Keys;
    assert ceiling.Some? && t in ceiling.value ==> t in ceiling.value.Keys;
  }

  lemma MapTypeGap(m: TypeOps, ceiling: Option<TypeOps>, t: string, op: string)
    requires MapTypeToBit(t).Some?
    ensures TypeGap(MapTypeToBit, m, ceiling, t, op) <==> InjectiveTypeGap(m, ceiling, t, op)
  {
  }

  // ---- Requests

  ghost predicate TypeAllowed(config: PolicyConfig, role: Role, request: Request) {
    match request
    case LoadProgram(t, _, _) => IsProgOpAllowed(config, role, t, "load")
    case CreateMap(t, _, _, _, _) => IsMapOpAllowed(config, role, t, "create")
    case Attach(t, _, _) => IsProgOpAllowed(config, role, t, "attach")
  }

  /** The hooks do not see that the names deny the request's type. For an attach they see no
      type, so every denial is missed. */
  predicate RequestTypeGap(config: PolicyConfig, role: Role, request: Request)
    requires Numbered(request)
  {
    match request
    case LoadProgram(t, _, _) => TypeGap(ProgTypeToBit, role.progTypes, ProgCeiling(config), t, "load")
    case CreateMap(t, _, _, _, _) => InjectiveTypeGap(role.mapTypes, MapCeiling(config), t, "create")
    case Attach(t, _, _) => !IsProgOpAllowed(config, role, t, "attach")
  }

  /** The hooks' verdict on a request, looked up in the policy alone. */
  ghost predicate HooksPass(config: PolicyConfig, role: Role, request: Request)
    requires Numbered(request)
  {
    && (IsCommandAllowed(config, role, CommandOf(request)) || CommandGap(config, role, CommandOf(request)))
    && (TypeAllowed(config, role, request) || RequestTypeGap(config, role, request))
  }

  /** The requests that pass the hooks against the names, looked up in the policy alone: both
      checks pass, at least one of them through its gap. */
  ghost predicate Excess(config: PolicyConfig, role: Role, request: Request)
    requires Numbered(request)
  {
    && HooksPass(config, role, request)
    && (CommandGap(config, role, CommandOf(request)) || RequestTypeGap(config, role, request))
  }

  lemma TypeHookExact(config: PolicyConfig, role: Role, policies: PolicyMap, id: UsernsId, request: Request)
    requires id in policies && policies[id] == CompiledPolicy(config, role)
    requires Numbered(request)
    ensures (TypeCheckOf(request).Some? ==> Allows(policies, HookCall(0, Ok(id), TypeCheckOf(request).value)))
       <==> TypeAllowed(config, role, request) || RequestTypeGap(config, role, request)
    ensures !(TypeAllowed(config, role, request) && RequestTypeGap(config, role, request))
  {
    if TypeCheckOf(request).Some? {
      HookReadsCompiledBit(config, role, policies, id, TypeCheckOf(request).value);
    }
    match request
    case LoadProgram(t, _, _) =>
      TypeBitExact(ProgTypeToBit, role.progTypes, ProgCeiling(config), t, "load");
    case CreateMap(t, _, _, _, _) =>
      TypeBitExact(MapTypeToBit, role.mapTypes, MapCeiling(config), t, "create");
      MapTypeGap(role.mapTypes, MapCeiling(config), t, "create");
    case Attach(_, _, _) =>
  }

  lemma CommandHookExact(config: PolicyConfig, role: Role, policies: PolicyMap, id: UsernsId, request: Request)
    requires id in policies && policies[id] == CompiledPolicy(config, role)
    ensures CommandToBit(CommandOf(request)).Some?
    ensures Allows(policies, HookCall(0, Ok(id), Command(CommandToBit(CommandOf(request)).value)))
       <==> IsCommandAllowed(config, role, CommandOf(request)) || CommandGap(config, role, CommandOf(request))
  {
    CommandNumbers();
    HookReadsCompiledBit(config, role, policies, id, Command(CommandToBit(CommandOf(request)).value));
    CommandBitExact(config, role, CommandOf(request));
  }

  /** Whatever the proxy allows, the hooks allow; what they let through, and what they let
      through against the proxy, is exactly what the policy's own entries say. */
  lemma EnforcementAgrees(config: PolicyConfig, roleName: string, policies: PolicyMap, id: UsernsId, request: Request)
    requires roleName in config.roles
    requires id in policies && policies[id] == CompiledPolicy(config, config.roles[roleName])
    requires Numbered(request)
    ensures IsAllowed(config, roleName, request) ==> LsmAllows(policies, id, request)
    ensures LsmAllows(policies, id, request) <==> HooksPass(config, config.roles[roleName], request)
    ensures LsmAllows(policies, id, request) && !IsAllowed(config, roleName, request)
       <==> Excess(config, config.roles[roleName], request)
  {
    var role := config.roles[roleName];
    CommandHookExact(config, role, policies, id, request);
    TypeHookExact(config, role, policies, id, request);
  }

  /** No hook reads an attach type: a role that may attach at all passes the hooks with every
      attach type, including those the proxy denies it. */
  lemma AttachTypesAreNotEnforced(config: PolicyConfig, roleName: string, policies: PolicyMap, id: UsernsId,
                                  request: Request)
    requires roleName in config.roles && request.Attach?
    requires id in policies && policies[id] == CompiledPolicy(config, config.roles[roleName])
    requires IsCommandAllowed(config, config.roles[roleName], "PROG_ATTACH")
    ensures LsmAllows(policies, id, request)
    ensures var grants := (m: TypeOps) =>
                            var k := if "any" in m then "any" else request.attachType;
                            k in m && ("any" in m[k] || "attach" in m[k]);
            IsAllowed(config, roleName, request)
            <==> && grants(config.roles[roleName].progTypes)
                 && (config.systemPolicy.Some? ==> grants(config.systemPolicy.value.progTypes))
  {
    EnforcementAgrees(config, roleName, policies, id, request);
    ProgOpDecision(config, config.roles[roleName], request.attachType, "attach");
  }

  /** Such a denied attach: a role that may load `xdp` and issue the attach command. */
  lemma DeniedAttachPassesHooks(id: UsernsId, target: string)
    ensures var role := Role([], ["PROG_ATTACH"], map["xdp" := ["load"]], map[]);
            var config := PolicyConfig(None, map["net" := role]);
            var request := Attach("kprobe", 0, target);
            LsmAllows(map[id := CompiledPolicy(config, role)], id, request) && !IsAllowed(config, "net", request)
  {
    var role := Role([], ["PROG_ATTACH"], map["xdp" := ["load"]], map[]);
    var config := PolicyConfig(None, map["net" := role]);
    var request := Attach("kprobe", 0, target);
    assert "PROG_ATTACH" in role.commands;
    assert ANY !in role.progTypes && "kprobe" !in role.progTypes;
    AttachTypesAreNotEnforced(config, "net", map[id := CompiledPolicy(config, role)], id, request);
  }

  /** A program the role may attach through the proxy it may also bring past the load hook's
      type check, because a type's bit does not tell operations apart. */
  lemma AttachableTypePassesLoadHook(config: PolicyConfig, roleName: string, policies: PolicyMap, id: UsernsId,
                                     request: Request)
    requires roleName in config.roles && request.Attach? && ProgTypeToBit(request.attachType).Some?
    requires id in policies && policies[id] == CompiledPolicy(config, config.roles[roleName])
    requires IsAllowed(config, roleName, request)
    ensures Allows(policies, HookCall(0, Ok(id), ProgLoad(ProgTypeToBit(request.attachType))))
  {
    var role, t := config.roles[roleName], request.attachType;
    HookReadsCompiledBit(config, role, policies, id, ProgLoad(ProgTypeToBit(t)));
    TypeBitExact(ProgTypeToBit, role.progTypes, ProgCeiling(config), t, "attach");
  }

  /** A wildcard role compiles past the ceiling: the hooks let every named map type through,
      while under an empty ceiling the proxy lets none through. */
  lemma WildcardRoleIgnoresCeiling(role: Role, policies: PolicyMap, id: UsernsId, request: Request)
    requires ANY in role.commands && ANY in role.mapTypes
    requires request.CreateMap? && Numbered(request)
    ensures var config := PolicyConfig(Some(SystemPolicy([], map[], map[])), map["admin" := role]);
            && (id in policies && policies[id] == CompiledPolicy(config, role) ==> LsmAllows(policies, id, request))
            && !IsAllowed(config, "admin", request)
  {
    var config := PolicyConfig(Some(SystemPolicy([], map[], map[])), map["admin" := role]);
    if id in policies && policies[id] == CompiledPolicy(config, role) {
      CommandHookExact(config, role, policies, id, request);
      HookReadsCompiledBit(config, role, policies, id, TypeCheckOf(request).value);
      HasBitAllOnes(MapTypeToBit(request.mapType).value);
    }
  }

  /** Compiling the folded policy instead is just as safe for what the proxy allows, is never
      looser than compiling the original, and exceeds the proxy only in the type: the command
      check has no gap left. */
  lemma FoldedEnforcementAgrees(config: PolicyConfig, roleName: string, id: UsernsId, request: Request)
    requires config.systemPolicy.Some? && roleName in config.roles && Numbered(request)
    ensures var folded := FoldConfig(config); var role' := folded.roles[roleName];
            var policies := map[id := CompiledPolicy(folded, role')];
            && (IsAllowed(config, roleName, request) ==> LsmAllows(policies, id, request))
            && (LsmAllows(policies, id, request) ==>
                  LsmAllows(map[id := CompiledPolicy(config, config.roles[roleName])], id, request))
            && (LsmAllows(policies, id, request) && !IsAllowed(config, roleName, request)
                <==> IsCommandAllowed(config, config.roles[roleName], CommandOf(request))
                     && RequestTypeGap(folded, role', request))
  {
    var folded := FoldConfig(config);
    var role' := folded.roles[roleName];
    EnforcementAgrees(folded, roleName, map[id := CompiledPolicy(folded, role')], id, request);
    FoldPreservesDecisions(config, roleName, request);
    FoldDecides(config, config.roles[roleName], CommandOf(request), "", "");
    FoldedHooksAreTighter(config, config.roles[roleName], id, request);
  }

  lemma FoldedHooksAreTighter(config: PolicyConfig, role: Role, id: UsernsId, request: Request)
    requires config.systemPolicy.Some? && Numbered(request)
    ensures var role' := FoldRole(config.systemPolicy.value, role);
            LsmAllows(map[id := CompiledPolicy(FoldConfig(config), role')], id, request) ==>
            LsmAllows(map[id := CompiledPolicy(config, role)], id, request)
  {
    CommandNumbers();
    FoldedHookIsTighter(config, role, id, Command(CommandToBit(CommandOf(request)).value));
    if TypeCheckOf(request).Some? { FoldedHookIsTighter(config, role, id, TypeCheckOf(request).value); }
  }

  lemma FoldedHookIsTighter(config: PolicyConfig, role: Role, id: UsernsId, check: Check)
    requires config.systemPolicy.Some? && TestedBit(check).Some?
    ensures var call := HookCall(0, Ok(id), check);
            Allows(map[id := CompiledPolicy(FoldConfig(config), FoldRole(config.systemPolicy.value, role))], call) ==>
            Allows(map[id := CompiledPolicy(config, role)], call)
  {
    var role' := FoldRole(config.systemPolicy.value, role);
    HookReadsCompiledBit(FoldConfig(config), role', map[id := CompiledPolicy(FoldConfig(config), role')], id, check);
    HookReadsCompiledBit(config, role, map[id := CompiledPolicy(config, role)], id, check);
    match check
    case Command(_) => FoldCommandsMask(config, role);
    case ProgLoad(_) => FoldProgTypesMask(config, role);
    case MapCreate(_) => FoldMapTypesMask(config, role);
  }

  // ---- Over runs of the policy map

  ghost predicate LeavesEntryAlone(run: seq<Event>, id: UsernsId) {
    forall i :: 0 <= i < |run| ==> run[i].Called? || run[i].id != id
  }

  lemma {:induction false} EntryPersists(policies: PolicyMap, run: seq<Event>, id: UsernsId)
    requires LeavesEntryAlone(run, id)
    ensures SameEntry(policies, After(policies, run), id)
    decreases run
  {
    if run != [] {
      assert forall i :: 0 <= i < |run[1..]| ==> run[1..][i] == run[i + 1];
      EntryPersists(Apply(policies, run[0]), run[1..], id);
    }
  }

  /** From the moment a namespace is given a role's compiled entry until that entry is
      touched, whatever happens to the others, the hooks allow what the proxy allows the role,
      and let through against it exactly the policy's excess. */
  lemma {:induction false} EnforcementAgreesOverRuns(config: PolicyConfig, roleName: string, policies: PolicyMap,
                                                     id: UsernsId, run: seq<Event>, request: Request)
    requires roleName in config.roles && Numbered(request)
    requires id in policies || |policies| < MAX_POLICY_ENTRIES
    requires LeavesEntryAlone(run, id)
    ensures var role := config.roles[roleName];
            var later := After(Apply(policies, Insert(id, CompiledPolicy(config, role))), run);
            && (IsAllowed(config, roleName, request) ==> LsmAllows(later, id, request))
            && (LsmAllows(later, id, request) <==> HooksPass(config, role, request))
            && (LsmAllows(later, id, request) && !IsAllowed(config, roleName, request)
                <==> Excess(config, role, request))
  {
    var managed := Apply(policies, Insert(id, CompiledPolicy(config, config.roles[roleName])));
    EntryPersists(managed, run, id);
    EnforcementAgrees(config, roleName, After(managed, run), id, request);
  }

  /** `BPF_TOKEN_CREATE` in the shared constants. */
  const TOKEN_CREATE: i32 := 33

  /** A compiled entry never lets a token be created, not even for a role with every
      wildcard: the command's number has no bit. */
  lemma TokenCreateIsNeverCompiled(config: PolicyConfig, role: Role, policies: PolicyMap, id: UsernsId)
    requires id in policies && policies[id] == CompiledPolicy(config, role)
    ensures !Allows(policies, HookCall(0, Ok(id), Command(TOKEN_CREATE)))
  {
  }
}
