/** The system-policy ceiling folded into each role: a policy without a ceiling that
    decides every request alike, and what folding does to the compiled words. */
module Ceiling {
  import opened Wrappers
  import opened Bits
  import opened BitTables
  import opened Protocol
  import opened Policy
  import opened Bitmaps

  // ---- Wildcard-aware meets

  function Common(a: seq<string>, b: seq<string>): (r: seq<string>)
    ensures forall x :: x in r <==> x in a && x in b
  {
    if a == [] then []
    else if a[0] in b then [a[0]] + Common(a[1..], b)
    else Common(a[1..], b)
  }

  function MeetList(a: seq<string>, b: seq<string>): seq<string> {
    if ANY in a then b else if ANY in b then a else Common(a, b)
  }

  lemma MeetListAllows(a: seq<string>, b: seq<string>, x: string)
    ensures ListAllows(MeetList(a, b), x) <==> ListAllows(a, x) && ListAllows(b, x)
  {
  }

  function MeetTypes(m: TypeOps, n: TypeOps): TypeOps {
    if ANY in m && ANY in n then map[ANY := MeetList(m[ANY], n[ANY])]
    else if ANY in m then map k | k in n :: MeetList(m[ANY], n[k])
    else if ANY in n then map k | k in m :: MeetList(m[k], n[ANY])
    else map k | k in m && k in n :: MeetList(m[k], n[k])
  }

  lemma MeetTypesChecks(m: TypeOps, n: TypeOps, t: string, op: string)
    ensures CheckTypeOp(MeetTypes(m, n), t, op) <==> CheckTypeOp(m, t, op) && CheckTypeOp(n, t, op)
  {
  }

  function FoldRole(system: SystemPolicy, role: Role): Role {
    role.(commands := MeetList(role.commands, system.commands),
          progTypes := MeetTypes(role.progTypes, system.progTypes),
          mapTypes := MeetTypes(role.mapTypes, system.mapTypes))
  }

  function FoldConfig(config: PolicyConfig): PolicyConfig {
    if config.systemPolicy.None? then config
    else PolicyConfig(None, map name | name in config.roles :: FoldRole(config.systemPolicy.value, config.roles[name]))
  }

  // ---- Folding preserves every decision

  lemma FoldDecides(config: PolicyConfig, role: Role, command: string, t: string, op: string)
    requires config.systemPolicy.Some?
    ensures var role' := FoldRole(config.systemPolicy.value, role); var config' := FoldConfig(config);
            && (IsCommandAllowed(config', role', command) <==> IsCommandAllowed(config, role, command))
            && (IsProgOpAllowed(config', role', t, op) <==> IsProgOpAllowed(config, role, t, op))
            && (IsMapOpAllowed(config', role', t, op) <==> IsMapOpAllowed(config, role, t, op))
  {
    var system := config.systemPolicy.value;
    MeetListAllows(role.commands, system.commands, command);
    MeetTypesChecks(role.progTypes, system.progTypes, t, op);
    MeetTypesChecks(role.mapTypes, system.mapTypes, t, op);
  }

  /** The folded policy answers every request of every role as the original does. */
  lemma FoldPreservesDecisions(config: PolicyConfig, roleName: string, request: Request)
    ensures FoldConfig(config).systemPolicy.None?
    ensures IsAllowed(FoldConfig(config), roleName, request) <==> IsAllowed(config, roleName, request)
  {
    if config.systemPolicy.Some? && roleName in config.roles {
      var role := config.roles[roleName];
      match request
      case LoadProgram(t, _, _) => FoldDecides(config, role, "PROG_LOAD", t, "load");
      case CreateMap(t, _, _, _, _) => FoldDecides(config, role, "MAP_CREATE", t, "create");
      case Attach(t, _, _) => FoldDecides(config, role, "PROG_ATTACH", t, "attach");
    }
  }

  // ---- Folding and the compiled words

  /** `f` is the meet of `role` and `ceiling` as far as the word builders can tell. */
  ghost predicate IsMeet(f: set<string>, role: set<string>, ceiling: set<string>) {
    && (ANY in f <==> ANY in role && ANY in ceiling)
    && (ANY in role && ANY !in ceiling ==> f == ceiling)
    && (ANY !in role && ANY in ceiling ==> f == role)
    && (ANY !in role && ANY !in ceiling ==> f == role * ceiling)
  }

  /** Two names of one bit, one on each side, with no shared name for it. */
  ghost predicate Disjointly(tb: BitTable, role: set<string>, ceiling: set<string>, i: nat) {
    Named(tb, role, i) && Named(tb, ceiling, i) && !Named(tb, role * ceiling, i)
  }

  /** A bit of the original word that folding clears. */
  ghost predicate Cleared(tb: BitTable, role: set<string>, ceiling: set<string>, i: nat) {
    && ANY !in ceiling
    && if ANY in role then i < 32 && !Named(tb, ceiling, i) else Disjointly(tb, role, ceiling, i)
  }

  lemma FoldedBit(tb: BitTable, f: set<string>, role: set<string>, ceiling: set<string>, i: nat)
    requires IsMeet(f, role, ceiling)
    ensures HasBit(EffectiveMask(tb, f, None), i) ==> HasBit(EffectiveMask(tb, role, Some(ceiling)), i)
    ensures HasBit(EffectiveMask(tb, role, Some(ceiling)), i) && !HasBit(EffectiveMask(tb, f, None), i)
       <==> Cleared(tb, role, ceiling, i)
  {
    EffectiveBit(tb, f, None, i);
    EffectiveBit(tb, role, Some(ceiling), i);
    if Named(tb, role * ceiling, i) {
      var n :| n in role * ceiling && tb(n) == Some(i);
      assert n in role && n in ceiling;
    }
  }

  /** The folded word never has more bits, and has all of them exactly when no bit of the
      original was won by a role wildcard or by unrelated names. */
  lemma FoldedMask(tb: BitTable, f: set<string>, role: set<string>, ceiling: set<string>)
    requires IsMeet(f, role, ceiling)
    ensures SubMask(EffectiveMask(tb, f, None), EffectiveMask(tb, role, Some(ceiling)))
    ensures EffectiveMask(tb, f, None) == EffectiveMask(tb, role, Some(ceiling))
       <==> (|| ANY in ceiling
             || forall i: nat :: if ANY in role then i < 32 ==> Named(tb, ceiling, i)
                                 else !Disjointly(tb, role, ceiling, i))
  {
    var a, b := EffectiveMask(tb, f, None), EffectiveMask(tb, role, Some(ceiling));
    forall i: nat
      ensures HasBit(a, i) ==> HasBit(b, i)
      ensures HasBit(b, i) && !HasBit(a, i)
         <==> Cleared(tb, role, ceiling, i)
    {
      FoldedBit(tb, f, role, ceiling, i);
    }
    if forall i: nat :: HasBit(a, i) <==> HasBit(b, i) { MaskExtensional(a, b); }
  }

  /** A compiled role stays within the compiled ceiling exactly when it has no wildcard, or
      the ceiling has one, or the ceiling names every bit there is. */
  lemma CeilingBindsIff(tb: BitTable, role: set<string>, ceiling: set<string>)
    ensures SubMask(EffectiveMask(tb, role, Some(ceiling)), EffectiveMask(tb, ceiling, None))
       <==> (ANY !in role || ANY in ceiling || forall i: nat :: i < 32 ==> Named(tb, ceiling, i))
  {
    forall i: nat
      ensures HasBit(EffectiveMask(tb, role, Some(ceiling)), i) && !HasBit(EffectiveMask(tb, ceiling, None), i)
         <==> ANY in role && ANY !in ceiling && i < 32 && !Named(tb, ceiling, i)
    {
      EffectiveBit(tb, role, Some(ceiling), i);
      EffectiveBit(tb, ceiling, None, i);
      assert Named(tb, ceiling, i) ==> i < 32;
    }
  }

  /** The documented promise that no role exceeds the system limits, for the program word: it
      is kept exactly when a role wildcard comes with a ceiling wildcard, since bit 0 has no
      name that could make up for one. */
  lemma ProgTypesStayUnderCeilingIff(config: PolicyConfig, role: Role)
    requires config.systemPolicy.Some?
    ensures var limits := config.systemPolicy.value.progTypes;
            SubMask(ProgTypesMask(config, role), EffectiveMask(ProgTypeToBit, limits.Keys, None))
            <==> (ANY in role.progTypes ==> ANY in limits)
  {
    var limits := config.systemPolicy.value.progTypes;
    CeilingBindsIff(ProgTypeToBit, role.progTypes.Keys, limits.Keys);
    assert !Named(ProgTypeToBit, limits.Keys, 0);
  }

  lemma MapTypesStayUnderCeilingIff(config: PolicyConfig, role: Role)
    requires config.systemPolicy.Some?
    ensures var limits := config.systemPolicy.value.mapTypes;
            SubMask(MapTypesMask(config, role), EffectiveMask(MapTypeToBit, limits.Keys, None))
            <==> (ANY in role.mapTypes ==> ANY in limits)
  {
    var limits := config.systemPolicy.value.mapTypes;
    CeilingBindsIff(MapTypeToBit, role.mapTypes.Keys, limits.Keys);
    assert !Named(MapTypeToBit, limits.Keys, 0);
  }

  /** The command word keeps it also when the ceiling lists every command. */
  lemma CommandsStayUnderCeilingIff(config: PolicyConfig, role: Role)
    requires config.systemPolicy.Some?
    ensures var limits := config.systemPolicy.value.commands;
            SubMask(CommandsMask(config, role), EffectiveMask(CommandToBit, Elements(limits), None))
            <==> (ANY in role.commands && ANY !in limits ==> forall n :: CommandToBit(n).Some? ==> n in limits)
  {
    var limits := config.systemPolicy.value.commands;
    CeilingBindsIff(CommandToBit, Elements(role.commands), Elements(limits));
    AllCommandsNamed(Elements(limits));
  }

  lemma MeetListNames(a: seq<string>, b: seq<string>)
    ensures IsMeet(Elements(MeetList(a, b)), Elements(a), Elements(b))
  {
  }

  lemma MeetTypesNames(m: TypeOps, n: TypeOps)
    ensures IsMeet(MeetTypes(m, n).Keys, m.Keys, n.Keys)
  {
  }

  /** Commands: equal unless a role wildcard meets a ceiling that leaves out a command. */
  lemma FoldCommandsMask(config: PolicyConfig, role: Role)
    requires config.systemPolicy.Some?
    ensures var system := config.systemPolicy.value;
            var folded := CommandsMask(FoldConfig(config), FoldRole(system, role));
            && SubMask(folded, CommandsMask(config, role))
            && (folded == CommandsMask(config, role)
                <==> (ANY in role.commands && ANY !in system.commands
                      ==> forall n :: CommandToBit(n).Some? ==> n in system.commands))
  {
    var r, c := Elements(role.commands), Elements(config.systemPolicy.value.commands);
    MeetListNames(role.commands, config.systemPolicy.value.commands);
    FoldedMask(CommandToBit, Elements(MeetList(role.commands, config.systemPolicy.value.commands)), r, c);
    if ANY in r { AllCommandsNamed(c); } else { CommandsNeverDisjoint(r, c); }
  }

  lemma AllCommandsNamed(c: set<string>)
    ensures (forall i: nat :: i < 32 ==> Named(CommandToBit, c, i)) <==> (forall n :: CommandToBit(n).Some? ==> n in c)
  {
    if forall i: nat :: i < 32 ==> Named(CommandToBit, c, i) {
      forall n | CommandToBit(n).Some? ensures n in c {
        var i := CommandToBit(n).value;
        assert Named(CommandToBit, c, i);
        var n' :| n' in c && CommandToBit(n') == Some(i);
      }
    }
    if forall n :: CommandToBit(n).Some? ==> n in c {
      forall i: nat | i < 32 ensures Named(CommandToBit, c, i) {
        CommandTableOnto(i);
        assert CommandName(i).value in c;
      }
    }
  }

  lemma CommandsNeverDisjoint(r: set<string>, c: set<string>)
    ensures forall i: nat :: !Disjointly(CommandToBit, r, c, i)
  {
  }

  /** Map types: equal unless a role wildcard meets a ceiling without one, because bit 0
      has no name at all. */
  lemma FoldMapTypesMask(config: PolicyConfig, role: Role)
    requires config.systemPolicy.Some?
    ensures var system := config.systemPolicy.value;
            var folded := MapTypesMask(FoldConfig(config), FoldRole(system, role));
            && SubMask(folded, MapTypesMask(config, role))
            && (folded == MapTypesMask(config, role) <==> (ANY in role.mapTypes ==> ANY in system.mapTypes))
  {
    var r, c := role.mapTypes.Keys, config.systemPolicy.value.mapTypes.Keys;
    MeetTypesNames(role.mapTypes, config.systemPolicy.value.mapTypes);
    FoldedMask(MapTypeToBit, MeetTypes(role.mapTypes, config.systemPolicy.value.mapTypes).Keys, r, c);
    assert !Named(MapTypeToBit, c, 0);
    forall i: nat | Named(MapTypeToBit, r, i) && Named(MapTypeToBit, c, i) ensures Named(MapTypeToBit, r * c, i) {
      var a :| a in r && MapTypeToBit(a) == Some(i);
      var b :| b in c && MapTypeToBit(b) == Some(i);
      assert a == b && a in r * c;
    }
  }

  /** Program types: as for map types, but the shared bits 2 and 26 can also be won by
      different names on the two sides. */
  lemma FoldProgTypesMask(config: PolicyConfig, role: Role)
    requires config.systemPolicy.Some?
    ensures var system := config.systemPolicy.value; var r, c := role.progTypes.Keys, system.progTypes.Keys;
            var folded := ProgTypesMask(FoldConfig(config), FoldRole(system, role));
            && SubMask(folded, ProgTypesMask(config, role))
            && (folded == ProgTypesMask(config, role)
                <==> || ANY in c
                     || (ANY !in r && !Disjointly(ProgTypeToBit, r, c, 2) && !Disjointly(ProgTypeToBit, r, c, 26)))
  {
    var r, c := role.progTypes.Keys, config.systemPolicy.value.progTypes.Keys;
    MeetTypesNames(role.progTypes, config.systemPolicy.value.progTypes);
    FoldedMask(ProgTypeToBit, MeetTypes(role.progTypes, config.systemPolicy.value.progTypes).Keys, r, c);
    assert !Named(ProgTypeToBit, c, 0);
    forall i: nat ensures Disjointly(ProgTypeToBit, r, c, i) ==> i == 2 || i == 26 {
      OnlySharedBitsDiffer(r, c, i);
    }
  }

  /** Without wildcards the program word is the image of the common keys, save that the shared
      bits 2 and 26 are also set when the two sides use different names for them. */
  lemma ProgWordIsImageOfCommonKeys(config: PolicyConfig, role: Role, i: nat)
    requires config.systemPolicy.Some?
    requires ANY !in role.progTypes && ANY !in config.systemPolicy.value.progTypes
    ensures var r, c := role.progTypes.Keys, config.systemPolicy.value.progTypes.Keys;
            HasBit(ProgTypesMask(config, role), i)
            <==> || Named(ProgTypeToBit, r * c, i)
                 || ((i == 2 || i == 26) && Named(ProgTypeToBit, r, i) && Named(ProgTypeToBit, c, i))
  {
    var r, c := role.progTypes.Keys, config.systemPolicy.value.progTypes.Keys;
    EffectiveBit(ProgTypeToBit, r, Some(c), i);
    OnlySharedBitsDiffer(r, c, i);
  }

  /** Without wildcards the map word is exactly the image of the common keys. */
  lemma MapWordIsImageOfCommonKeys(config: PolicyConfig, role: Role, i: nat)
    requires config.systemPolicy.Some?
    requires ANY !in role.mapTypes && ANY !in config.systemPolicy.value.mapTypes
    ensures HasBit(MapTypesMask(config, role), i)
       <==> Named(MapTypeToBit, role.mapTypes.Keys * config.systemPolicy.value.mapTypes.Keys, i)
  {
    var m, n := role.mapTypes, config.systemPolicy.value.mapTypes;
    MeetTypesNames(m, n);
    FoldMapTypesMask(config, role);
    EffectiveBit(MapTypeToBit, MeetTypes(m, n).Keys, None, i);
  }

  lemma OnlySharedBitsDiffer(r: set<string>, c: set<string>, i: nat)
    ensures Disjointly(ProgTypeToBit, r, c, i) ==> i == 2 || i == 26
    ensures Named(ProgTypeToBit, r * c, i) ==> Named(ProgTypeToBit, r, i) && Named(ProgTypeToBit, c, i)
  {
  }

  /** A role granting `kprobe` under a ceiling granting only `uprobe`: no name is common,
      yet the compiled word has the bit they share. */
  lemma AliasesMeetAtTheBit()
    ensures Disjointly(ProgTypeToBit, {"kprobe"}, {"uprobe"}, 2)
  {
  }
}
