/** Compilation of a policy to `u32` words, one per dimension. */
module Bitmaps {
  import opened Wrappers
  import opened Bits
  import opened BitTables
  import opened Policy

  // ---- What a word built from names must be

  /** Some name in `names` stands for bit `i`. */
  predicate Named(tb: BitTable, names: set<string>, i: nat) {
    exists n :: n in names && tb(n) == Some(i)
  }

  ghost predicate IsMaskOf(m: u32, tb: BitTable, names: set<string>) {
    forall i: nat :: HasBit(m, i) <==> Named(tb, names, i)
  }

  /** `bitmap |= 1 << bit`, when the name has a bit. */
  function OrName(tb: BitTable, bitmap: u32, x: string): (r: u32) {
    if tb(x).None? then bitmap
    else
      Pow2Of32();
      Pow2Monotone(tb(x).value + 1, 32);
      OrBound(bitmap, Pow2(tb(x).value), 32);
      Or(bitmap, Pow2(tb(x).value))
  }

  /** One round of a builder loop. */
  lemma AddName(tb: BitTable, names: set<string>, m: u32, x: string)
    requires IsMaskOf(m, tb, names)
    ensures IsMaskOf(OrName(tb, m, x), tb, names + {x})
  {
    forall i: nat ensures HasBit(OrName(tb, m, x), i) <==> Named(tb, names + {x}, i) {
      if tb(x).Some? {
        HasBitOr(m, Pow2(tb(x).value), i);
        HasBitPow2(tb(x).value, i);
      }
      NamedUnion(tb, names, x, i);
    }
  }

  lemma NamedUnion(tb: BitTable, names: set<string>, x: string, i: nat)
    ensures Named(tb, names + {x}, i) <==> Named(tb, names, i) || tb(x) == Some(i)
  {
  }

  lemma MaskExists(tb: BitTable, names: set<string>)
    ensures exists m: u32 :: IsMaskOf(m, tb, names)
  {
    if names == {} {
      forall i: nat ensures !HasBit(0, i) { HasBitZero(i); }
      assert IsMaskOf(0, tb, names);
    } else {
      var x :| x in names;
      MaskExists(tb, names - {x});
      var m: u32 :| IsMaskOf(m, tb, names - {x});
      assert names - {x} + {x} == names;
      AddName(tb, names - {x}, m, x);
    }
  }

  /** The word whose bits are exactly those named. */
  ghost function NamesMask(tb: BitTable, names: set<string>): (m: u32)
    ensures IsMaskOf(m, tb, names)
  {
    MaskExists(tb, names);
    var m: u32 :| IsMaskOf(m, tb, names);
    m
  }

  /** A wildcard in the role yields all ones at once, whatever the ceiling; otherwise the
      role's bits are cut down to the ceiling's, where a wildcard ceiling cuts nothing. */
  ghost function EffectiveMask(tb: BitTable, role: set<string>, ceiling: Option<set<string>>): u32 {
    if ANY in role then ALL_ONES
    else if ceiling.None? || ANY in ceiling.value then NamesMask(tb, role)
    else
      AndBound(NamesMask(tb, role), NamesMask(tb, ceiling.value));
      And(NamesMask(tb, role), NamesMask(tb, ceiling.value))
  }

  // ---- The builders

  /** The shared loop: or together the bits of a list or of a map's keys. */
  method OrBits(tb: BitTable, names: seq<string>) returns (bitmap: u32)
    ensures bitmap == NamesMask(tb, Elements(names))
  {
    bitmap := 0;
    forall i: nat ensures !HasBit(bitmap, i) { HasBitZero(i); }
    for k := 0 to |names|
      invariant IsMaskOf(bitmap, tb, Elements(names[..k]))
    {
      AddName(tb, Elements(names[..k]), bitmap, names[k]);
      assert Elements(names[..k]) + {names[k]} == Elements(names[..k + 1]);
      bitmap := OrName(tb, bitmap, names[k]);
    }
    assert names[..|names|] == names;
    MaskExtensional(bitmap, NamesMask(tb, Elements(names)));
  }

  lemma AndAllOnes(m: u32)
    ensures And(m, ALL_ONES) == m
  {
    forall i: nat ensures HasBit(And(m, ALL_ONES), i) <==> HasBit(m, i) {
      HasBitAnd(m, ALL_ONES, i);
      HasBitAllOnes(i);
      Pow2Of32();
      if i >= 32 { HighBitsClear(m, 32, i); }
    }
    MaskExtensional(And(m, ALL_ONES), m);
  }

  /** Early return on a role wildcard; then the role's bits and the ceiling's. */
  method BuildBitmap(tb: BitTable, role: seq<string>, ceiling: Option<seq<string>>) returns (bitmap: u32)
    ensures bitmap == EffectiveMask(tb, Elements(role), if ceiling.Some? then Some(Elements(ceiling.value)) else None)
  {
    if ANY in role {
      return ALL_ONES;
    }
    bitmap := OrBits(tb, role);
    if ceiling.Some? {
      var ceilingBitmap := ALL_ONES;
      if ANY !in ceiling.value {
        ceilingBitmap := OrBits(tb, ceiling.value);
      } else {
        AndAllOnes(bitmap);
      }
      AndBound(bitmap, ceilingBitmap);
      bitmap := And(bitmap, ceilingBitmap);
    }
  }

  // ---- The three dimensions

  ghost function ProgTypesMask(config: PolicyConfig, role: Role): u32 {
    EffectiveMask(ProgTypeToBit, role.progTypes.Keys,
                  if config.systemPolicy.Some? then Some(config.systemPolicy.value.progTypes.Keys) else None)
  }

  ghost function MapTypesMask(config: PolicyConfig, role: Role): u32 {
    EffectiveMask(MapTypeToBit, role.mapTypes.Keys,
                  if config.systemPolicy.Some? then Some(config.systemPolicy.value.mapTypes.Keys) else None)
  }

  ghost function CommandsMask(config: PolicyConfig, role: Role): u32 {
    EffectiveMask(CommandToBit, Elements(role.commands),
                  if config.systemPolicy.Some? then Some(Elements(config.systemPolicy.value.commands)) else None)
  }

  /** Whatever order the two hash maps are walked in, the word is the same. */
  method ProgTypesBitmap(config: PolicyConfig, role: Role, roleKeys: seq<string>, systemKeys: seq<string>)
    returns (bitmap: u32)
    requires Enumerates(roleKeys, role.progTypes.Keys)
    requires config.systemPolicy.Some? ==> Enumerates(systemKeys, config.systemPolicy.value.progTypes.Keys)
    ensures bitmap == ProgTypesMask(config, role)
  {
    assert Elements(roleKeys) == role.progTypes.Keys;
    assert config.systemPolicy.Some? ==> Elements(systemKeys) == config.systemPolicy.value.progTypes.Keys;
    bitmap := BuildBitmap(ProgTypeToBit, roleKeys, if config.systemPolicy.Some? then Some(systemKeys) else None);
  }

  method MapTypesBitmap(config: PolicyConfig, role: Role, roleKeys: seq<string>, systemKeys: seq<string>)
    returns (bitmap: u32)
    requires Enumerates(roleKeys, role.mapTypes.Keys)
    requires config.systemPolicy.Some? ==> Enumerates(systemKeys, config.systemPolicy.value.mapTypes.Keys)
    ensures bitmap == MapTypesMask(config, role)
  {
    assert Elements(roleKeys) == role.mapTypes.Keys;
    assert config.systemPolicy.Some? ==> Elements(systemKeys) == config.systemPolicy.value.mapTypes.Keys;
    bitmap := BuildBitmap(MapTypeToBit, roleKeys, if config.systemPolicy.Some? then Some(systemKeys) else None);
  }

  /** The command lists are walked in their own order and may repeat entries. */
  method CommandsBitmap(config: PolicyConfig, role: Role) returns (bitmap: u32)
    ensures bitmap == CommandsMask(config, role)
  {
    bitmap := BuildBitmap(CommandToBit, role.commands,
                          if config.systemPolicy.Some? then Some(config.systemPolicy.value.commands) else None);
  }

  // ---- Bits of an effective word

  ghost predicate CeilingNames(tb: BitTable, ceiling: Option<set<string>>, i: nat) {
    ceiling.None? || ANY in ceiling.value || Named(tb, ceiling.value, i)
  }

  lemma EffectiveBit(tb: BitTable, role: set<string>, ceiling: Option<set<string>>, i: nat)
    ensures HasBit(EffectiveMask(tb, role, ceiling), i)
       <==> if ANY in role then i < 32 else (Named(tb, role, i) && CeilingNames(tb, ceiling, i))
  {
    HasBitAllOnes(i);
    if ceiling.Some? { HasBitAnd(NamesMask(tb, role), NamesMask(tb, ceiling.value), i); }
  }

  /** A ceiling is looser when it is absent, or present with more names. */
  ghost predicate Looser(a: Option<set<string>>, b: Option<set<string>>) {
    b.None? || (a.Some? && a.value <= b.value)
  }

  /** Words grow with the role and with the ceiling; imposing a ceiling only clears bits. */
  lemma EffectiveMaskMonotone(tb: BitTable, role: set<string>, ceiling: Option<set<string>>,
                              role': set<string>, ceiling': Option<set<string>>)
    requires role <= role' && Looser(ceiling, ceiling')
    ensures SubMask(EffectiveMask(tb, role, ceiling), EffectiveMask(tb, role', ceiling'))
  {
    forall i: nat | HasBit(EffectiveMask(tb, role, ceiling), i)
      ensures HasBit(EffectiveMask(tb, role', ceiling'), i)
    {
      EffectiveBit(tb, role, ceiling, i);
      EffectiveBit(tb, role', ceiling', i);
      if Named(tb, role, i) { var n :| n in role && tb(n) == Some(i); assert n in role'; }
      if ceiling.Some? && ceiling'.Some? && Named(tb, ceiling.value, i) {
        var n :| n in ceiling.value && tb(n) == Some(i);
        assert n in ceiling'.value;
      }
    }
  }

  /** No program or map type is numbered 0 or 31: only a wildcard role sets those bits. */
  lemma TypeEndBits(config: PolicyConfig, role: Role, i: nat)
    requires i == 0 || i == 31
    ensures HasBit(ProgTypesMask(config, role), i) <==> ANY in role.progTypes
    ensures HasBit(MapTypesMask(config, role), i) <==> ANY in role.mapTypes
  {
    var sys := config.systemPolicy;
    EffectiveBit(ProgTypeToBit, role.progTypes.Keys, if sys.Some? then Some(sys.value.progTypes.Keys) else None, i);
    EffectiveBit(MapTypeToBit, role.mapTypes.Keys, if sys.Some? then Some(sys.value.mapTypes.Keys) else None, i);
  }

  // ---- The words, entry by entry

  /** A bit of the program word: all below 32 under a role key `any`; otherwise those of the
      role's keys that the ceiling, if there is one, has too under `any` or some key. */
  lemma ProgTypesWord(config: PolicyConfig, role: Role, i: nat)
    ensures HasBit(ProgTypesMask(config, role), i)
       <==> if "any" in role.progTypes then i < 32
            else && (exists n :: n in role.progTypes && ProgTypeToBit(n) == Some(i))
                 && (config.systemPolicy.Some? ==>
                       var limits := config.systemPolicy.value.progTypes;
                       "any" in limits || exists n :: n in limits && ProgTypeToBit(n) == Some(i))
  {
    var sys := config.systemPolicy;
    EffectiveBit(ProgTypeToBit, role.progTypes.Keys, if sys.Some? then Some(sys.value.progTypes.Keys) else None, i);
    KeysNamed(ProgTypeToBit, role.progTypes, i);
    if sys.Some? { KeysNamed(ProgTypeToBit, sys.value.progTypes, i); }
  }

  lemma MapTypesWord(config: PolicyConfig, role: Role, i: nat)
    ensures HasBit(MapTypesMask(config, role), i)
       <==> if "any" in role.mapTypes then i < 32
            else && (exists n :: n in role.mapTypes && MapTypeToBit(n) == Some(i))
                 && (config.systemPolicy.Some? ==>
                       var limits := config.systemPolicy.value.mapTypes;
                       "any" in limits || exists n :: n in limits && MapTypeToBit(n) == Some(i))
  {
    var sys := config.systemPolicy;
    EffectiveBit(MapTypeToBit, role.mapTypes.Keys, if sys.Some? then Some(sys.value.mapTypes.Keys) else None, i);
    KeysNamed(MapTypeToBit, role.mapTypes, i);
    if sys.Some? { KeysNamed(MapTypeToBit, sys.value.mapTypes, i); }
  }

  lemma CommandsWord(config: PolicyConfig, role: Role, i: nat)
    ensures HasBit(CommandsMask(config, role), i)
       <==> if "any" in role.commands then i < 32
            else && (exists n :: n in role.commands && CommandToBit(n) == Some(i))
                 && (config.systemPolicy.Some? ==>
                       var limits := config.systemPolicy.value.commands;
                       "any" in limits || exists n :: n in limits && CommandToBit(n) == Some(i))
  {
    var sys := config.systemPolicy;
    EffectiveBit(CommandToBit, Elements(role.commands),
                 if sys.Some? then Some(Elements(sys.value.commands)) else None, i);
    ListNamed(CommandToBit, role.commands, i);
    if sys.Some? { ListNamed(CommandToBit, sys.value.commands, i); }
  }

  lemma KeysNamed(tb: BitTable, m: TypeOps, i: nat)
    ensures Named(tb, m.Keys, i) <==> exists n :: n in m && tb(n) == Some(i)
  {
    if n :| n in m && tb(n) == Some(i) { assert n in m.Keys; }
  }

  lemma ListNamed(tb: BitTable, list: seq<string>, i: nat)
    ensures Named(tb, Elements(list), i) <==> exists n :: n in list && tb(n) == Some(i)
  {
    if n :| n in list && tb(n) == Some(i) { assert n in Elements(list); }
  }
}
