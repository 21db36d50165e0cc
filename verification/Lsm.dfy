/** The kernel-side decision: three LSM hooks over a policy map keyed by user namespace. */
module Lsm {
  import opened Wrappers
  import opened Bits

  /** User namespace inode number, the whole of a `PolicyKey`. */
  type UsernsId = u64
  type u64 = x: int | 0 <= x < 0x1_0000_0000_0000_0000
  type i32 = x: int | -0x8000_0000 <= x < 0x8000_0000

  datatype PolicyValue = PolicyValue(
    allowedCmds: u32, allowedProgTypes: u32, allowedMapTypes: u32, allowedAttachTypes: u32, flags: u32)

  const EMPTY := PolicyValue(0, 0, 0, 0, 0)
  const ALLOW_ALL := PolicyValue(ALL_ONES, ALL_ONES, ALL_ONES, ALL_ONES, 0)

  const FLAG_ALLOW_ALL: u32 := 1
  const FLAG_DENY_ALL: u32 := 2

  const MAX_POLICY_ENTRIES: nat := 1024

  type PolicyMap = map<UsernsId, PolicyValue>

  /** One hook invocation: the context's `kernel` argument, the outcome of resolving the
      caller's user namespace, and what the hook inspects. `attr` is `None` when null. */
  datatype HookCall = HookCall(kernel: u32, userns: Result<UsernsId, int>, check: Check)

  datatype Check = Command(cmd: i32) | ProgLoad(attr: Option<u32>) | MapCreate(attr: Option<u32>)

  /** `cmd as u32`. */
  function AsU32(cmd: i32): (r: u32)
    ensures r < 32 <==> 0 <= cmd < 32
    ensures r < 32 ==> r == cmd
    ensures (r - cmd) % 0x1_0000_0000 == 0
  {
    if cmd < 0 then cmd + 0x1_0000_0000 else cmd
  }

  /** `index < 32 && (word & (1 << index)) != 0`. */
  predicate BitAllows(word: u32, index: u32) {
    index < 32 && And(word, Pow2(index)) != 0
  }

  function TryHook(policies: PolicyMap, call: HookCall): Result<int, int> {
    if call.kernel != 0 then Ok(0)
    else match call.userns
      case Err(e) => Err(e)
      case Ok(id) =>
        if id !in policies then Ok(0)
        else
          var policy := policies[id];
          if And(policy.flags, FLAG_DENY_ALL) != 0 then Ok(-1)
          else if And(policy.flags, FLAG_ALLOW_ALL) != 0 then Ok(0)
          else match call.check
            case Command(cmd) => if BitAllows(policy.allowedCmds, AsU32(cmd)) then Ok(0) else Ok(-1)
            case ProgLoad(attr) =>
              if attr.None? then Ok(-1) else if BitAllows(policy.allowedProgTypes, attr.value) then Ok(0) else Ok(-1)
            case MapCreate(attr) =>
              if attr.None? then Ok(-1) else if BitAllows(policy.allowedMapTypes, attr.value) then Ok(0) else Ok(-1)
  }

  /** The exported hooks: an error from the body denies. */
  function Hook(policies: PolicyMap, call: HookCall): int {
    match TryHook(policies, call)
    case Ok(ret) => ret
    case Err(_) => -1
  }

  predicate Allows(policies: PolicyMap, call: HookCall) {
    Hook(policies, call) == 0
  }

  // ---- What a verdict is

  /** The bit the call tests, if it gets that far and is in range. */
  function TestedBit(check: Check): Option<nat> {
    match check
    case Command(cmd) => if 0 <= cmd < 32 then Some(cmd) else None
    case ProgLoad(attr) => if attr.Some? && attr.value < 32 then Some(attr.value) else None
    case MapCreate(attr) => if attr.Some? && attr.value < 32 then Some(attr.value) else None
  }

  function TestedWord(policy: PolicyValue, check: Check): u32 {
    match check
    case Command(_) => policy.allowedCmds
    case ProgLoad(_) => policy.allowedProgTypes
    case MapCreate(_) => policy.allowedMapTypes
  }

  /** When a hook lets a call through, in terms of bits: kernel calls and unmanaged
      namespaces pass, an unresolved namespace does not, flag bit 1 beats flag bit 0, and
      otherwise the call's own bit must be set. There is no third verdict. */
  lemma VerdictExact(policies: PolicyMap, call: HookCall)
    ensures Hook(policies, call) == 0 || Hook(policies, call) == -1
    ensures Allows(policies, call)
       <==> || call.kernel != 0
            || (call.userns.Ok?
                && (call.userns.value in policies ==>
                      var policy := policies[call.userns.value];
                      && !HasBit(policy.flags, 1)
                      && (|| HasBit(policy.flags, 0)
                          || match call.check
                             case Command(cmd) => 0 <= cmd < 32 && HasBit(policy.allowedCmds, cmd)
                             case ProgLoad(attr) =>
                               attr.Some? && attr.value < 32 && HasBit(policy.allowedProgTypes, attr.value)
                             case MapCreate(attr) =>
                               attr.Some? && attr.value < 32 && HasBit(policy.allowedMapTypes, attr.value))))
  {
    if call.userns.Ok? && call.userns.value in policies {
      var policy := policies[call.userns.value];
      TestBit(policy.flags, 1);
      TestBit(policy.flags, 0);
      assert Pow2(1) == FLAG_DENY_ALL && Pow2(0) == FLAG_ALLOW_ALL;
      if TestedBit(call.check).Some? {
        TestBit(TestedWord(policy, call.check), TestedBit(call.check).value);
      }
    }
  }

  // ---- Constant policies

  ghost predicate SameVerdicts(p: PolicyValue, q: PolicyValue, id: UsernsId, check: Check) {
    Hook(map[id := p], HookCall(0, Ok(id), check)) == Hook(map[id := q], HookCall(0, Ok(id), check))
  }

  /** The all-zero value denies, without a flag, whatever DENY_ALL denies, for any words and
      other flags. */
  lemma EmptyIsDenyAll(denied: PolicyValue, id: UsernsId, check: Check)
    requires HasBit(denied.flags, 1)
    ensures EMPTY.flags == 0 && SameVerdicts(EMPTY, denied, id, check)
    ensures Hook(map[id := denied], HookCall(0, Ok(id), check)) == -1
  {
    VerdictExact(map[id := EMPTY], HookCall(0, Ok(id), check));
    VerdictExact(map[id := denied], HookCall(0, Ok(id), check));
    HasBitZero(1);
    HasBitZero(0);
    if TestedBit(check).Some? { HasBitZero(TestedBit(check).value); }
  }

  /** All-ones words are weaker than the ALLOW_ALL flag: exactly the calls with no bit below
      32 to test (large or negative commands, large types, null attributes) tell them apart. */
  lemma AllOnesIsAllowAllIff(trusted: PolicyValue, id: UsernsId, check: Check)
    requires HasBit(trusted.flags, 0) && !HasBit(trusted.flags, 1)
    ensures ALLOW_ALL.flags == 0
    ensures SameVerdicts(ALLOW_ALL, trusted, id, check)
       <==> match check
            case Command(cmd) => 0 <= cmd < 32
            case ProgLoad(attr) => attr.Some? && attr.value < 32
            case MapCreate(attr) => attr.Some? && attr.value < 32
  {
    VerdictExact(map[id := ALLOW_ALL], HookCall(0, Ok(id), check));
    VerdictExact(map[id := trusted], HookCall(0, Ok(id), check));
    HasBitZero(1);
    HasBitZero(0);
    if TestedBit(check).Some? { HasBitAllOnes(TestedBit(check).value); }
  }

  // ---- Runs: the map changes from outside while hooks run

  datatype Event =
    | Insert(id: UsernsId, policy: PolicyValue)
    | Remove(id: UsernsId)
    | Called(call: HookCall)

  /** An insert of a new key into a full map is refused and changes nothing. */
  function Apply(policies: PolicyMap, e: Event): PolicyMap {
    match e
    case Insert(id, policy) =>
      if id !in policies && |policies| >= MAX_POLICY_ENTRIES then policies else policies[id := policy]
    case Remove(id) => policies - {id}
    case Called(_) => policies
  }

  /** What each event does: an insert manages the namespace unless the map is full of others, a
      remove leaves it unmanaged, and no event touches another namespace. */
  lemma EventEffects(policies: PolicyMap, e: Event, other: UsernsId)
    ensures e.Insert? && (e.id in policies || |policies| < 1024) ==>
              e.id in Apply(policies, e) && Apply(policies, e)[e.id] == e.policy
    ensures e.Insert? && e.id !in policies && |policies| >= 1024 ==> Apply(policies, e) == policies
    ensures e.Remove? ==> e.id !in Apply(policies, e)
    ensures e.Called? || e.id != other ==> SameEntry(policies, Apply(policies, e), other)
  {
  }

  /** A removed namespace is unrestricted until it is given a new entry. */
  lemma {:induction false} RemovedNamespaceIsUnrestricted(policies: PolicyMap, id: UsernsId, run: seq<Event>,
                                                          call: HookCall)
    requires call.userns == Ok(id)
    requires forall i :: 0 <= i < |run| ==> !(run[i].Insert? && run[i].id == id)
    ensures Hook(After(Apply(policies, Remove(id)), run), call) == 0
  {
    StaysUnmanaged(Apply(policies, Remove(id)), id, run);
  }

  lemma {:induction false} StaysUnmanaged(policies: PolicyMap, id: UsernsId, run: seq<Event>)
    requires id !in policies
    requires forall i :: 0 <= i < |run| ==> !(run[i].Insert? && run[i].id == id)
    ensures id !in After(policies, run)
    decreases run
  {
    if run != [] {
      assert forall i :: 0 <= i < |run[1..]| ==> run[1..][i] == run[i + 1];
      StaysUnmanaged(Apply(policies, run[0]), id, run[1..]);
    }
  }

  function After(policies: PolicyMap, run: seq<Event>): PolicyMap
    decreases run
  {
    if run == [] then policies else After(Apply(policies, run[0]), run[1..])
  }

  /** The verdicts of the calls that a run makes from user namespace `id`. */
  function Verdicts(policies: PolicyMap, run: seq<Event>, id: UsernsId): seq<int>
    decreases run
  {
    if run == [] then []
    else
      var rest := Verdicts(Apply(policies, run[0]), run[1..], id);
      if IsCallFrom(run[0], id) then [Hook(policies, run[0].call)] + rest else rest
  }

  /** Each further call from the namespace is answered by the hook on the map as it then is. */
  lemma {:induction false} VerdictsAreAnswers(policies: PolicyMap, run: seq<Event>, e: Event, id: UsernsId)
    ensures Verdicts(policies, run + [e], id)
         == Verdicts(policies, run, id)
            + if e.Called? && e.call.userns == Ok(id) then [Hook(After(policies, run), e.call)] else []
    decreases run
  {
    if run == [] {
      assert (run + [e])[1..] == [];
    } else {
      assert (run + [e])[1..] == run[1..] + [e];
      VerdictsAreAnswers(Apply(policies, run[0]), run[1..], e, id);
    }
  }

  predicate IsCallFrom(e: Event, id: UsernsId) {
    e.Called? && e.call.userns == Ok(id)
  }

  predicate Concerns(e: Event, id: UsernsId) {
    IsCallFrom(e, id) || (e.Insert? && e.id == id) || (e.Remove? && e.id == id)
  }

  /** The part of a run that concerns one namespace. */
  function OwnPart(run: seq<Event>, id: UsernsId): seq<Event> {
    if run == [] then []
    else if Concerns(run[0], id) then [run[0]] + OwnPart(run[1..], id)
    else OwnPart(run[1..], id)
  }

  /** The event is to give `id` an entry, and the map is full. */
  predicate Refuses(policies: PolicyMap, e: Event, id: UsernsId) {
    e.Insert? && e.id == id && id !in policies && |policies| >= MAX_POLICY_ENTRIES
  }

  /** No insert for `id` meets a full map. */
  ghost predicate NeverRefused(policies: PolicyMap, run: seq<Event>, id: UsernsId)
    decreases run
  {
    run != [] ==>
      && !Refuses(policies, run[0], id)
      && NeverRefused(Apply(policies, run[0]), run[1..], id)
  }

  ghost predicate SameEntry(p: PolicyMap, q: PolicyMap, id: UsernsId) {
    (id in p <==> id in q) && (id in p ==> p[id] == q[id])
  }

  lemma VerdictNeedsOwnEntryOnly(p: PolicyMap, q: PolicyMap, call: HookCall)
    requires call.userns.Ok? ==> SameEntry(p, q, call.userns.value)
    ensures Hook(p, call) == Hook(q, call)
  {
  }

  /** After the first `k` events, `id` has the entry it would have if the other namespaces'
      entries and events were not there. */
  ghost predicate InStep(p: PolicyMap, q: PolicyMap, run: seq<Event>, id: UsernsId, k: nat)
    requires k <= |run|
  {
    SameEntry(After(p, run[..k]), After(q, OwnPart(run[..k], id)), id)
  }

  /** Isolation: all through a run, a namespace has in the shared map the entry that its own
      events alone would give it, exactly when none of its inserts met a full map. */
  lemma {:induction false} IsolatedIff(p: PolicyMap, q: PolicyMap, run: seq<Event>, id: UsernsId)
    requires SameEntry(p, q, id) && q.Keys <= {id}
    ensures (forall k: nat :: k <= |run| ==> InStep(p, q, run, id, k)) <==> NeverRefused(p, run, id)
    decreases run
  {
    assert run[..0] == [];
    if run != [] {
      var p', q' := Apply(p, run[0]), PrivateStep(q, run[0], id);
      forall k: nat | k < |run| ensures InStep(p, q, run, id, k + 1) <==> InStep(p', q', run[1..], id, k) {
        InStepShift(p, q, run, id, k);
      }
      if Refuses(p, run[0], id) {
        assert run[1..][..0] == [];
        assert !InStep(p', q', run[1..], id, 0);
      } else {
        if Concerns(run[0], id) { OwnStep(p, q, run[0], id); } else { OthersStep(p, run[0], id); }
        IsolatedIff(p', q', run[1..], id);
        assert forall k: nat :: 0 < k <= |run| ==> (InStep(p, q, run, id, k) <==> InStep(p', q', run[1..], id, k - 1));
        assert forall k: nat :: k < |run| ==> (InStep(p', q', run[1..], id, k) <==> InStep(p, q, run, id, k + 1));
      }
    }
  }

  /** The same step without the others. */
  function PrivateStep(q: PolicyMap, e: Event, id: UsernsId): PolicyMap {
    if Concerns(e, id) then Apply(q, e) else q
  }

  lemma InStepShift(p: PolicyMap, q: PolicyMap, run: seq<Event>, id: UsernsId, k: nat)
    requires k < |run|
    ensures InStep(p, q, run, id, k + 1)
       <==> InStep(Apply(p, run[0]), PrivateStep(q, run[0], id), run[1..], id, k)
  {
    assert run[..k + 1][1..] == run[1..][..k];
    RunCons(q, run[0], OwnPart(run[1..][..k], id), id);
  }

  /** Hence what it observes is what it would observe alone. */
  lemma {:induction false} Isolation(p: PolicyMap, q: PolicyMap, run: seq<Event>, id: UsernsId)
    requires SameEntry(p, q, id) && q.Keys <= {id}
    requires NeverRefused(p, run, id)
    ensures Verdicts(p, run, id) == Verdicts(q, OwnPart(run, id), id)
    decreases run
  {
    if run != [] {
      var e, rest := run[0], run[1..];
      if Concerns(e, id) {
        OwnStep(p, q, e, id);
        Isolation(Apply(p, e), Apply(q, e), rest, id);
        RunCons(q, e, OwnPart(rest, id), id);
      } else {
        OthersStep(p, e, id);
        Isolation(Apply(p, e), q, rest, id);
      }
    }
  }

  lemma RunCons(q: PolicyMap, e: Event, rest: seq<Event>, id: UsernsId)
    ensures After(q, [e] + rest) == After(Apply(q, e), rest)
    ensures Verdicts(q, [e] + rest, id)
         == var rest := Verdicts(Apply(q, e), rest, id); if IsCallFrom(e, id) then [Hook(q, e.call)] + rest else rest
  {
  }

  lemma OwnStep(p: PolicyMap, q: PolicyMap, e: Event, id: UsernsId)
    requires SameEntry(p, q, id) && q.Keys <= {id} && Concerns(e, id)
    requires e.Insert? ==> id in p || |p| < MAX_POLICY_ENTRIES
    ensures SameEntry(Apply(p, e), Apply(q, e), id) && Apply(q, e).Keys <= {id}
    ensures e.Called? ==> Hook(p, e.call) == Hook(q, e.call)
  {
  }

  lemma OthersStep(p: PolicyMap, e: Event, id: UsernsId)
    requires !Concerns(e, id)
    ensures SameEntry(p, Apply(p, e), id)
  {
  }

  /** The map never outgrows its declared size. */
  lemma {:induction false} CapacityHolds(policies: PolicyMap, run: seq<Event>)
    requires |policies| <= MAX_POLICY_ENTRIES
    ensures |After(policies, run)| <= 1024
    decreases run
  {
    if run != [] {
      ApplySize(policies, run[0]);
      CapacityHolds(Apply(policies, run[0]), run[1..]);
    }
  }

  lemma ApplySize(policies: PolicyMap, e: Event)
    requires |policies| <= MAX_POLICY_ENTRIES
    ensures |Apply(policies, e)| <= MAX_POLICY_ENTRIES
  {
  }

  function InsertedIds(run: seq<Event>): set<UsernsId> {
    if run == [] then {}
    else (if run[0].Insert? then {run[0].id} else {}) + InsertedIds(run[1..])
  }

  /** Room for every namespace ever managed is enough for `Isolation`. */
  lemma {:induction false} EnoughRoom(policies: PolicyMap, run: seq<Event>, id: UsernsId)
    requires |policies.Keys + InsertedIds(run)| <= MAX_POLICY_ENTRIES
    ensures NeverRefused(policies, run, id)
    decreases run
  {
    if run != [] {
      var all := policies.Keys + InsertedIds(run);
      var next := Apply(policies, run[0]);
      assert next.Keys + InsertedIds(run[1..]) <= all;
      SubsetSize(next.Keys + InsertedIds(run[1..]), all);
      EnoughRoom(next, run[1..], id);
      if run[0].Insert? && run[0].id !in policies {
        assert policies.Keys + {run[0].id} <= all;
        SubsetSize(policies.Keys + {run[0].id}, all);
      }
    }
  }

  lemma SubsetSize(a: set<UsernsId>, b: set<UsernsId>)
    requires a <= b
    ensures |a| <= |b|
  {
    if a != {} {
      var x :| x in a;
      SubsetSize(a - {x}, b - {x});
    }
  }

  /** The other side: a namespace refused for lack of room is not managed at all, so even a
      policy that denies everything leaves it unrestricted. */
  lemma RefusedNamespaceIsUnrestricted(policies: PolicyMap, id: UsernsId, policy: PolicyValue, check: Check)
    requires id !in policies && |policies| >= MAX_POLICY_ENTRIES
    ensures Verdicts(policies, [Insert(id, policy), Called(HookCall(0, Ok(id), check))], id) == [0]
  {
    var call := Called(HookCall(0, Ok(id), check));
    var run := [Insert(id, policy), call];
    assert run[1..] == [call] && [call][1..] == [];
    assert Verdicts(policies, [call], id) == [0];
  }
}
