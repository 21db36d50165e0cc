# bpf-rbacd: one policy, two enforcement points

A Dafny model of the role-based access control daemon for eBPF. One policy is enforced
twice: by the proxy, which decides on *names* with `any` wildcards and a system-policy
ceiling, and by kernel hooks, which decide on `u32` *words* compiled from the same policy.
The project states what each side decides, proves exactly where they agree, and proves what
holds over every run of the machines around them: the proxy's interleaved connections, the
changing policy map, and the enter-mount-return dance that delegates bpffs to a namespace.

## Main results

- **The decisions.** What the proxy answers, what each compiled bit is, what each hook returns and
  which role a user gets are stated entry by entry, in terms of list membership and kernel numbers
  alone (`RequestDecision`, `ProgTypesWord`, `MapTypesWord`, `CommandsWord`, `VerdictExact`,
  `ResolvedIffGroupListed`).
- **The two enforcement points.** For every policy, role and request that the kernel can
  number, whatever the proxy allows the hooks allow; the hooks' verdict, and the requests they
  let through against the proxy, are given in closed form by lookups in the policy alone
  (`EnforcementAgrees`). This persists over every run of the policy map that leaves the entry
  alone (`EnforcementAgreesOverRuns`).
- **The ceiling.** Folding it into each role preserves every decision, and every trace of the
  daemon under every schedule (`FoldPreservesDecisions`, `FoldIsUnobservable`). The compiled
  words keep the promise that no role exceeds the system limits exactly under the conditions
  of the three `*StayUnderCeilingIff` lemmas; folding before compiling makes the command word
  exact and the hooks never looser (`FoldingClosesCommandGap`, `FoldedEnforcementAgrees`).
- **The proxy.** Each connection of each interleaving behaves as it would alone
  (`NonInterference`); hence every `bpf()` call is authorized, would pass the kernel hooks,
  and every response is truthful (`CallsAreAuthorized`, `ResponsesAreTruthful`).
- **The policy map.** All through a run a namespace has the entry its own events alone would
  give it, exactly when none of its inserts met a full map (`IsolatedIff`); then what it
  observes does not depend on the others (`Isolation`).
- **Delegation.** For every pattern of failed system calls, mounts happen only inside the
  target; mount stacks obey a ledger; a revocation undoes a delegation; and the thread is home
  between calls exactly when each call leaves it there (`ActsOnlyInTarget`, `MountLedger`,
  `RevokeUndoesDelegate`, `HomeIff`; `Serve` ties them to the step-by-step code). The option string
  reads back as the words (`MountDataRoundTrip`).

## Where the code and its documentation differ

The model follows the code.

- `src/policy.rs:19-23` and `src/policy.rs:289-291` promise that compiled words are cut down
  to the system policy. A role wildcard returns all ones before the ceiling is looked at
  (`WildcardRoleIgnoresCeiling`, `ProgTypesStayUnderCeilingIff`,
  `MapTypesStayUnderCeilingIff`, `CommandsStayUnderCeilingIff`).
- `src/namespace.rs:159-160` promises an attempt to restore the original namespaces on every
  error. A failed mount-namespace entry returns with the thread in the target's user namespace
  (`StrandedByFailedEntry`, `BackIff`).
- `docs/DESIGN.md:380` expects removing an entry to deny; a missing entry allows
  (`VerdictExact`, `RemovedNamespaceIsUnrestricted`, `RefusedNamespaceIsUnrestricted`).
- A role lists the operation `attach` per program type (`src/policy.rs:11-15`), and the proxy
  checks it. In the kernel only the command hook sees an attach: the load hook runs on loads
  (`bpf-rbacd-ebpf/src/main.rs:77-80`) and `allowed_attach_types` is read nowhere, so a role
  that may attach at all passes with every attach type (`AttachTypesAreNotEnforced`,
  `DeniedAttachPassesHooks`).
- Delegation exists so that tokens can be created, but the token command has a number above
  31, so no compiled entry lets it through (`TokenCreateIsNeverCompiled`).

## Files

- `Wrappers.dfy`, `Bits.dfy`: options and results; words as sets of bits. `u32` is a range of
  `int`; `&`, `|` and `1 <<` are defined digit by digit.
- `BitTables.dfy`, `Policy.dfy`, `Bitmaps.dfy`, `Ceiling.dfy`, `Roles.dfy`: `src/policy.rs`. The
  `*Constants*` lemmas of the first compare its tables with the numbers shared with the kernel side
  (`bpf-rbacd-common/src/lib.rs:125-205`), all of which agree save the token command, which has no name.
- `Lsm.dfy`: `bpf-rbacd-ebpf/src/main.rs` and `bpf-rbacd-common/src/lib.rs`.
- `Agreement.dfy`: the proxy's decision against the hooks'.
- `MountData.dfy`, `Delegation.dfy`: `src/namespace.rs`.
- `Protocol.dfy`, `Proxy.dfy`: `src/protocol.rs` and `src/main.rs`.

Conventions. Hash-map iteration is an arbitrary duplicate-free enumeration of the keys, given
as a parameter and fixed while the map is not changed. The namespace resolver, the user
database, the return value of `bpf()` and the success of every other system call are
parameters; a failed call changes nothing. Error texts and denial reasons are datatype values.

## Model

| member | source | states |
|---|---|---|
| BitTables.CommandToBit | src/policy.rs:478-514 | every command number is below 32 and the inverse table gives back the name, so the table is injective |
| BitTables.CommandTableOnto | src/policy.rs:478-514 | every number below 32 has a name that maps to it: with the row above, a bijection of 32 names |
| BitTables.MapTypeToBit | src/policy.rs:441-475 | map type numbers lie in 1..30 and determine the name |
| BitTables.MapTypeTableOnto | src/policy.rs:441-475 | every number in 1..30 has a name that maps to it: with the row above, a bijection of 30 names |
| BitTables.ProgTypeToBit | src/policy.rs:403-438 | program type numbers lie in 1..30 and determine the name, except numbers 2 and 26 |
| BitTables.ProgTypeTableOnto | src/policy.rs:403-438 | every number in 1..30 other than 2 and 26 has a name that maps to it |
| BitTables.ProgTypeSharedBits | src/policy.rs:406-435 | numbers 2 and 26 do have four and three names |
| Bits.HasBitIsDigit | src/policy.rs:297-302 | bit i of a word is its binary digit of weight 2^i |
| Policy.CommandDecision | src/policy.rs:240-251 | a command is allowed iff it or `any` is on the role's list and on the ceiling's, if there is one |
| Policy.ProgOpDecision | src/policy.rs:257-268 | an operation on a program type is allowed iff in the role's map, and in the ceiling's if there is one, the consulted key (`any` if present, else the type) is present and its list contains `any` or that very operation |
| Policy.MapOpDecision | src/policy.rs:274-285 | the same for map types |
| Policy.RequestDecision | src/policy.rs:213-233 | a request is allowed iff its role is configured and role and ceiling grant its command (PROG_LOAD, MAP_CREATE, PROG_ATTACH) and its operation (load, create, attach) on its type, in raw membership |
| Policy.ExtensionIsMonotoneIff | src/policy.rs:391-400 | adding keys and operations to a type map keeps all rights iff the wildcard key is not new or its list covers everything the old keys granted |
| Policy.NewWildcardTakesRightsAway | src/policy.rs:391-400 | a concrete type map that loses a right by gaining a wildcard key |
| Bitmaps.OrBits | src/policy.rs:297-302 | the builder loop yields the one word whose bits are exactly the bits of the listed names, whatever their order and repetitions |
| Bitmaps.BuildBitmap | src/policy.rs:292-320 | the shared shape of the three builders, with early return on a role wildcard, yields the effective word of two sets of names |
| Bitmaps.ProgTypesBitmap | src/policy.rs:292-320 | the program word is the same for every walk of the two hash maps |
| Bitmaps.MapTypesBitmap | src/policy.rs:326-354 | the map word is the same for every walk of the two hash maps |
| Bitmaps.CommandsBitmap | src/policy.rs:360-388 | the command word depends on the sets of listed commands only |
| Bitmaps.EffectiveBit | src/policy.rs:292-388 | a bit of an effective word is set iff the role has a wildcard (and the bit is below 32), or the role names it and the ceiling is absent, wild or names it |
| Bitmaps.ProgTypesWord | src/policy.rs:292-320 | each bit of the program word: below 32 under a role key `any`; otherwise some role key has that number, and the ceiling is absent, has `any` or has some key with that number |
| Bitmaps.MapTypesWord | src/policy.rs:326-354 | the same for the map word |
| Bitmaps.CommandsWord | src/policy.rs:360-388 | the same for the command word and the lists |
| Bitmaps.EffectiveMaskMonotone | src/policy.rs:292-388 | words grow with the role's and the ceiling's names; imposing a ceiling only clears bits |
| Bitmaps.TypeEndBits | src/policy.rs:292-354 | bits 0 and 31 of the type words are set iff the role has the wildcard |
| Ceiling.MeetTypesChecks | src/policy.rs:391-400 | a wildcard-aware meet of two type maps grants exactly what both grant |
| Ceiling.FoldDecides | src/policy.rs:240-285 | folding the ceiling into a role preserves the decision on every command, type and operation |
| Ceiling.FoldPreservesDecisions | src/policy.rs:213-233 | the folded policy has no ceiling and answers every request of every role alike |
| Ceiling.FoldedMask | src/policy.rs:292-388 | a folded word has no more bits, and all of them iff no bit was won by a role wildcard or by unrelated names |
| Ceiling.CeilingBindsIff | src/policy.rs:76-79 | a compiled role stays within the compiled ceiling iff it has no wildcard, or the ceiling has one or names every bit |
| Ceiling.ProgTypesStayUnderCeilingIff | src/policy.rs:19-23 | the program word stays within the ceiling's iff a role wildcard comes with a ceiling wildcard |
| Ceiling.MapTypesStayUnderCeilingIff | src/policy.rs:19-23 | the same for the map word |
| Ceiling.CommandsStayUnderCeilingIff | src/policy.rs:19-23 | the same for the command word, which also stays within a ceiling that lists every command |
| Ceiling.FoldCommandsMask | src/policy.rs:360-388 | folding keeps the command word iff not (role wildcard under a ceiling without one that omits a command) |
| Ceiling.FoldMapTypesMask | src/policy.rs:326-354 | folding keeps the map word iff a role wildcard comes with a ceiling wildcard |
| Ceiling.FoldProgTypesMask | src/policy.rs:292-320 | folding keeps the program word iff the ceiling is wild, or the role is not and bits 2 and 26 are not named differently on the two sides |
| Ceiling.ProgWordIsImageOfCommonKeys | src/policy.rs:292-320 | without wildcards in the program maps the program word is the image of the common keys, plus bits 2 and 26 when both sides name them |
| Ceiling.MapWordIsImageOfCommonKeys | src/policy.rs:326-354 | without wildcards in the map-type maps the map word is exactly the image of the common keys |
| Ceiling.AliasesMeetAtTheBit | src/policy.rs:406-435 | `kprobe` under a ceiling of `uprobe`: no common name, common bit |
| Lsm.AsU32 | bpf-rbacd-ebpf/src/main.rs:68-69 | the cast of a signed command is congruent to it modulo 2^32; it is below 32 iff the command is in 0..31, and then equals it |
| Lsm.VerdictExact | bpf-rbacd-ebpf/src/main.rs:33-195 | each hook returns 0 or -1, and 0 iff: kernel call; or resolved namespace that is unmanaged, or whose flag bit 1 is clear and (flag bit 0 is set, or the command, program type or map type is present, below 32 and its bit set in its own word) |
| Lsm.EmptyIsDenyAll | bpf-rbacd-common/src/lib.rs:82-92 | the empty value, without any flag, gives the verdicts of DENY_ALL with any words and other flags, namely -1 |
| Lsm.AllOnesIsAllowAllIff | bpf-rbacd-common/src/lib.rs:94-104 | all-ones words agree with ALLOW_ALL iff the call has a bit below 32 to check (non-negative small command, non-null attribute with small type) |
| Lsm.VerdictNeedsOwnEntryOnly | bpf-rbacd-ebpf/src/main.rs:48-58 | two maps that agree on the caller's own entry give the same verdict |
| Lsm.EventEffects | bpf-rbacd-ebpf/src/main.rs:18-20 | an insert manages its namespace unless it is new and 1024 others are there, when nothing changes; a remove leaves it unmanaged; no event touches another namespace |
| Lsm.VerdictsAreAnswers | bpf-rbacd-ebpf/src/main.rs:33-195 | the verdicts of a run are the hook's answers to the namespace's calls, each on the map as it then is |
| Lsm.IsolatedIff | bpf-rbacd-ebpf/src/main.rs:18-20 | after every prefix of a run a namespace's entry equals the one its own events alone would give it, iff none of its inserts meets a full map |
| Lsm.Isolation | bpf-rbacd-ebpf/src/main.rs:33-195 | hence, over any such run of inserts, removes and calls, its verdicts equal those of its own events alone on its own entry |
| Lsm.EnoughRoom | bpf-rbacd-common/src/lib.rs:116-119 | room for all namespaces ever inserted ensures no insert is refused |
| Lsm.RefusedNamespaceIsUnrestricted | bpf-rbacd-ebpf/src/main.rs:50-58 | a namespace refused by a full map is allowed everything, whatever its policy |
| Lsm.RemovedNamespaceIsUnrestricted | bpf-rbacd-ebpf/src/main.rs:50-58 | a removed namespace is allowed everything until it is inserted again, whatever else happens to the map |
| Lsm.CapacityHolds | bpf-rbacd-ebpf/src/main.rs:18-20 | the map never holds more than 1024 entries |
| Agreement.HookReadsCompiledBit | bpf-rbacd-ebpf/src/main.rs:60-75 | on a compiled entry a hook allows iff the call's bit is set in the compiled word |
| Agreement.HooksOfRequests | bpf-rbacd-ebpf/src/main.rs:22-195 | by kernel number: a load meets command hook 5 and the load hook on its type, a map creation command hook 0 and the map hook on its type, an attach command hook 8 alone |
| Agreement.CommandBitExact | src/policy.rs:240-251 | a command's bit is set iff the names allow it, or a role wildcard skipped a ceiling without it |
| Agreement.CommandsAgreeIff | src/policy.rs:360-388 | names and word agree on all 32 commands iff the role has no wildcard, or the ceiling is absent, wild or lists all 32 |
| Agreement.FoldingClosesCommandGap | src/policy.rs:360-388 | compiled after folding, a command's bit is set iff the original names allow it |
| Agreement.TypeBitExact | src/policy.rs:257-285 | a type's bit is set iff its name is allowed the operation or the gap condition holds, never both |
| Agreement.MapTypeGap | src/policy.rs:274-285 | for map types the gap without a role wildcard is only operations missing from lists that have the very name |
| Agreement.EnforcementAgrees | src/policy.rs:213-233 | what the proxy allows, all hooks that run on the request allow; the verdict of those hooks, and the requests they pass against the proxy, equal closed forms over policy lookups (command passes by name or gap, type passes by name or gap, at least one by gap) |
| Agreement.AttachTypesAreNotEnforced | bpf-rbacd-ebpf/src/main.rs:22-80 | a role allowed the attach command passes the hooks with every attach type, while the proxy allows exactly the types for which role and ceiling list `attach` or `any` under the consulted key |
| Agreement.DeniedAttachPassesHooks | bpf-rbacd-ebpf/src/main.rs:22-80 | a concrete attach that the proxy denies and the hooks pass |
| Agreement.AttachableTypePassesLoadHook | bpf-rbacd-ebpf/src/main.rs:95-137 | a program type the proxy lets a role attach also passes the load hook |
| Agreement.EnforcementAgreesOverRuns | bpf-rbacd-ebpf/src/main.rs:40-195 | the same implication and closed forms at every later point of a run of the policy map that does not touch the entry |
| Agreement.FoldedEnforcementAgrees | src/policy.rs:213-388 | with the folded policy compiled, the hooks still allow what the proxy allows, nothing more than before, and exceed it iff the command is allowed by name and the folded role has a type gap |
| Agreement.WildcardRoleIgnoresCeiling | src/policy.rs:326-329 | a wildcard role under an empty ceiling: hooks allow every named map type, the proxy none |
| Agreement.TokenCreateIsNeverCompiled | bpf-rbacd-common/src/lib.rs:204-204 | no compiled entry lets the token command through |
| Roles.HasCommonGroup | src/policy.rs:190-194 | the inner loop succeeds iff some index of the role's group list holds one of the user's groups |
| Roles.GetRoleForGroups | src/policy.rs:183-207 | the loops return the first match in priority order then map order, a function of the set of groups |
| Roles.ResolvedRoleIsBest | src/policy.rs:178-207 | a role is found iff one shares a group; it is configured, matches, and no match has a better rank |
| Roles.ResolvedIffGroupListed | src/policy.rs:183-207 | a role is resolved iff some configured role lists one of the user's groups, and the resolved role is configured and lists one |
| Roles.WellKnownRolesGoFirst | src/policy.rs:183-196 | among the roles that list a group of the user, `ebpf-admin` wins, then `ebpf-net`, then `ebpf` |
| Roles.OtherRolesGoInOrder | src/policy.rs:198-204 | any other role is resolved only as the first one walked that lists a group of the user |
| Roles.MoreGroupsNeverLowerRank | src/policy.rs:183-207 | adding groups never lowers the rank of the resolved role |
| Roles.OrderIndependentIff | src/policy.rs:198-204 | the role is independent of hash-map order iff a well-known role matches or at most one role matches |
| Roles.GetUserGroups | src/main.rs:139-162 | the list has no duplicates, starts with the primary group if that resolves, and its set is the resolvable primary and listed groups |
| Roles.ResolveUser | src/main.rs:73-79 | the user's role depends only on the set of groups that resolve |
| MountData.HexRoundTrip | src/namespace.rs:114-119 | the printed digits of any number parse back to it and have no leading zero |
| MountData.MountDataRoundTrip | src/namespace.rs:110-119 | a reader of comma-separated `key=0x..` fields recovers all four words of every option quadruple |
| MountData.MountDataInjective | src/namespace.rs:110-119 | different options never print the same string |
| MountData.MountDataFormat | src/namespace.rs:110-119 | the string itself: the four keys in order, each with `=0x` and the digits of its own word, separated by commas |
| MountData.HexExamples | src/namespace.rs:110-119 | lower-case digits, most significant first, including those of the documented example |
| Delegation.Thread.DelegateBpfToNamespace | src/namespace.rs:167-206 | step by step, for every pattern of failures, the call has the effect and result given in terms of the target |
| Delegation.Thread.RevokeBpfDelegation | src/namespace.rs:213-231 | likewise for revocation |
| Delegation.Serve | src/namespace.rs:167-231 | a thread put through any sequence of calls ends in the state, and returns the results, of the modelled run |
| Delegation.CallExact | src/namespace.rs:167-231 | for every pattern of failures: which error, when `Ok`, the mount pushed or popped at the target's place and nowhere else, the attempt made, and the two namespaces the thread is left in |
| Delegation.BackIff | src/namespace.rs:157-160 | for every target, the thread is back iff each namespace it was left in is its own; for a foreign target iff no mount-namespace entry failed after the user entry and all restores worked |
| Delegation.StrandedByFailedEntry | src/namespace.rs:180-186 | a failed mount-namespace entry leaves the thread in the target's user namespace |
| Delegation.HomeIff | src/namespace.rs:167-231 | over every run the thread is home between all calls iff each call leaves it there; with foreign targets iff every call was clean |
| Delegation.ActsOnlyInTarget | src/namespace.rs:180-206 | over every run, the mounts and unmounts attempted are exactly those of calls that entered both namespaces, made from their targets |
| Delegation.StackIsReplay | src/namespace.rs:167-231 | over every run the stack at a place is the replay of the calls aimed there |
| Delegation.MountLedger | src/namespace.rs:167-231 | depth at a place is initial depth plus successful delegations minus successful revocations |
| Delegation.OthersUntouched | src/namespace.rs:167-231 | calls aimed elsewhere change nothing at a place |
| Delegation.RevokeUndoesDelegate | src/namespace.rs:208-231 | a successful revocation undoes an earlier delegation to the same place, around any calls to other places |
| Delegation.StampsStayRight | src/namespace.rs:10-17 | if targets respect the owner of each mount namespace, every bpffs stays stamped with that owner |
| Delegation.DelegationCarriesOptions | src/namespace.rs:188-199 | a successful delegation of any four words leaves on top of the target's stack a bpffs stamped for the target whose options read back as all four |
| Delegation.DelegationCarriesPolicy | src/namespace.rs:95-108 | in particular delegating a role's compiled words leaves a bpffs whose options read back as those words |
| Proxy.NumbersAreBits | src/main.rs:189-196 | the daemon's own map type numbers equal the policy table's |
| Proxy.SupportedTypes | src/main.rs:189-196 | the daemon numbers exactly the five types hash, array, perf_event_array, lru_hash and ringbuf |
| Proxy.NameBuffer | src/main.rs:198-201 | 16 bytes: the name's first 15 at most, zeros after, last byte zero |
| Proxy.FillNameBuffer | src/main.rs:198-201 | the in-place fill produces that buffer |
| Proxy.ExecuteBpf | src/main.rs:164-252 | the dispatch makes the one call and gives the one answer specified for the request |
| Proxy.StepKeepsHistory | src/main.rs:63-137 | every step of a connection keeps its history proper: role from the groups, calls only when allowed, and a response that is right for the calls made |
| Proxy.NonInterference | src/main.rs:48-61 | under every interleaving a connection's state and events are those of its own inputs alone |
| Proxy.ReachableHistory | src/main.rs:63-137 | every connection of every reachable server state has a proper history |
| Proxy.ReachableProvenance | src/main.rs:63-137 | under every interleaving, the user and the request a connection holds, and the value each of its calls returned, are inputs of that very connection |
| Proxy.CallsAreAuthorized | src/main.rs:95-121 | every call in every trace: role selected by the groups, request allowed; key size, value size, entry count and name bytes are the request's own, the name cut to 15 bytes and zero-padded; groups, request and return value are inputs of that connection; the type bit is set in the role's compiled word and the hooks would allow it |
| Proxy.ResponsesAreTruthful | src/main.rs:95-134 | at most one call then at most one response; denial only without a call, for want of a role or of permission; success only for an allowed request, with the non-negative value its own call returned; an error carries the negative value of its own call, or the type outside the five, or says an allowed load or attach is not implemented |
| Proxy.FoldIsUnobservable | src/main.rs:48-137 | a daemon on the folded policy has the same states and trace under every schedule |
| Proxy.ScriptEvents | src/main.rs:63-137 | the exact calls and response of the machine after a complete sequence of inputs, in terms of role, permission, type and return value |
| Proxy.HandleClient | src/main.rs:63-137 | the sequential handler causes exactly the events of the machine on the corresponding inputs |

## Left out

- YAML, bincode, file loading and logging: the model starts from decoded values.
- Sockets, peer credentials and `SCM_RIGHTS`: only their outcomes appear, as inputs of a connection.
- The client library: how `create_map` unpacks a response and picks the descriptor out of the control messages.
- Texts of errors and denial reasons: datatype values instead of formatted strings.
- Raw context and pointer reads in the hooks and the namespace resolver, which is a stub in the source: their results are parameters.
- `Policy::default`, `config/policy.yaml`, the command-line client, `xtask` and `is_bpffs_mounted`: finite data or plumbing.
- `TargetNamespace::from_pid`: a call's target is what `/proc/{pid}/ns` holds while the call lasts.
- The four namespace-file opens of a delegation are one outcome, because any failure among them returns before anything has changed.
- `PolicyValue` is modelled without its reserved words, and attach types, which no hook reads, are compiled to 0.
