/** Namespace delegation: enter the target's namespaces, mount or unmount bpffs, return. */
module Delegation {
  import opened Wrappers
  import opened Policy
  import opened Bitmaps
  import opened MountData

  type NsId = nat

  datatype Context = Context(user: NsId, mnt: NsId)

  /** A mounted bpffs: the user namespace its superblock was stamped with, and its options. */
  datatype Bpffs = Bpffs(sUserNs: NsId, data: string)

  datatype Loc = Loc(mnt: NsId, path: string)

  /** Mounts stack up at a path; only the last one is visible. Empty stacks are not stored. */
  type MountTable = m: map<Loc, seq<Bpffs>> | forall l :: l in m ==> m[l] != []

  function Stack(m: MountTable, l: Loc): seq<Bpffs> {
    if l in m then m[l] else []
  }

  function SetStack(m: MountTable, l: Loc, s: seq<Bpffs>): (r: MountTable)
    ensures Stack(r, l) == s
    ensures forall l' :: l' != l ==> Stack(r, l') == Stack(m, l')
  {
    if s == [] then m - {l} else m[l := s]
  }

  /** A mount table is determined by its stacks. */
  lemma {:induction false} StacksDetermine(m: MountTable, n: MountTable)
    requires forall l :: Stack(m, l) == Stack(n, l)
    ensures m == n
  {
    forall l ensures l in m <==> l in n { assert Stack(m, l) == Stack(n, l); }
    forall l | l in m ensures m[l] == n[l] { assert Stack(m, l) == Stack(n, l); }
  }

  /** An attempted `mount` or `umount`, with the context the thread made it from. */
  datatype Attempt = Attempt(ctx: Context, path: string)

  datatype Machine = Machine(ctx: Context, mounts: MountTable, attempts: seq<Attempt>)

  /** What the kernel lets succeed. A failed call changes nothing. */
  datatype Outcomes = Outcomes(
    opens: bool, enterUser: bool, enterMnt: bool, act: bool, restoreUser: bool, restoreMnt: bool)

  datatype Action = MountBpffs(opts: DelegationOpts) | UnmountBpffs

  datatype Failure = OpenFailed | EnterUserFailed | EnterMntFailed | ActionFailed

  /** One call of `delegate_bpf_to_namespace` or `revoke_bpf_delegation`; `target` is what
      `/proc/{pid}/ns` holds during the call. */
  datatype Call = Call(action: Action, target: Context, path: string, outcomes: Outcomes)

  // ---- The calls, step by step

  class Thread {
    var userNs: NsId
    var mntNs: NsId
    var mounts: MountTable
    ghost var attempts: seq<Attempt>

    ghost function Model(): Machine
      reads this
    {
      Machine(Context(userNs, mntNs), mounts, attempts)
    }

    constructor (ctx: Context, mounts: MountTable)
      ensures Model() == Machine(ctx, mounts, [])
    {
      this.userNs, this.mntNs, this.mounts, this.attempts := ctx.user, ctx.mnt, mounts, [];
    }

    method SetUserNs(ns: NsId, ok: bool) returns (done: bool)
      modifies this`userNs
      ensures done == ok && userNs == if ok then ns else old(userNs)
    {
      if ok { userNs := ns; }
      return ok;
    }

    method SetMntNs(ns: NsId, ok: bool) returns (done: bool)
      modifies this`mntNs
      ensures done == ok && mntNs == if ok then ns else old(mntNs)
    {
      if ok { mntNs := ns; }
      return ok;
    }

    /** `mount(2)`: the superblock is stamped with the thread's current user namespace. */
    method Mount(path: string, data: string, ok: bool) returns (done: bool)
      modifies this`mounts, this`attempts
      ensures attempts == old(attempts) + [Attempt(Context(userNs, mntNs), path)]
      ensures done == ok
      ensures var l := Loc(mntNs, path);
              mounts == if !ok then old(mounts)
                        else SetStack(old(mounts), l, Stack(old(mounts), l) + [Bpffs(userNs, data)])
    {
      attempts := attempts + [Attempt(Context(userNs, mntNs), path)];
      var l := Loc(mntNs, path);
      if ok { mounts := SetStack(mounts, l, Stack(mounts, l) + [Bpffs(userNs, data)]); }
      return ok;
    }

    /** `umount(2)`: fails where nothing is mounted. */
    method Umount(path: string, ok: bool) returns (done: bool)
      modifies this`mounts, this`attempts
      ensures attempts == old(attempts) + [Attempt(Context(userNs, mntNs), path)]
      ensures done == (ok && Stack(old(mounts), Loc(mntNs, path)) != [])
      ensures var l := Loc(mntNs, path);
              mounts == if done then SetStack(old(mounts), l, DropLast(Stack(old(mounts), l))) else old(mounts)
    {
      attempts := attempts + [Attempt(Context(userNs, mntNs), path)];
      var stack := Stack(mounts, Loc(mntNs, path));
      done := ok && stack != [];
      if done { mounts := SetStack(mounts, Loc(mntNs, path), DropLast(stack)); }
    }

    method DelegateBpfToNamespace(target: Context, path: string, opts: DelegationOpts, o: Outcomes)
      returns (r: Result<(), Failure>)
      modifies this
      ensures Model() == Perform(old(Model()), Call(MountBpffs(opts), target, path, o))
      ensures r == Outcome(old(Model()), Call(MountBpffs(opts), target, path, o))
    {
      if !o.opens { return Err(OpenFailed); }
      var selfUser, selfMnt := userNs, mntNs;
      var entered := SetUserNs(target.user, o.enterUser);
      if !entered { return Err(EnterUserFailed); }
      entered := SetMntNs(target.mnt, o.enterMnt);
      if !entered { return Err(EnterMntFailed); }
      var mounted := Mount(path, ToMountData(opts), o.act);
      var _ := SetUserNs(selfUser, o.restoreUser);
      var _ := SetMntNs(selfMnt, o.restoreMnt);
      return if mounted then Ok(()) else Err(ActionFailed);
    }

    method RevokeBpfDelegation(target: Context, path: string, o: Outcomes) returns (r: Result<(), Failure>)
      modifies this
      ensures Model() == Perform(old(Model()), Call(UnmountBpffs, target, path, o))
      ensures r == Outcome(old(Model()), Call(UnmountBpffs, target, path, o))
    {
      if !o.opens { return Err(OpenFailed); }
      var selfUser, selfMnt := userNs, mntNs;
      var entered := SetUserNs(target.user, o.enterUser);
      if !entered { return Err(EnterUserFailed); }
      entered := SetMntNs(target.mnt, o.enterMnt);
      if !entered { return Err(EnterMntFailed); }
      var unmounted := Umount(path, o.act);
      var _ := SetUserNs(selfUser, o.restoreUser);
      var _ := SetMntNs(selfMnt, o.restoreMnt);
      return if unmounted then Ok(()) else Err(ActionFailed);
    }
  }

  method ServeOne(t: Thread, c: Call) returns (r: Result<(), Failure>)
    modifies t
    ensures t.Model() == Perform(old(t.Model()), c)
    ensures r == Outcome(old(t.Model()), c)
  {
    match c.action {
      case MountBpffs(opts) => r := t.DelegateBpfToNamespace(c.target, c.path, opts, c.outcomes);
      case UnmountBpffs => r := t.RevokeBpfDelegation(c.target, c.path, c.outcomes);
    }
  }

  /** A thread given one call after another: what the run theorems below speak of. */
  method Serve(t: Thread, calls: seq<Call>) returns (results: seq<Result<(), Failure>>)
    modifies t
    ensures t.Model() == Run(old(t.Model()), calls)
    ensures |results| == |calls|
    ensures forall i :: 0 <= i < |calls| ==> results[i] == Outcome(Run(old(t.Model()), calls[..i]), calls[i])
  {
    ghost var states := [t.Model()];
    results := [];
    for k := 0 to |calls|
      invariant |states| == k + 1 && states[0] == old(t.Model()) && states[k] == t.Model()
      invariant IsChain(states, calls[..k])
      invariant |results| == k
      invariant forall i :: 0 <= i < k ==> results[i] == Outcome(states[i], calls[i])
    {
      var r := ServeOne(t, calls[k]);
      results := results + [r];
      states := states + [t.Model()];
    }
    assert calls[..|calls|] == calls;
    ChainIsRun(states, calls);
  }

  ghost predicate IsChain(states: seq<Machine>, calls: seq<Call>) {
    && |states| == |calls| + 1
    && forall i :: 0 <= i < |calls| ==> states[i + 1] == Perform(states[i], calls[i])
  }

  lemma ChainIsRun(states: seq<Machine>, calls: seq<Call>)
    requires IsChain(states, calls)
    ensures forall i :: 0 <= i <= |calls| ==> states[i] == Run(states[0], calls[..i])
    ensures states[|calls|] == Run(states[0], calls)
  {
    for k := 0 to |calls|
      invariant forall i :: 0 <= i <= k ==> states[i] == Run(states[0], calls[..i])
    {
      RunNext(states[0], calls, k);
    }
    assert calls[..|calls|] == calls;
  }

  // ---- What a call amounts to

  predicate InUser(o: Outcomes) { o.opens && o.enterUser }

  predicate InBoth(o: Outcomes) { InUser(o) && o.enterMnt }

  function DropLast(s: seq<Bpffs>): seq<Bpffs>
    requires s != []
  {
    s[..|s| - 1]
  }

  predicate Succeeds(m: MountTable, c: Call) {
    InBoth(c.outcomes) && c.outcomes.act && (c.action.UnmountBpffs? ==> Stack(m, Loc(c.target.mnt, c.path)) != [])
  }

  /** The stack a successful call leaves at its own location: what is pushed is stamped with
      the target's user namespace. */
  function Acted(s: seq<Bpffs>, c: Call): seq<Bpffs>
    requires c.action.UnmountBpffs? ==> s != []
  {
    match c.action
    case MountBpffs(opts) => s + [Bpffs(c.target.user, ToMountData(opts))]
    case UnmountBpffs => DropLast(s)
  }

  /** The whole effect, with every namespace, location and stamp taken from the target. */
  function Perform(s: Machine, c: Call): Machine {
    var o, l := c.outcomes, Loc(c.target.mnt, c.path);
    Machine(
      Context(if InUser(o) && !(o.enterMnt && o.restoreUser) then c.target.user else s.ctx.user,
              if InBoth(o) && !o.restoreMnt then c.target.mnt else s.ctx.mnt),
      if Succeeds(s.mounts, c) then SetStack(s.mounts, l, Acted(Stack(s.mounts, l), c)) else s.mounts,
      if InBoth(o) then s.attempts + [Attempt(c.target, c.path)] else s.attempts)
  }

  function Outcome(s: Machine, c: Call): Result<(), Failure> {
    var o := c.outcomes;
    if !o.opens then Err(OpenFailed)
    else if !o.enterUser then Err(EnterUserFailed)
    else if !o.enterMnt then Err(EnterMntFailed)
    else if Succeeds(s.mounts, c) then Ok(())
    else Err(ActionFailed)
  }

  /** The result and effect of a call from the outcomes of its system calls one by one: each
      failure has its own error, success needs every entry and the action itself, nothing is
      mounted or unmounted elsewhere, and each namespace is the target's or the old one. */
  lemma {:induction false} CallExact(s: Machine, c: Call, other: Loc)
    ensures
      var o, t, l, r, after := c.outcomes, c.target, Loc(c.target.mnt, c.path), Outcome(s, c), Perform(s, c);
      && (r == Err(OpenFailed) <==> !o.opens)
      && (r == Err(EnterUserFailed) <==> o.opens && !o.enterUser)
      && (r == Err(EnterMntFailed) <==> o.opens && o.enterUser && !o.enterMnt)
      && (r.Ok? <==> && o.opens && o.enterUser && o.enterMnt && o.act
                     && (c.action.UnmountBpffs? ==> |Stack(s.mounts, l)| > 0))
      && (r.Ok? && c.action.MountBpffs? ==>
            Stack(after.mounts, l) == Stack(s.mounts, l) + [Bpffs(t.user, ToMountData(c.action.opts))])
      && (r.Ok? && c.action.UnmountBpffs? ==>
            && |Stack(s.mounts, l)| > 0
            && Stack(after.mounts, l) + [Stack(s.mounts, l)[|Stack(s.mounts, l)| - 1]] == Stack(s.mounts, l))
      && (r.Err? || other != l ==> Stack(after.mounts, other) == Stack(s.mounts, other))
      && after.attempts == s.attempts + (if o.opens && o.enterUser && o.enterMnt then [Attempt(t, c.path)] else [])
      && after.ctx.user == (if o.opens && o.enterUser && (!o.enterMnt || !o.restoreUser) then t.user else s.ctx.user)
      && after.ctx.mnt == (if o.opens && o.enterUser && o.enterMnt && !o.restoreMnt then t.mnt else s.ctx.mnt)
  {
  }

  // ---- Does the thread come back?

  /** No entry is left half done and every restore that was attempted worked. */
  predicate Clean(o: Outcomes) {
    InUser(o) ==> o.enterMnt && o.restoreUser && o.restoreMnt
  }

  predicate Foreign(home: Context, target: Context) {
    target.user != home.user && target.mnt != home.mnt
  }

  /** Each namespace that the call leaves the thread in, for want of an entry or a restore, is
      the one it came from. */
  predicate LeavesAt(home: Context, c: Call) {
    var o := c.outcomes;
    && (InUser(o) && !(o.enterMnt && o.restoreUser) ==> c.target.user == home.user)
    && (InBoth(o) && !o.restoreMnt ==> c.target.mnt == home.mnt)
  }

  /** When the thread is back where it started, for every target; for a target in other
      namespaces this is exactly after a clean call. In particular a failed mount-namespace
      entry strands it, although an error is meant to restore the original context too, and so
      does a failed restore, although the call may report success. */
  lemma {:induction false} BackIff(s: Machine, c: Call)
    ensures Perform(s, c).ctx == s.ctx <==> LeavesAt(s.ctx, c)
    ensures Foreign(s.ctx, c.target) ==> (Perform(s, c).ctx == s.ctx <==> Clean(c.outcomes))
    ensures Foreign(s.ctx, c.target) && Outcome(s, c).Ok? ==>
              (Perform(s, c).ctx == s.ctx <==> c.outcomes.restoreUser && c.outcomes.restoreMnt)
  {
  }

  lemma {:induction false} StrandedByFailedEntry(s: Machine, c: Call)
    requires InUser(c.outcomes) && !c.outcomes.enterMnt
    ensures Outcome(s, c) == Err(EnterMntFailed)
    ensures Perform(s, c).ctx == Context(c.target.user, s.ctx.mnt)
  {
  }

  // ---- Runs of calls

  function Run(s: Machine, calls: seq<Call>): Machine
    decreases calls
  {
    if calls == [] then s else Run(Perform(s, calls[0]), calls[1..])
  }

  lemma {:induction false} RunSnoc(s: Machine, calls: seq<Call>, c: Call)
    ensures Run(s, calls + [c]) == Perform(Run(s, calls), c)
    decreases calls
  {
    if calls == [] {
      assert (calls + [c])[1..] == [];
    } else {
      assert (calls + [c])[1..] == calls[1..] + [c];
      RunSnoc(Perform(s, calls[0]), calls[1..], c);
    }
  }

  lemma {:induction false} RunNext(s: Machine, calls: seq<Call>, k: nat)
    requires k < |calls|
    ensures Run(s, calls[..k + 1]) == Perform(Run(s, calls[..k]), calls[k])
  {
    assert calls[..k] + [calls[k]] == calls[..k + 1];
    RunSnoc(s, calls[..k], calls[k]);
  }

  ghost predicate AlwaysAt(s: Machine, calls: seq<Call>, home: Context)
    decreases calls
  {
    s.ctx == home && (calls != [] ==> AlwaysAt(Perform(s, calls[0]), calls[1..], home))
  }

  /** A thread is at home between all calls of a run exactly when each of them leaves it there;
      for foreign targets, exactly when every one of them was clean. */
  lemma {:induction false} HomeIff(s: Machine, calls: seq<Call>)
    ensures AlwaysAt(s, calls, s.ctx) <==> forall i :: 0 <= i < |calls| ==> LeavesAt(s.ctx, calls[i])
    ensures (forall i :: 0 <= i < |calls| ==> Foreign(s.ctx, calls[i].target)) ==>
              (AlwaysAt(s, calls, s.ctx) <==> forall i :: 0 <= i < |calls| ==> Clean(calls[i].outcomes))
    decreases calls
  {
    forall i | 0 <= i < |calls| && Foreign(s.ctx, calls[i].target)
      ensures LeavesAt(s.ctx, calls[i]) <==> Clean(calls[i].outcomes)
    {
      BackIff(s, calls[i]);
    }
    if calls != [] {
      var next := Perform(s, calls[0]);
      BackIff(s, calls[0]);
      if next.ctx == s.ctx {
        HomeIff(next, calls[1..]);
        assert forall i :: 0 < i < |calls| ==> calls[i] == calls[1..][i - 1];
      }
    }
  }

  /** The attempts that a run of calls must make: one for each call that got into both
      namespaces, from exactly its target. */
  function Targets(calls: seq<Call>): seq<Attempt> {
    if calls == [] then []
    else if InBoth(calls[0].outcomes) then [Attempt(calls[0].target, calls[0].path)] + Targets(calls[1..])
    else Targets(calls[1..])
  }

  /** Whatever failed before, a mount or unmount is made from both target namespaces. */
  lemma {:induction false} ActsOnlyInTarget(s: Machine, calls: seq<Call>)
    ensures Run(s, calls).attempts == s.attempts + Targets(calls)
    decreases calls
  {
    if calls != [] {
      var a, rest := [Attempt(calls[0].target, calls[0].path)], Targets(calls[1..]);
      ActsOnlyInTarget(Perform(s, calls[0]), calls[1..]);
      assert s.attempts + (a + rest) == s.attempts + a + rest;
    }
  }

  // ---- The mount tables over a run

  /** One stack replayed from the calls aimed at it, with no context and no other stack. */
  function Replay(s: seq<Bpffs>, calls: seq<Call>, l: Loc): seq<Bpffs>
    decreases calls
  {
    if calls == [] then s
    else
      var c := calls[0];
      if Loc(c.target.mnt, c.path) == l && InBoth(c.outcomes) && c.outcomes.act && (c.action.UnmountBpffs? ==> s != [])
      then Replay(Acted(s, c), calls[1..], l)
      else Replay(s, calls[1..], l)
  }

  /** The stack at a location after any run is the replay of the calls aimed there: other
      targets, and contexts left behind by failures, make no difference. */
  lemma {:induction false} StackIsReplay(s: Machine, calls: seq<Call>, l: Loc)
    ensures Stack(Run(s, calls).mounts, l) == Replay(Stack(s.mounts, l), calls, l)
    decreases calls
  {
    if calls != [] { StackIsReplay(Perform(s, calls[0]), calls[1..], l); }
  }

  /** Calls of one kind aimed at `l` that returned `Ok` in the run. */
  function OkCount(s: Machine, calls: seq<Call>, l: Loc, unmounts: bool): nat
    decreases calls
  {
    if calls == [] then 0
    else
      var c := calls[0];
      (if Outcome(s, c).Ok? && Loc(c.target.mnt, c.path) == l && c.action.UnmountBpffs? == unmounts then 1 else 0)
      + OkCount(Perform(s, c), calls[1..], l, unmounts)
  }

  /** Conservation: depth is initial depth, plus delegations, minus revocations. */
  lemma {:induction false} MountLedger(s: Machine, calls: seq<Call>, l: Loc)
    ensures |Stack(Run(s, calls).mounts, l)|
         == |Stack(s.mounts, l)| + OkCount(s, calls, l, false) - OkCount(s, calls, l, true)
    decreases calls
  {
    if calls != [] { MountLedger(Perform(s, calls[0]), calls[1..], l); }
  }

  /** Calls aimed elsewhere, in particular at other mount namespaces, leave a stack alone. */
  lemma {:induction false} OthersUntouched(s: Machine, calls: seq<Call>, l: Loc)
    requires forall i :: 0 <= i < |calls| ==> Loc(calls[i].target.mnt, calls[i].path) != l
    ensures Stack(Run(s, calls).mounts, l) == Stack(s.mounts, l)
    decreases calls
  {
    if calls != [] {
      assert forall i :: 0 <= i < |calls[1..]| ==> calls[1..][i] == calls[i + 1];
      OthersUntouched(Perform(s, calls[0]), calls[1..], l);
    }
  }

  /** A revocation undoes a delegation to the same place: whatever calls to other places came
      in between, and wherever failures left the thread, the tables are as if neither had
      happened. */
  lemma {:induction false} RevokeUndoesDelegate(s: Machine, delegate: Call, between: seq<Call>, revoke: Call)
    requires delegate.action.MountBpffs? && revoke.action.UnmountBpffs?
    requires revoke.target.mnt == delegate.target.mnt && revoke.path == delegate.path
    requires forall i :: 0 <= i < |between| ==>
               Loc(between[i].target.mnt, between[i].path) != Loc(delegate.target.mnt, delegate.path)
    requires Outcome(s, delegate).Ok?
    requires Outcome(Run(Perform(s, delegate), between), revoke).Ok?
    ensures Perform(Run(Perform(s, delegate), between), revoke).mounts == Run(s, between).mounts
  {
    var s1 := Perform(s, delegate);
    var l := Loc(delegate.target.mnt, delegate.path);
    var a, b := Perform(Run(s1, between), revoke).mounts, Run(s, between).mounts;
    forall k ensures Stack(a, k) == Stack(b, k) {
      StackIsReplay(s1, between, k);
      StackIsReplay(s, between, k);
      if k == l {
        OthersUntouched(s1, between, l);
        OthersUntouched(s, between, l);
      }
    }
    StacksDetermine(a, b);
  }

  // ---- Stamps

  ghost predicate StampedBy(m: MountTable, owner: NsId -> NsId) {
    forall l, i :: 0 <= i < |Stack(m, l)| ==> Stack(m, l)[i].sUserNs == owner(l.mnt)
  }

  /** If every mount namespace has one owning user namespace and all targets respect that,
      every bpffs stays stamped with the namespace from which tokens will be asked for. */
  lemma {:induction false} StampsStayRight(s: Machine, calls: seq<Call>, owner: NsId -> NsId)
    requires StampedBy(s.mounts, owner)
    requires forall i :: 0 <= i < |calls| ==> calls[i].target.user == owner(calls[i].target.mnt)
    ensures StampedBy(Run(s, calls).mounts, owner)
    decreases calls
  {
    if calls != [] {
      assert forall i :: 0 <= i < |calls[1..]| ==> calls[1..][i] == calls[i + 1];
      StampsStayRight(Perform(s, calls[0]), calls[1..], owner);
    }
  }

  /** `from_bitmaps` of a role's compiled words. */
  ghost function CompiledOpts(config: PolicyConfig, role: Role): DelegationOpts {
    DelegationOpts(CommandsMask(config, role), ProgTypesMask(config, role), MapTypesMask(config, role), 0)
  }

  /** A successful delegation leaves, on top of the target's stack, a bpffs stamped for the
      target whose options read back as all four words that were delegated. */
  lemma {:induction false} DelegationCarriesOptions(s: Machine, c: Call, opts: DelegationOpts)
    requires c.action == MountBpffs(opts)
    requires Outcome(s, c).Ok?
    ensures var stack := Stack(Perform(s, c).mounts, Loc(c.target.mnt, c.path));
            && stack != []
            && stack[|stack| - 1].sUserNs == c.target.user
            && ParseMountData(stack[|stack| - 1].data) == Some(opts)
  {
    MountDataRoundTrip(opts);
  }

  /** In particular the words compiled for a role. */
  lemma {:induction false} DelegationCarriesPolicy(s: Machine, c: Call, config: PolicyConfig, role: Role)
    requires c.action == MountBpffs(CompiledOpts(config, role))
    requires Outcome(s, c).Ok?
    ensures var stack := Stack(Perform(s, c).mounts, Loc(c.target.mnt, c.path));
            && stack != []
            && stack[|stack| - 1].sUserNs == c.target.user
            && ParseMountData(stack[|stack| - 1].data) == Some(CompiledOpts(config, role))
  {
    DelegationCarriesOptions(s, c, CompiledOpts(config, role));
  }
}
