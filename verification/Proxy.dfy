/** The proxy daemon: one connection as a step machine, and any number of them interleaved
    against one immutable policy. */
module Proxy {
  import opened Wrappers
  import opened Bits
  import opened BitTables
  import opened Protocol
  import opened Policy
  import opened Bitmaps
  import opened Lsm
  import opened Agreement
  import opened Ceiling
  import opened Roles

  // ---- Executing a request

  datatype MapAttr = MapAttr(mapType: u32, keySize: u32, valueSize: u32, maxEntries: u32, mapName: seq<Byte>)

  /** The five map types the daemon can create. */
  function MapTypeNumber(mapType: string): Option<u32> {
    match mapType
    case "hash" => Some(1)
    case "array" => Some(2)
    case "perf_event_array" => Some(4)
    case "lru_hash" => Some(9)
    case "ringbuf" => Some(27)
    case _ => None
  }

  /** Its own numbering is the policy table's. */
  lemma NumbersAreBits(mapType: string)
    requires MapTypeNumber(mapType).Some?
    ensures MapTypeToBit(mapType) == MapTypeNumber(mapType)
  {
  }

  /** Exactly these five. */
  lemma SupportedTypes(mapType: string)
    ensures MapTypeNumber(mapType).Some?
       <==> mapType in ["hash", "array", "perf_event_array", "lru_hash", "ringbuf"]
  {
  }

  /** At most 15 bytes of the name, zero-padded to 16. */
  function NameBuffer(name: seq<Byte>): (buf: seq<Byte>)
    ensures |buf| == 16 && buf[15] == 0
    ensures forall i :: 0 <= i < 15 ==> buf[i] == if i < |name| then name[i] else 0
  {
    var len := if |name| < 15 then |name| else 15;
    name[..len] + seq(16 - len, i => 0)
  }

  method FillNameBuffer(name: seq<Byte>) returns (buf: seq<Byte>)
    ensures buf == NameBuffer(name)
  {
    var nameBytes := new Byte[16](i => 0);
    var len := if |name| < 15 then |name| else 15;
    for i := 0 to len
      invariant nameBytes[..i] == name[..i]
      invariant forall j :: i <= j < 16 ==> nameBytes[j] == 0
    {
      nameBytes[i] := name[i];
    }
    buf := nameBytes[..];
  }

  datatype Event = BpfCall(attr: MapAttr, ret: int) | Sent(response: Response)

  predicate Supported(request: Request) {
    request.CreateMap? && MapTypeNumber(request.mapType).Some?
  }

  function AttrOf(request: Request): MapAttr
    requires Supported(request)
  {
    MapAttr(MapTypeNumber(request.mapType).value, request.keySize, request.valueSize, request.maxEntries,
            NameBuffer(request.name))
  }

  /** The calls made for an allowed request and the answer they lead to; `ret` is what
      `bpf()` returns if it is called. */
  function Executed(request: Request, ret: int): (seq<Event>, Response) {
    if Supported(request) then
      ([BpfCall(AttrOf(request), ret)], if ret < 0 then Error(BpfFailed(ret)) else Success(Some(ret)))
    else if request.CreateMap? then ([], Error(UnsupportedMapType(request.mapType)))
    else ([], Error(NotImplemented))
  }

  method ExecuteBpf(request: Request, ret: int) returns (calls: seq<Event>, response: Response)
    ensures (calls, response) == Executed(request, ret)
  {
    match request {
      case CreateMap(mapType, name, keySize, valueSize, maxEntries) =>
        var number := MapTypeNumber(mapType);
        if number.None? {
          return [], Error(UnsupportedMapType(mapType));
        }
        var nameBytes := FillNameBuffer(name);
        calls := [BpfCall(MapAttr(number.value, keySize, valueSize, maxEntries, nameBytes), ret)];
        response := if ret < 0 then Error(BpfFailed(ret)) else Success(Some(ret));
      case LoadProgram(_, _, _) =>
        return [], Error(NotImplemented);
      case Attach(_, _, _) =>
        return [], Error(NotImplemented);
    }
  }

  // ---- One connection

  datatype Phase = Unaccepted | Connecting | Reading | Deciding | Executing | Responding | Closed

  datatype Conn = Conn(
    phase: Phase, db: Option<UserDb>, role: Option<string>, request: Option<Request>, response: Option<Response>)

  const FRESH := Conn(Unaccepted, None, None, None, None)

  /** What the outside gives a connection; an input its phase does not wait for is ignored. */
  datatype Input =
    | Accept
    | Groups(db: UserDb)
    | Message(request: Request)
    | Eof
    | Decide
    | Execute(ret: int)
    | Send
    | Fail

  /** The policy the daemon was started with, and the order its role map is walked in. */
  datatype Env = Env(config: PolicyConfig, order: seq<string>)

  ghost function Decision(e: Env, role: Option<string>, request: Request): Option<Response> {
    if role.None? then Some(Denied(NoRole))
    else if IsAllowed(e.config, role.value, request) then None
    else Some(Denied(RoleForbids(role.value, request)))
  }

  ghost function Step(e: Env, c: Conn, i: Input): (Conn, seq<Event>) {
    match (c.phase, i)
    case (Unaccepted, Accept) => (c.(phase := Connecting), [])
    case (Connecting, Groups(db)) =>
      (c.(phase := Reading, db := Some(db), role := RoleFor(e.config, e.order, GroupsOf(db))), [])
    case (Connecting, Fail) => (c.(phase := Closed), [])
    case (Reading, Message(request)) => (c.(phase := Deciding, request := Some(request)), [])
    case (Reading, Eof) => (c.(phase := Closed), [])
    case (Reading, Fail) => (c.(phase := Closed), [])
    case (Deciding, Decide) =>
      if c.request.None? then (c, [])
      else
        var d := Decision(e, c.role, c.request.value);
        if d.None? then (c.(phase := Executing), []) else (c.(phase := Responding, response := d), [])
    case (Executing, Execute(ret)) =>
      if c.request.None? then (c, [])
      else
        var (calls, response) := Executed(c.request.value, ret);
        (c.(phase := Responding, response := Some(response)), calls)
    case (Responding, Send) =>
      if c.response.None? then (c, []) else (c.(phase := Closed), [Sent(c.response.value)])
    case (Responding, Fail) => (c.(phase := Closed), [])
    case _ => (c, [])
  }

  ghost function Solo(e: Env, c: Conn, inputs: seq<Input>): (Conn, seq<Event>)
    decreases inputs
  {
    if inputs == [] then (c, [])
    else
      var (next, events) := Step(e, c, inputs[0]);
      var (last, rest) := Solo(e, next, inputs[1..]);
      (last, events + rest)
  }

  // ---- What a connection can have done

  ghost predicate Resolved(e: Env, c: Conn) {
    c.db.Some? && c.role == RoleFor(e.config, e.order, GroupsOf(c.db.value))
  }

  /** `response` is the right answer given the calls made, and they were authorized. */
  ghost predicate Justified(e: Env, c: Conn, calls: seq<Event>) {
    && Resolved(e, c) && c.request.Some? && c.response.Some?
    && var request := c.request.value;
       match c.response.value
       case Denied(reason) =>
         && calls == []
         && (match reason
             case NoRole => c.role.None?
             case RoleForbids(role, about) =>
               c.role == Some(role) && about == request && !IsAllowed(e.config, role, request))
       case Error(message) =>
         && c.role.Some? && IsAllowed(e.config, c.role.value, request)
         && (if Supported(request) then
               message.BpfFailed? && message.ret < 0 && calls == [BpfCall(AttrOf(request), message.ret)]
             else
               && calls == []
               && message == if request.CreateMap? then UnsupportedMapType(request.mapType) else NotImplemented)
       case Success(fd) =>
         && c.role.Some? && IsAllowed(e.config, c.role.value, request)
         && Supported(request)
         && fd.Some? && fd.value >= 0 && calls == [BpfCall(AttrOf(request), fd.value)]
  }

  ghost predicate History(e: Env, c: Conn, events: seq<Event>) {
    match c.phase
    case Unaccepted => c == FRESH && events == []
    case Connecting => c == FRESH.(phase := Connecting) && events == []
    case Reading => Resolved(e, c) && c.request.None? && c.response.None? && events == []
    case Deciding => Resolved(e, c) && c.request.Some? && c.response.None? && events == []
    case Executing =>
      && Resolved(e, c) && c.request.Some? && c.response.None? && events == []
      && c.role.Some? && IsAllowed(e.config, c.role.value, c.request.value)
    case Responding => Justified(e, c, events)
    case Closed =>
      || (c.response.None? && events == [])
      || Justified(e, c, events)
      || (&& events != [] && c.response.Some? && events[|events| - 1] == Sent(c.response.value)
          && Justified(e, c, events[..|events| - 1]))
  }

  lemma {:induction false} DecideKeepsHistory(e: Env, c: Conn)
    requires c.phase.Deciding? && History(e, c, [])
    ensures History(e, Step(e, c, Decide).0, []) && Step(e, c, Decide).1 == []
  {
  }

  lemma {:induction false} ExecuteKeepsHistory(e: Env, c: Conn, ret: int)
    requires c.phase.Executing? && History(e, c, [])
    ensures Justified(e, Step(e, c, Execute(ret)).0, Step(e, c, Execute(ret)).1)
  {
  }

  lemma {:induction false} ClosingKeepsJustified(e: Env, c: Conn, events: seq<Event>)
    requires Justified(e, c, events)
    ensures Justified(e, c.(phase := Closed), events)
  {
    var closed := c.(phase := Closed);
    assert closed.request == c.request && closed.response == c.response && closed.role == c.role;
  }

  lemma {:induction false} SentIsHistory(e: Env, c: Conn, events: seq<Event>)
    requires c.phase.Closed? && c.response.Some? && Justified(e, c, events)
    ensures History(e, c, events + [Sent(c.response.value)])
  {
    var sent := events + [Sent(c.response.value)];
    assert sent[..|sent| - 1] == events;
  }

  lemma {:induction false} SendKeepsHistory(e: Env, c: Conn, events: seq<Event>)
    requires c.phase.Responding? && c.response.Some? && Justified(e, c, events)
    ensures History(e, Step(e, c, Send).0, events + Step(e, c, Send).1)
    ensures Justified(e, c.(phase := Closed), events)
  {
    ClosingKeepsJustified(e, c, events);
    SentIsHistory(e, c.(phase := Closed), events);
    assert Step(e, c, Send) == (c.(phase := Closed), [Sent(c.response.value)]);
  }

  lemma {:induction false} StepKeepsHistory(e: Env, c: Conn, events: seq<Event>, i: Input)
    requires History(e, c, events)
    ensures History(e, Step(e, c, i).0, events + Step(e, c, i).1)
  {
    var next := Step(e, c, i);
    if next.1 == [] { assert events + next.1 == events; }
    if events == [] { assert events + next.1 == next.1; }
    match c.phase
    case Deciding => if i.Decide? { DecideKeepsHistory(e, c); }
    case Executing => if i.Execute? { ExecuteKeepsHistory(e, c, i.ret); }
    case Responding => SendKeepsHistory(e, c, events);
    case _ =>
  }

  /** What every step of a connection keeps holds after all of them. */
  lemma {:induction false} SoloInvariant(e: Env, inv: (Conn, seq<Event>) -> bool, c: Conn, events: seq<Event>,
                                         inputs: seq<Input>)
    requires inv(c, events)
    requires forall c, events, i :: inv(c, events) ==> inv(Step(e, c, i).0, events + Step(e, c, i).1)
    ensures inv(Solo(e, c, inputs).0, events + Solo(e, c, inputs).1)
    decreases inputs
  {
    if inputs == [] {
      assert events + Solo(e, c, inputs).1 == events;
    } else {
      var (next, made) := Step(e, c, inputs[0]);
      var rest := Solo(e, next, inputs[1..]).1;
      SoloInvariant(e, inv, next, events + made, inputs[1..]);
      assert events + (made + rest) == events + made + rest;
    }
  }

  lemma {:induction false} SoloHistory(e: Env, inputs: seq<Input>)
    ensures History(e, Solo(e, FRESH, inputs).0, Solo(e, FRESH, inputs).1)
  {
    forall c, events, i | History(e, c, events) ensures History(e, Step(e, c, i).0, events + Step(e, c, i).1) {
      StepKeepsHistory(e, c, events, i);
    }
    SoloInvariant(e, (c, events) => History(e, c, events), FRESH, [], inputs);
    assert [] + Solo(e, FRESH, inputs).1 == Solo(e, FRESH, inputs).1;
  }

  // ---- All connections

  datatype Server = Server(conns: map<nat, Conn>, trace: seq<(nat, Event)>)

  const START := Server(map[], [])

  function Local(s: Server, id: nat): Conn {
    if id in s.conns then s.conns[id] else FRESH
  }

  function Tagged(id: nat, events: seq<Event>): (r: seq<(nat, Event)>)
    ensures |r| == |events|
  {
    if events == [] then [] else [(id, events[0])] + Tagged(id, events[1..])
  }

  ghost function ServerStep(e: Env, s: Server, id: nat, i: Input): Server {
    var (c, events) := Step(e, Local(s, id), i);
    Server(s.conns[id := c], s.trace + Tagged(id, events))
  }

  /** A schedule says which connection moves next and on what input. */
  ghost function Run(e: Env, s: Server, schedule: seq<(nat, Input)>): Server
    decreases schedule
  {
    if schedule == [] then s else Run(e, ServerStep(e, s, schedule[0].0, schedule[0].1), schedule[1..])
  }

  function InputsOf(schedule: seq<(nat, Input)>, id: nat): seq<Input> {
    if schedule == [] then []
    else if schedule[0].0 == id then [schedule[0].1] + InputsOf(schedule[1..], id)
    else InputsOf(schedule[1..], id)
  }

  function EventsOf(trace: seq<(nat, Event)>, id: nat): seq<Event> {
    if trace == [] then []
    else if trace[0].0 == id then [trace[0].1] + EventsOf(trace[1..], id)
    else EventsOf(trace[1..], id)
  }

  lemma {:induction false} EventsOfConcat(a: seq<(nat, Event)>, b: seq<(nat, Event)>, id: nat)
    ensures EventsOf(a + b, id) == EventsOf(a, id) + EventsOf(b, id)
  {
    if a == [] {
      assert a + b == b;
    } else {
      assert (a + b)[1..] == a[1..] + b;
      EventsOfConcat(a[1..], b, id);
    }
  }

  lemma {:induction false} EventsOfTagged(owner: nat, events: seq<Event>, id: nat)
    ensures EventsOf(Tagged(owner, events), id) == if owner == id then events else []
  {
    if events != [] {
      assert Tagged(owner, events)[1..] == Tagged(owner, events[1..]);
      EventsOfTagged(owner, events[1..], id);
    }
  }

  /** A step moves its own connection as a step alone would, and no other. */
  lemma {:induction false} StepIsLocal(e: Env, s: Server, owner: nat, i: Input, id: nat)
    ensures var s' := ServerStep(e, s, owner, i); var (c, events) := Step(e, Local(s, owner), i);
            && Local(s', id) == (if owner == id then c else Local(s, id))
            && EventsOf(s'.trace, id) == EventsOf(s.trace, id) + (if owner == id then events else [])
  {
    var events := Step(e, Local(s, owner), i).1;
    EventsOfConcat(s.trace, Tagged(owner, events), id);
    EventsOfTagged(owner, events, id);
  }

  lemma {:induction false} SoloCons(e: Env, c: Conn, i: Input, inputs: seq<Input>)
    ensures var (next, events) := Step(e, c, i); var (last, rest) := Solo(e, next, inputs);
            Solo(e, c, [i] + inputs) == (last, events + rest)
  {
  }

  /** Non-interference: under every interleaving, each connection ends in the state, and has
      caused the events, that its own inputs alone would lead to. */
  lemma {:induction false} NonInterference(e: Env, s: Server, schedule: seq<(nat, Input)>, id: nat)
    ensures var (c, events) := Solo(e, Local(s, id), InputsOf(schedule, id)); var t := Run(e, s, schedule);
            Local(t, id) == c && EventsOf(t.trace, id) == EventsOf(s.trace, id) + events
    decreases schedule
  {
    if schedule == [] {
      assert EventsOf(s.trace, id) + [] == EventsOf(s.trace, id);
    } else {
      var (owner, i) := schedule[0];
      NonInterference(e, ServerStep(e, s, owner, i), schedule[1..], id);
      StepIsLocal(e, s, owner, i, id);
      if owner == id {
        var (next, events) := Step(e, Local(s, id), i);
        var rest := Solo(e, next, InputsOf(schedule[1..], id)).1;
        SoloCons(e, Local(s, id), i, InputsOf(schedule[1..], id));
        assert EventsOf(s.trace, id) + (events + rest) == EventsOf(s.trace, id) + events + rest;
      } else {
        assert EventsOf(s.trace, id) + [] == EventsOf(s.trace, id);
      }
    }
  }

  /** Every connection of every reachable server state has a proper history. */
  lemma {:induction false} ReachableHistory(e: Env, schedule: seq<(nat, Input)>, id: nat)
    ensures var t := Run(e, START, schedule); History(e, Local(t, id), EventsOf(t.trace, id))
  {
    NonInterference(e, START, schedule, id);
    SoloHistory(e, InputsOf(schedule, id));
    assert EventsOf(START.trace, id) == [];
  }

  lemma {:induction false} TraceEntryIsEvent(trace: seq<(nat, Event)>, k: nat)
    requires k < |trace|
    ensures trace[k].1 in EventsOf(trace, trace[k].0)
  {
    if k > 0 { TraceEntryIsEvent(trace[1..], k - 1); }
  }

  /** A proper history is at most one call followed by at most one response. */
  lemma {:induction false} HistoryShape(e: Env, c: Conn, events: seq<Event>)
    requires History(e, c, events)
    ensures forall j, k :: 0 <= j < k < |events| ==> events[j].BpfCall? && events[k].Sent?
    ensures forall k :: 0 <= k < |events| && events[k].Sent? ==>
              k == |events| - 1 && c.response == Some(events[k].response) && Justified(e, c, events[..k])
  {
  }

  /** Safety over all interleavings of any number of connections. For every `bpf()` call in
      the trace: the caller's role is the one its groups select, the policy allows that role
      that request, the attributes are the request's field by field, with the name cut to 15
      bytes and zero-padded, the data are inputs of that very connection, and the kernel hooks
      compiled from the same policy would let it through. */
  lemma {:induction false} CallsAreAuthorized(e: Env, schedule: seq<(nat, Input)>, k: nat,
                                              policies: PolicyMap, ns: UsernsId)
    requires k < |Run(e, START, schedule).trace| && Run(e, START, schedule).trace[k].1.BpfCall?
    ensures var t := Run(e, START, schedule); var (id, event) := t.trace[k]; var c := Local(t, id);
            && c.db.Some? && c.role == RoleFor(e.config, e.order, GroupsOf(c.db.value))
            && c.role.Some? && c.role.value in e.config.roles
            && c.request.Some? && IsAllowed(e.config, c.role.value, c.request.value)
            && c.request.value.CreateMap?
            && event.attr.keySize == c.request.value.keySize
            && event.attr.valueSize == c.request.value.valueSize
            && event.attr.maxEntries == c.request.value.maxEntries
            && |event.attr.mapName| == 16
            && (var name := c.request.value.name;
                forall i :: 0 <= i < 16 ==> event.attr.mapName[i] == if i < 15 && i < |name| then name[i] else 0)
            && MapTypeToBit(c.request.value.mapType) == Some(event.attr.mapType)
            && HasBit(MapTypesMask(e.config, e.config.roles[c.role.value]), event.attr.mapType)
            && Groups(c.db.value) in InputsOf(schedule, id)
            && Message(c.request.value) in InputsOf(schedule, id)
            && Execute(event.ret) in InputsOf(schedule, id)
            && (ns in policies && policies[ns] == CompiledPolicy(e.config, e.config.roles[c.role.value]) ==>
                  LsmAllows(policies, ns, c.request.value))
  {
    var t := Run(e, START, schedule);
    var (id, event) := t.trace[k];
    var c := Local(t, id);
    ReachableHistory(e, schedule, id);
    TraceEntryIsEvent(t.trace, k);
    CallInHistory(e, c, EventsOf(t.trace, id), event);
    ReachableProvenance(e, schedule, id);
    AllowedMapIsCompiled(e.config, c.role.value, c.request.value);
    if ns in policies && policies[ns] == CompiledPolicy(e.config, e.config.roles[c.role.value]) {
      EnforcementAgrees(e.config, c.role.value, policies, ns, c.request.value);
    }
  }

  lemma {:induction false} CallInHistory(e: Env, c: Conn, events: seq<Event>, event: Event)
    requires History(e, c, events) && event in events && event.BpfCall?
    ensures c.db.Some? && c.role == RoleFor(e.config, e.order, GroupsOf(c.db.value))
    ensures c.role.Some? && c.request.Some? && IsAllowed(e.config, c.role.value, c.request.value)
    ensures Supported(c.request.value) && event.attr == AttrOf(c.request.value)
  {
  }

  // ---- Where a connection's data come from

  /** The user, the request and the return values of a connection are inputs it was given. */
  lemma {:induction false} Provenance(e: Env, c: Conn, inputs: seq<Input>)
    ensures var (last, events) := Solo(e, c, inputs);
            && (last.db == c.db || (last.db.Some? && Groups(last.db.value) in inputs))
            && (last.request == c.request || (last.request.Some? && Message(last.request.value) in inputs))
            && (forall v :: v in events && v.BpfCall? ==> Execute(v.ret) in inputs)
    decreases inputs
  {
    if inputs != [] {
      var next := Step(e, c, inputs[0]).0;
      Provenance(e, next, inputs[1..]);
      StepProvenance(e, c, inputs[0]);
      assert forall i :: i in inputs[1..] ==> i in inputs;
    }
  }

  lemma {:induction false} StepProvenance(e: Env, c: Conn, i: Input)
    ensures var (next, events) := Step(e, c, i);
            && (next.db == c.db || (next.db.Some? && Groups(next.db.value) == i))
            && (next.request == c.request || (next.request.Some? && Message(next.request.value) == i))
            && (forall v :: v in events && v.BpfCall? ==> Execute(v.ret) == i)
  {
  }

  lemma {:induction false} ReachableProvenance(e: Env, schedule: seq<(nat, Input)>, id: nat)
    ensures var t := Run(e, START, schedule); var inputs := InputsOf(schedule, id); var c := Local(t, id);
            && (c.db.Some? ==> Groups(c.db.value) in inputs)
            && (c.request.Some? ==> Message(c.request.value) in inputs)
            && (forall v :: v in EventsOf(t.trace, id) && v.BpfCall? ==> Execute(v.ret) in inputs)
  {
    NonInterference(e, START, schedule, id);
    Provenance(e, FRESH, InputsOf(schedule, id));
    assert EventsOf(START.trace, id) == [];
  }

  lemma AllowedMapIsCompiled(config: PolicyConfig, roleName: string, request: Request)
    requires IsAllowed(config, roleName, request) && Supported(request)
    ensures MapTypeToBit(request.mapType) == MapTypeNumber(request.mapType)
    ensures HasBit(MapTypesMask(config, config.roles[roleName]), MapTypeNumber(request.mapType).value)
  {
    NumbersAreBits(request.mapType);
    var role := config.roles[roleName];
    TypeBitExact(MapTypeToBit, role.mapTypes, MapCeiling(config), request.mapType, "create");
  }

  /** At most one call and one response per connection, and the response tells what happened:
      a denial that no call was made, for want of a role or of permission; a success or failure
      of `bpf()` what the connection's own call returned; any other error that no call was made
      for an allowed request the daemon cannot execute. */
  lemma {:induction false} ResponsesAreTruthful(e: Env, schedule: seq<(nat, Input)>, id: nat)
    ensures var t := Run(e, START, schedule); var events := EventsOf(t.trace, id); var c := Local(t, id);
            && (forall j, k :: 0 <= j < k < |events| ==> events[j].BpfCall? && events[k].Sent?)
            && (forall k :: 0 <= k < |events| && events[k].Sent? ==>
                  && c.db.Some? && c.role == RoleFor(e.config, e.order, GroupsOf(c.db.value)) && c.request.Some?
                  && var request := c.request.value;
                     var allowed := c.role.Some? && IsAllowed(e.config, c.role.value, request);
                     match events[k].response
                     case Denied(NoRole) => k == 0 && c.role.None?
                     case Denied(RoleForbids(role, about)) =>
                       k == 0 && c.role == Some(role) && about == request && !IsAllowed(e.config, role, request)
                     case Error(NotImplemented) => k == 0 && allowed && !request.CreateMap?
                     case Error(UnsupportedMapType(mapType)) =>
                       && k == 0 && allowed && request.CreateMap? && mapType == request.mapType
                       && mapType !in ["hash", "array", "perf_event_array", "lru_hash", "ringbuf"]
                     case Error(BpfFailed(ret)) =>
                       k == 1 && allowed && ret < 0 && events[0].BpfCall? && events[0].ret == ret
                     case Success(fd) =>
                       && k == 1 && allowed && fd.Some? && fd.value >= 0
                       && events[0].BpfCall? && events[0].ret == fd.value)
  {
    var t := Run(e, START, schedule);
    var events, c := EventsOf(t.trace, id), Local(t, id);
    ReachableHistory(e, schedule, id);
    HistoryShape(e, c, events);
    forall k | 0 <= k < |events| && events[k].Sent? ensures Justified(e, c, events[..k]) && |events[..k]| == k {
    }
    if c.request.Some? && c.request.value.CreateMap? { SupportedTypes(c.request.value.mapType); }
  }

  // ---- Folding the ceiling is invisible

  lemma {:induction false} FoldKeepsRole(config: PolicyConfig, names: seq<string>, groups: set<string>)
    ensures FirstMatch(FoldConfig(config), names, groups) == FirstMatch(config, names, groups)
  {
    if names != [] { FoldKeepsRole(config, names[1..], groups); }
  }

  lemma {:induction false} FoldKeepsStep(e: Env, c: Conn, i: Input)
    ensures Step(Env(FoldConfig(e.config), e.order), c, i) == Step(e, c, i)
  {
    if i.Groups? { FoldKeepsRole(e.config, PRIORITY + e.order, GroupsOf(i.db)); }
    if c.role.Some? && c.request.Some? { FoldPreservesDecisions(e.config, c.role.value, c.request.value); }
  }

  /** A daemon started on the folded policy goes through the same states and the same trace
      under every schedule. */
  lemma {:induction false} FoldIsUnobservable(e: Env, s: Server, schedule: seq<(nat, Input)>)
    ensures Run(Env(FoldConfig(e.config), e.order), s, schedule) == Run(e, s, schedule)
    decreases schedule
  {
    if schedule != [] {
      FoldKeepsStep(e, Local(s, schedule[0].0), schedule[0].1);
      FoldIsUnobservable(e, ServerStep(e, s, schedule[0].0, schedule[0].1), schedule[1..]);
    }
  }

  // ---- The sequential code

  /** Everything the outside can do to one run of `handle_client`. */
  datatype Incoming = ReadFailed | Hangup | Received(request: Request)

  datatype Client = Client(db: Option<UserDb>, incoming: Incoming, ret: int, sendOk: bool)

  function Script(client: Client): seq<Input> {
    [Accept,
     if client.db.Some? then Groups(client.db.value) else Fail,
     match client.incoming case ReadFailed => Fail case Hangup => Eof case Received(r) => Message(r)]
    + Answering(client.ret, client.sendOk)
  }

  function Answering(ret: int, sendOk: bool): seq<Input> {
    [Decide, Execute(ret), if sendOk then Send else Fail]
  }

  lemma {:induction false} ClosedIsFinal(e: Env, c: Conn, inputs: seq<Input>)
    requires c.phase.Closed?
    ensures Solo(e, c, inputs) == (c, [])
    decreases inputs
  {
    if inputs != [] {
      ClosedIsFinal(e, c, inputs[1..]);
      var none: seq<Event> := [];
      assert Step(e, c, inputs[0]) == (c, none) && none + none == none;
    }
  }

  lemma {:induction false} SoloOne(e: Env, c: Conn, i: Input)
    ensures Solo(e, c, [i]) == Step(e, c, i)
  {
    assert Step(e, c, i).1 + [] == Step(e, c, i).1;
  }

  /** The response that the decision and, if it is favourable, the execution lead to. */
  ghost function Answer(e: Env, role: Option<string>, request: Request, ret: int): (seq<Event>, Response) {
    var decision := Decision(e, role, request);
    if decision.Some? then ([], decision.value) else Executed(request, ret)
  }

  lemma {:induction false} AnsweringEvents(e: Env, c: Conn, ret: int, sendOk: bool)
    requires c.phase.Deciding? && c.request.Some?
    ensures var (calls, response) := Answer(e, c.role, c.request.value, ret);
            Solo(e, c, Answering(ret, sendOk)).1 == calls + if sendOk then [Sent(response)] else []
  {
    var last := if sendOk then Send else Fail;
    var (calls, response) := Answer(e, c.role, c.request.value, ret);
    var decided := Step(e, c, Decide).0;
    var executed := Step(e, decided, Execute(ret));
    assert executed == (c.(phase := Responding, response := Some(response)), calls);
    assert Answering(ret, sendOk) == [Decide] + [Execute(ret), last] && [Execute(ret), last] == [Execute(ret)] + [last];
    SoloCons(e, c, Decide, [Execute(ret), last]);
    SoloCons(e, decided, Execute(ret), [last]);
    SoloOne(e, executed.0, last);
  }

  /** Up to the decision a connection causes no event. */
  lemma {:induction false} ScriptPrelude(e: Env, client: Client)
    ensures var i := Script(client);
            var c := Step(e, Step(e, FRESH.(phase := Connecting), i[1]).0, i[2]).0;
            Solo(e, FRESH, i).1 == Solo(e, c, Answering(client.ret, client.sendOk)).1
  {
    var i, rest := Script(client), Answering(client.ret, client.sendOk);
    var c1 := FRESH.(phase := Connecting);
    var c2 := Step(e, c1, i[1]).0;
    assert i == [i[0]] + ([i[1]] + ([i[2]] + rest));
    SoloCons(e, FRESH, i[0], [i[1]] + ([i[2]] + rest));
    SoloCons(e, c1, i[1], [i[2]] + rest);
    SoloCons(e, c2, i[2], rest);
  }

  /** What the machine has done after a whole script. */
  lemma {:induction false} ScriptEvents(e: Env, client: Client)
    ensures Solo(e, FRESH, Script(client)).1
         == if client.db.None? || !client.incoming.Received? then []
            else
              var role := RoleFor(e.config, e.order, GroupsOf(client.db.value));
              var request, ret := client.incoming.request, client.ret;
              var allowed := role.Some? && IsAllowed(e.config, role.value, request);
              var calls := if allowed && Supported(request) then [BpfCall(AttrOf(request), ret)] else [];
              var response :=
                if role.None? then Denied(NoRole)
                else if !allowed then Denied(RoleForbids(role.value, request))
                else if !request.CreateMap? then Error(NotImplemented)
                else if !Supported(request) then Error(UnsupportedMapType(request.mapType))
                else if ret < 0 then Error(BpfFailed(ret))
                else Success(Some(ret));
              calls + if client.sendOk then [Sent(response)] else []
  {
    var i := Script(client);
    var c := Step(e, Step(e, FRESH.(phase := Connecting), i[1]).0, i[2]).0;
    ScriptPrelude(e, client);
    if client.db.None? || !client.incoming.Received? {
      ClosedIsFinal(e, c, Answering(client.ret, client.sendOk));
    } else {
      AnsweringEvents(e, c, client.ret, client.sendOk);
    }
  }

  /** The handler as written does what the machine does on the corresponding inputs. */
  method HandleClient(e: Env, client: Client) returns (events: seq<Event>)
    requires Enumerates(e.order, e.config.roles.Keys)
    ensures events == Solo(e, FRESH, Script(client)).1
  {
    ScriptEvents(e, client);
    if client.db.None? {
      return [];
    }
    var role := ResolveUser(e.config, e.order, client.db.value);
    if !client.incoming.Received? {
      return [];
    }
    var request := client.incoming.request;
    var response: Response;
    events := [];
    if role.Some? {
      if IsAllowed(e.config, role.value, request) {
        events, response := ExecuteBpf(request, client.ret);
      } else {
        response := Denied(RoleForbids(role.value, request));
      }
    } else {
      response := Denied(NoRole);
    }
    if client.sendOk {
      events := events + [Sent(response)];
    }
  }
}
