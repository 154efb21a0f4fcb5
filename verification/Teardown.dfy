/** The verbs objects of one instance, from opening the device to the end of its destructor, with
    an independent monitor of the log of creations and releases.

    A protection domain and a completion queue depend on the context, a queue pair on the
    protection domain and its completion queue, and a memory region on the protection domain. */
module Teardown {
  import opened Basics

  type ObjectId = nat

  // ----- The monitor -----

  datatype Event = Created(o: ObjectId, needs: set<ObjectId>) | Released(o: ObjectId)

  function Effect(live: map<ObjectId, set<ObjectId>>, ev: Event): map<ObjectId, set<ObjectId>> {
    if ev.Created? then live[ev.o := ev.needs] else live - {ev.o}
  }

  /** The objects that exist after a log, each with what it depends on. */
  function Live(log: seq<Event>): map<ObjectId, set<ObjectId>> {
    if log == [] then map[] else Effect(Live(log[..|log| - 1]), log[|log| - 1])
  }

  function EverCreated(log: seq<Event>): set<ObjectId> {
    if log == [] then {}
    else EverCreated(log[..|log| - 1]) + (if log[|log| - 1].Created? then {log[|log| - 1].o} else {})
  }

  /** An object is created once, on objects that exist, and released once, after everything that
      depends on it. */
  predicate Allowed(log: seq<Event>, ev: Event) {
    if ev.Created? then ev.o !in EverCreated(log) && ev.needs <= Live(log).Keys
    else ev.o in Live(log) && Unneeded(Live(log), ev.o)
  }

  predicate Unneeded(live: map<ObjectId, set<ObjectId>>, o: ObjectId) {
    forall x :: x in live ==> o !in live[x]
  }

  predicate Ordered(log: seq<Event>) {
    log == [] || (Ordered(log[..|log| - 1]) && Allowed(log[..|log| - 1], log[|log| - 1]))
  }

  lemma Appended(log: seq<Event>, ev: Event)
    ensures Live(log + [ev]) == Effect(Live(log), ev)
    ensures EverCreated(log + [ev]) == EverCreated(log) + (if ev.Created? then {ev.o} else {})
    ensures Ordered(log + [ev]) <==> Ordered(log) && Allowed(log, ev)
  {
    assert (log + [ev])[..|log|] == log;
  }

  predicate Creates(ev: Event, o: ObjectId) { ev.Created? && ev.o == o }
  predicate Releases(ev: Event, o: ObjectId) { ev == Released(o) }
  function CreatesOf(o: ObjectId): Event -> bool { (ev: Event) => Creates(ev, o) }
  function ReleasesOf(o: ObjectId): Event -> bool { (ev: Event) => Releases(ev, o) }

  /** In an ordered log every object is created at most once, and released at most once: exactly
      once when it was created and no longer exists. */
  lemma {:induction false} ReleasedOnce(log: seq<Event>, o: ObjectId)
    requires Ordered(log)
    ensures Count(log, CreatesOf(o)) == Bit(o in EverCreated(log))
    ensures Count(log, ReleasesOf(o)) + Bit(o in Live(log)) == Count(log, CreatesOf(o))
  {
    if log == [] {
    } else {
      var last := |log| - 1;
      assert log == log[..last] + [log[last]];
      ReleasedOnce(log[..last], o);
      CountAppend(log[..last], log[last], CreatesOf(o));
      CountAppend(log[..last], log[last], ReleasesOf(o));
      LiveWasCreated(log[..last], o);
    }
  }

  lemma {:induction false} LiveWasCreated(log: seq<Event>, o: ObjectId)
    ensures o in Live(log) ==> o in EverCreated(log)
  {
    if log == [] {
    } else {
      LiveWasCreated(log[..|log| - 1], o);
    }
  }

  // ----- The instance -----

  /** Whose connection it is. */
  datatype Owner = TokenConnection | PoolSlot(i: nat)

  datatype Kind = Context | ProtectionDomain | CompletionQueue(owner: Owner) | QueuePair(owner: Owner) | MemoryRegion

  /** The members that own verbs objects, in the order in which they are declared: those of the
      device, and then those of the instance. */
  datatype Member = DeviceContext | DevicePd | TokenConnectionMember | PoolMember | BuffersMember

  const Declared: seq<Member> := [DeviceContext, DevicePd, TokenConnectionMember, PoolMember, BuffersMember]

  /** The members of a connection, and the locals that createRcConnection() builds one from, in the
      order in which they are declared. */
  datatype ConnectionMember = CqMember | QpMember

  const ConnectionDeclared: seq<ConnectionMember> := [CqMember, QpMember]

  /** `Down`: a failed initialization is unwinding, or the destructor is running. Members are
      destroyed in the reverse of the order they are declared in, and the first `left` of them are
      still to be destroyed. */
  datatype Stage = Opening | Serving | Down(left: nat)

  /** `ending`: the connections that are being destroyed, and how many of their members are left. */
  datatype World = World(
    ctx: Option<ObjectId>,
    pd: Option<ObjectId>,
    cqs: map<Owner, ObjectId>,
    qps: map<Owner, ObjectId>,
    mrs: set<ObjectId>,
    ending: map<Owner, nat>,
    kinds: map<ObjectId, Kind>,
    stage: Stage,
    next: ObjectId,
    log: seq<Event>)

  const NewWorld := World(None, None, map[], map[], {}, map[], map[], Opening, 0, [])

  datatype Step =
    | OpenDevice
    | AllocatePd
    | CreateCq(owner: Owner)
    | CreateQp(owner: Owner)
    | Publish
    | RegisterMr
    | DeregisterMr(o: ObjectId)
    | EndConnection(owner: Owner)
    | DestroyQp(owner: Owner)
    | DestroyCq(owner: Owner)
    | ConnectionMemberDone(owner: Owner)
    | GoDown
    | DeallocatePd
    | CloseDevice
    | MemberDone

  /** The member that is being destroyed. */
  predicate Turn(w: World, member: Member) {
    w.stage.Down? && 0 < w.stage.left <= |Declared| && Declared[w.stage.left - 1] == member
  }

  function MemberOf(owner: Owner): Member {
    if owner.TokenConnection? then TokenConnectionMember else PoolMember
  }

  /** The member owns nothing, or nothing any more. */
  predicate Empty(w: World, member: Member) {
    match member
    case DeviceContext => w.ctx.None?
    case DevicePd => w.pd.None?
    case TokenConnectionMember => NoConnectionOf(w, member)
    case PoolMember => NoConnectionOf(w, member)
    case BuffersMember => w.mrs == {}
  }

  predicate NoConnectionOf(w: World, member: Member) {
    (forall x :: x in w.cqs ==> MemberOf(x) != member) && (forall x :: x in w.ending ==> MemberOf(x) != member)
  }

  /** A connection is destroyed when it could not be finished, when it is replaced, or with the member
      that owns it. */
  predicate MayDestroy(w: World, owner: Owner) {
    w.stage == Opening || (w.stage == Serving && owner.PoolSlot?) || Turn(w, MemberOf(owner))
  }

  /** The member of a connection that is being destroyed. */
  predicate ConnectionTurn(w: World, owner: Owner, member: ConnectionMember) {
    owner in w.ending && 0 < w.ending[owner] <= |ConnectionDeclared|
      && ConnectionDeclared[w.ending[owner] - 1] == member
  }

  predicate ConnectionEmpty(w: World, owner: Owner, member: ConnectionMember) {
    match member
    case CqMember => owner !in w.cqs
    case QpMember => owner !in w.qps
  }

  /** Which steps the code can take. Nothing here mentions what depends on what when it is released: a
      member whose turn it is, of the instance or of a connection, releases what it owns. */
  predicate Enabled(w: World, step: Step) {
    match step
    case OpenDevice => w.stage == Opening && w.ctx.None?
    case AllocatePd => w.stage == Opening && w.ctx.Some? && w.pd.None?
    case CreateCq(owner) =>
      && w.pd.Some? && w.ctx.Some? && owner !in w.cqs && owner !in w.ending
      && (w.stage == Opening || (w.stage == Serving && owner.PoolSlot?))
    case CreateQp(owner) => w.pd.Some? && !w.stage.Down? && owner in w.cqs && owner !in w.qps && owner !in w.ending
    case Publish => w.stage == Opening && w.pd.Some? && w.qps.Keys == w.cqs.Keys && w.ending == map[]
    case RegisterMr => w.stage == Serving && w.pd.Some?
    case DeregisterMr(o) => o in w.mrs && (w.stage == Serving || Turn(w, BuffersMember))
    case EndConnection(owner) => owner in w.cqs && owner !in w.ending && MayDestroy(w, owner)
    case DestroyQp(owner) => owner in w.qps && ConnectionTurn(w, owner, QpMember)
    case DestroyCq(owner) => owner in w.cqs && ConnectionTurn(w, owner, CqMember)
    case ConnectionMemberDone(owner) =>
      && owner in w.ending && 0 < w.ending[owner] <= |ConnectionDeclared|
      && ConnectionEmpty(w, owner, ConnectionDeclared[w.ending[owner] - 1])
    case GoDown => !w.stage.Down?
    case DeallocatePd => w.pd.Some? && Turn(w, DevicePd)
    case CloseDevice => w.ctx.Some? && Turn(w, DeviceContext)
    case MemberDone => w.stage.Down? && 0 < w.stage.left <= |Declared| && Empty(w, Declared[w.stage.left - 1])
  }

  function Make(w: World, kind: Kind, needs: set<ObjectId>): World {
    w.(kinds := w.kinds[w.next := kind], next := w.next + 1, log := w.log + [Created(w.next, needs)])
  }

  function Destroy(w: World, o: ObjectId): World {
    w.(kinds := w.kinds - {o}, log := w.log + [Released(o)])
  }

  function Apply(w: World, step: Step): World
    requires Enabled(w, step)
  {
    match step
    case OpenDevice => Make(w, Context, {}).(ctx := Some(w.next))
    case AllocatePd => Make(w, ProtectionDomain, {w.ctx.value}).(pd := Some(w.next))
    case CreateCq(owner) => Make(w, CompletionQueue(owner), {w.ctx.value}).(cqs := w.cqs[owner := w.next])
    case CreateQp(owner) =>
      Make(w, QueuePair(owner), {w.pd.value, w.cqs[owner]}).(qps := w.qps[owner := w.next])
    case Publish => w.(stage := Serving)
    case RegisterMr => Make(w, MemoryRegion, {w.pd.value}).(mrs := w.mrs + {w.next})
    case DeregisterMr(o) => Destroy(w, o).(mrs := w.mrs - {o})
    case EndConnection(owner) => w.(ending := w.ending[owner := |ConnectionDeclared|])
    case DestroyQp(owner) => Destroy(w, w.qps[owner]).(qps := w.qps - {owner})
    case DestroyCq(owner) => Destroy(w, w.cqs[owner]).(cqs := w.cqs - {owner})
    case ConnectionMemberDone(owner) =>
      w.(ending := if w.ending[owner] == 1 then w.ending - {owner} else w.ending[owner := w.ending[owner] - 1])
    case GoDown => w.(stage := Down(|Declared|))
    case DeallocatePd => Destroy(w, w.pd.value).(pd := None)
    case CloseDevice => Destroy(w, w.ctx.value).(ctx := None)
    case MemberDone => w.(stage := Down(w.stage.left - 1))
  }

  // ----- What every step keeps -----

  /** An object's owner points back at it. */
  predicate KindOk(w: World, o: ObjectId, kind: Kind) {
    match kind
    case Context => w.ctx == Some(o)
    case ProtectionDomain => w.pd == Some(o)
    case CompletionQueue(owner) => owner in w.cqs && w.cqs[owner] == o
    case QueuePair(owner) => owner in w.qps && w.qps[owner] == o
    case MemoryRegion => o in w.mrs
  }

  /** What an object of each kind depends on. */
  predicate NeedsOk(w: World, kind: Kind, needs: set<ObjectId>) {
    match kind
    case Context => needs == {}
    case ProtectionDomain => w.ctx.Some? && needs == {w.ctx.value}
    case CompletionQueue(_) => w.ctx.Some? && needs == {w.ctx.value}
    case QueuePair(owner) => w.pd.Some? && owner in w.cqs && needs == {w.pd.value, w.cqs[owner]}
    case MemoryRegion => w.pd.Some? && needs == {w.pd.value}
  }

  predicate OwnersOk(w: World) {
    && (w.ctx.Some? ==> w.ctx.value in w.kinds && w.kinds[w.ctx.value] == Context)
    && (w.pd.Some? ==> w.ctx.Some? && w.pd.value in w.kinds && w.kinds[w.pd.value] == ProtectionDomain)
    && (forall x :: x in w.cqs ==> w.pd.Some? && w.cqs[x] in w.kinds && w.kinds[w.cqs[x]] == CompletionQueue(x))
    && (forall x :: x in w.qps ==> x in w.cqs && w.qps[x] in w.kinds && w.kinds[w.qps[x]] == QueuePair(x))
    && (forall o :: o in w.mrs ==> w.pd.Some? && o in w.kinds && w.kinds[o] == MemoryRegion)
  }

  predicate ObjectsOk(w: World) {
    forall o :: o in w.kinds ==> o < w.next && KindOk(w, o, w.kinds[o])
  }

  predicate MonitorOk(w: World) {
    && Ordered(w.log)
    && Live(w.log).Keys == w.kinds.Keys
    && (forall o :: o in w.kinds ==> NeedsOk(w, w.kinds[o], Live(w.log)[o]))
    && (forall o :: o in EverCreated(w.log) ==> o < w.next)
  }

  /** The members that have been destroyed own nothing. */
  predicate TurnsOk(w: World) {
    w.stage.Down? ==>
      && w.stage.left <= |Declared|
      && forall k :: w.stage.left <= k < |Declared| ==> Empty(w, Declared[k])
  }

  /** The members of a connection that have been destroyed own nothing. */
  predicate EndingOk(w: World) {
    forall x :: x in w.ending ==>
      && 0 < w.ending[x] <= |ConnectionDeclared|
      && forall k :: w.ending[x] <= k < |ConnectionDeclared| ==> ConnectionEmpty(w, x, ConnectionDeclared[k])
  }

  predicate Inv(w: World) { OwnersOk(w) && ObjectsOk(w) && TurnsOk(w) && EndingOk(w) && MonitorOk(w) }

  // ----- Proofs -----

  lemma ObjectKept(w: World, step: Step, o: ObjectId)
    requires OwnersOk(w) && Enabled(w, step)
    requires o in w.kinds ==> o < w.next && KindOk(w, o, w.kinds[o])
    ensures var w' := Apply(w, step); o in w'.kinds ==> o < w'.next && KindOk(w', o, w'.kinds[o])
  {
    if Victim(w, step).Some? { ObjectKeptReleasing(w, step, o); }
  }

  lemma ObjectKeptReleasing(w: World, step: Step, o: ObjectId)
    requires OwnersOk(w) && Enabled(w, step) && Victim(w, step).Some?
    requires o in w.kinds ==> o < w.next && KindOk(w, o, w.kinds[o])
    ensures var w' := Apply(w, step); o in w'.kinds ==> o < w'.next && KindOk(w', o, w'.kinds[o])
  {
  }

  lemma OwnersKept(w: World, step: Step)
    requires OwnersOk(w) && ObjectsOk(w) && TurnsOk(w) && EndingOk(w) && Enabled(w, step)
    ensures OwnersOk(Apply(w, step))
  {
    if Victim(w, step).Some? { OwnersKeptReleasing(w, step); } else { OwnersKeptMaking(w, step); }
  }

  lemma OwnersKeptMaking(w: World, step: Step)
    requires OwnersOk(w) && Enabled(w, step) && Victim(w, step).None?
    requires forall o :: o in w.kinds ==> o < w.next
    ensures OwnersOk(Apply(w, step))
  {
    if step.OpenDevice? || step.AllocatePd? || step.RegisterMr? { OwnersKeptOutside(w, step); }
  }

  lemma OwnersKeptOutside(w: World, step: Step)
    requires OwnersOk(w) && Enabled(w, step) && (step.OpenDevice? || step.AllocatePd? || step.RegisterMr?)
    requires forall o :: o in w.kinds ==> o < w.next
    ensures OwnersOk(Apply(w, step))
  {
  }

  lemma OwnersKeptReleasing(w: World, step: Step)
    requires OwnersOk(w) && TurnsOk(w) && EndingOk(w) && Enabled(w, step) && Victim(w, step).Some?
    ensures OwnersOk(Apply(w, step))
  {
    if step.DeallocatePd? || step.CloseDevice? {
      LaterMembersAreGone(w);
      OwnersAtTheEnd(w, step);
    } else if step.DestroyCq? {
      LaterConnectionMembersAreGone(w, step.owner);
      OwnersWithoutCq(w, step.owner);
    }
  }

  lemma OwnersAtTheEnd(w: World, step: Step)
    requires OwnersOk(w) && Enabled(w, step) && (step.DeallocatePd? || step.CloseDevice?)
    requires w.cqs == map[] && w.mrs == {} && (step.CloseDevice? ==> w.pd.None?)
    ensures OwnersOk(Apply(w, step))
  {
  }

  lemma OwnersWithoutCq(w: World, owner: Owner)
    requires OwnersOk(w) && Enabled(w, DestroyCq(owner)) && owner !in w.qps
    ensures OwnersOk(Apply(w, DestroyCq(owner)))
  {
  }

  lemma TurnsKept(w: World, step: Step)
    requires TurnsOk(w) && Enabled(w, step)
    ensures TurnsOk(Apply(w, step))
  {
  }

  lemma EndingKept(w: World, step: Step)
    requires EndingOk(w) && Enabled(w, step)
    ensures EndingOk(Apply(w, step))
  {
  }

  /** By the time a completion queue goes, the queue pair declared after it is gone. */
  lemma LaterConnectionMembersAreGone(w: World, owner: Owner)
    requires EndingOk(w) && ConnectionTurn(w, owner, CqMember)
    ensures owner !in w.qps
  {
    assert ConnectionEmpty(w, owner, ConnectionDeclared[1]);
  }

  /** The object a step destroys. */
  function Victim(w: World, step: Step): Option<ObjectId>
    requires Enabled(w, step)
  {
    match step
    case DeregisterMr(o) => Some(o)
    case DestroyQp(owner) => Some(w.qps[owner])
    case DestroyCq(owner) => Some(w.cqs[owner])
    case DeallocatePd => Some(w.pd.value)
    case CloseDevice => Some(w.ctx.value)
    case _ => None
  }

  /** By the time the protection domain goes, the members declared after the device are gone. */
  lemma LaterMembersAreGone(w: World)
    requires TurnsOk(w) && (Turn(w, DevicePd) || Turn(w, DeviceContext))
    ensures w.cqs == map[] && w.mrs == {}
    ensures Turn(w, DeviceContext) ==> w.pd.None?
  {
    assert Empty(w, Declared[2]) && Empty(w, Declared[3]) && Empty(w, Declared[4]);
    assert Turn(w, DeviceContext) ==> Empty(w, Declared[1]);
    assert forall x :: x in w.cqs ==> MemberOf(x) == TokenConnectionMember || MemberOf(x) == PoolMember;
  }

  lemma VictimIsLive(w: World, step: Step)
    requires OwnersOk(w) && Enabled(w, step) && Victim(w, step).Some?
    ensures Victim(w, step).value in w.kinds
    ensures Apply(w, step).kinds == w.kinds - {Victim(w, step).value}
    ensures Apply(w, step).stage == w.stage && Apply(w, step).next == w.next
    ensures Apply(w, step).log == w.log + [Released(Victim(w, step).value)]
  {
  }

  /** Nothing depends on the object that a step destroys. */
  lemma VictimIsUnneeded(w: World, step: Step, x: ObjectId)
    requires OwnersOk(w) && TurnsOk(w) && EndingOk(w) && Enabled(w, step) && Victim(w, step).Some?
    requires x in w.kinds && KindOk(w, x, w.kinds[x]) && x in Live(w.log) && NeedsOk(w, w.kinds[x], Live(w.log)[x])
    ensures Victim(w, step).value !in Live(w.log)[x]
  {
    if step.DeallocatePd? || step.CloseDevice? { LaterMembersAreGone(w); }
    if step.DestroyCq? { LaterConnectionMembersAreGone(w, step.owner); }
  }

  lemma ReleaseIsAllowed(w: World, step: Step)
    requires Inv(w) && Enabled(w, step) && Victim(w, step).Some?
    ensures Allowed(w.log, Released(Victim(w, step).value))
  {
    forall x | x in Live(w.log)
      ensures Victim(w, step).value !in Live(w.log)[x]
    {
      VictimIsUnneeded(w, step, x);
    }
  }

  /** What an object depends on does not change while it exists. */
  lemma NeedsKept(w: World, step: Step, x: ObjectId, needs: set<ObjectId>)
    requires OwnersOk(w) && TurnsOk(w) && EndingOk(w) && Enabled(w, step)
    requires x in w.kinds && KindOk(w, x, w.kinds[x]) && NeedsOk(w, w.kinds[x], needs)
    requires x in Apply(w, step).kinds && x < w.next
    ensures NeedsOk(Apply(w, step), Apply(w, step).kinds[x], needs)
  {
    if step.DeallocatePd? || step.CloseDevice? {
      LaterMembersAreGone(w);
    } else if step.DestroyCq? {
      LaterConnectionMembersAreGone(w, step.owner);
      NeedsWithoutCq(w, step.owner, x, needs);
    } else {
      NeedsElsewhere(w, step, x, needs);
    }
  }

  lemma NeedsWithoutCq(w: World, owner: Owner, x: ObjectId, needs: set<ObjectId>)
    requires Enabled(w, DestroyCq(owner)) && owner !in w.qps
    requires x in w.kinds && KindOk(w, x, w.kinds[x]) && NeedsOk(w, w.kinds[x], needs) && x != w.cqs[owner]
    ensures NeedsOk(Apply(w, DestroyCq(owner)), w.kinds[x], needs)
  {
  }

  lemma NeedsElsewhere(w: World, step: Step, x: ObjectId, needs: set<ObjectId>)
    requires Enabled(w, step) && !step.DeallocatePd? && !step.CloseDevice? && !step.DestroyCq?
    requires x in w.kinds && NeedsOk(w, w.kinds[x], needs) && x in Apply(w, step).kinds && x < w.next
    ensures NeedsOk(Apply(w, step), Apply(w, step).kinds[x], needs)
  {
  }

  /** What the object that a step creates depends on. */
  function Needs(w: World, step: Step): Option<set<ObjectId>>
    requires Enabled(w, step)
  {
    match step
    case OpenDevice => Some({})
    case AllocatePd => Some({w.ctx.value})
    case CreateCq(_) => Some({w.ctx.value})
    case CreateQp(owner) => Some({w.pd.value, w.cqs[owner]})
    case RegisterMr => Some({w.pd.value})
    case _ => None
  }

  lemma MakingKeepsMonitor(w: World, step: Step)
    requires MonitorOk(w) && OwnersOk(w) && Enabled(w, step) && Needs(w, step).Some?
    requires forall x :: x in w.kinds ==>
      x < w.next && NeedsOk(Apply(w, step), Apply(w, step).kinds[x], Live(w.log)[x])
    ensures MonitorOk(Apply(w, step))
  {
    NewObject(w, step);
    CreationKeepsMonitor(w, Apply(w, step), Needs(w, step).value);
  }

  lemma CreationKeepsMonitor(w: World, w': World, needs: set<ObjectId>)
    requires MonitorOk(w) && w'.log == w.log + [Created(w.next, needs)] && w'.next == w.next + 1
    requires needs <= w.kinds.Keys && w'.kinds.Keys == w.kinds.Keys + {w.next} && NeedsOk(w', w'.kinds[w.next], needs)
    requires forall x :: x in w.kinds ==> x < w.next && NeedsOk(w', w'.kinds[x], Live(w.log)[x])
    ensures MonitorOk(w')
  {
    Appended(w.log, Created(w.next, needs));
    assert Allowed(w.log, Created(w.next, needs));
  }

  lemma NewObject(w: World, step: Step)
    requires OwnersOk(w) && Enabled(w, step) && Needs(w, step).Some?
    ensures var w', needs := Apply(w, step), Needs(w, step).value;
      && w'.log == w.log + [Created(w.next, needs)] && w'.next == w.next + 1 && needs <= w.kinds.Keys
      && w'.kinds.Keys == w.kinds.Keys + {w.next} && NeedsOk(w', w'.kinds[w.next], needs)
  {
  }

  lemma ReleasingKeepsMonitor(w: World, step: Step)
    requires MonitorOk(w) && OwnersOk(w) && Enabled(w, step) && Victim(w, step).Some?
    requires Allowed(w.log, Released(Victim(w, step).value))
    requires forall x :: x in Apply(w, step).kinds ==> NeedsOk(Apply(w, step), Apply(w, step).kinds[x], Live(w.log)[x])
    ensures MonitorOk(Apply(w, step))
  {
    VictimIsLive(w, step);
    Appended(w.log, Released(Victim(w, step).value));
  }

  lemma MonitorKept(w: World, step: Step)
    requires Inv(w) && Enabled(w, step)
    ensures MonitorOk(Apply(w, step))
  {
    var w' := Apply(w, step);
    forall x | x in w.kinds && x in w'.kinds
      ensures NeedsOk(w', w'.kinds[x], Live(w.log)[x])
    {
      NeedsKept(w, step, x, Live(w.log)[x]);
    }
    if Victim(w, step).Some? {
      ReleaseIsAllowed(w, step);
      VictimIsLive(w, step);
      ReleasingKeepsMonitor(w, step);
    } else if Needs(w, step).Some? {
      NewObject(w, step);
      MakingKeepsMonitor(w, step);
    } else {
      StageOnly(w, step);
    }
  }

  lemma StageOnly(w: World, step: Step)
    requires Enabled(w, step) && Victim(w, step).None? && Needs(w, step).None?
    ensures Apply(w, step).(stage := w.stage, ending := w.ending) == w
  {
  }

  lemma StepKeepsInv(w: World, step: Step)
    requires Inv(w) && Enabled(w, step)
    ensures Inv(Apply(w, step))
  {
    OwnersKept(w, step);
    TurnsKept(w, step);
    EndingKept(w, step);
    MonitorKept(w, step);
    forall o | o in Apply(w, step).kinds
      ensures o < Apply(w, step).next && KindOk(Apply(w, step), o, Apply(w, step).kinds[o])
    {
      ObjectKept(w, step, o);
    }
  }

  predicate Runs(w: World, run: seq<Step>)
    decreases |run|
  {
    run == [] || (Enabled(w, run[0]) && Runs(Apply(w, run[0]), run[1..]))
  }

  function After(w: World, run: seq<Step>): World
    requires Runs(w, run)
    decreases |run|
  {
    if run == [] then w else After(Apply(w, run[0]), run[1..])
  }

  lemma {:induction false} RunKeepsInv(w: World, run: seq<Step>)
    requires Inv(w) && Runs(w, run)
    ensures Inv(After(w, run))
    decreases |run|
  {
    if run == [] {
    } else {
      StepKeepsInv(w, run[0]);
      RunKeepsInv(Apply(w, run[0]), run[1..]);
    }
  }

  /** In every run, including failed initialization and replaced connections, no object is released
      while another that depends on it exists, and none is released twice. */
  lemma EveryRunIsOrdered(run: seq<Step>)
    requires Runs(NewWorld, run)
    ensures Ordered(After(NewWorld, run).log)
  {
    RunKeepsInv(NewWorld, run);
  }

  lemma ClosedIsEmpty(w: World)
    requires OwnersOk(w) && ObjectsOk(w) && w.ctx.None?
    ensures w.kinds == map[]
  {
  }

  /** Once the last member is destroyed, every object the instance ever created has been released
      exactly once. */
  lemma NothingOutlivesTheInstance(run: seq<Step>, o: ObjectId)
    requires Runs(NewWorld, run) && After(NewWorld, run).stage == Down(0)
    ensures var log := After(NewWorld, run).log;
      Count(log, ReleasesOf(o)) == Count(log, CreatesOf(o)) == Bit(o in EverCreated(log))
  {
    RunKeepsInv(NewWorld, run);
    var w := After(NewWorld, run);
    assert Empty(w, Declared[0]);
    ClosedIsEmpty(w);
    ReleasedOnce(w.log, o);
  }

  /** What destroying a member does next: release something it owns, or go on to the member
      declared before it. */
  lemma TeardownGoesOn(w: World) returns (step: Step)
    requires Inv(w) && w.stage.Down? && w.stage.left > 0
    ensures Enabled(w, step) && Apply(w, step).stage.Down?
    ensures Shrinks(w, Apply(w, step))
  {
    var member := Declared[w.stage.left - 1];
    if Empty(w, member) {
      step := MemberDone;
    } else if member == BuffersMember {
      var o :| o in w.mrs;
      step := DeregisterMr(o);
    } else if member == DevicePd {
      step := DeallocatePd;
    } else if member == DeviceContext {
      step := CloseDevice;
    } else {
      var owner :| (owner in w.cqs || owner in w.ending) && MemberOf(owner) == member;
      step := EndingGoesOn(w, owner);
    }
    if Victim(w, step).Some? { ReleasingShrinks(w, step); }
  }

  lemma ReleasingShrinks(w: World, step: Step)
    requires OwnersOk(w) && w.stage.Down? && Enabled(w, step) && Victim(w, step).Some?
    ensures Shrinks(w, Apply(w, step))
  {
    VictimIsLive(w, step);
    MapShrinks(w.kinds, Victim(w, step).value);
  }

  /** What is left to do: members, objects, and the members of the connections being destroyed. */
  ghost predicate Shrinks(w: World, w': World) {
    && w.stage.Down? && w'.stage.Down?
    && (|| w'.stage.left < w.stage.left
        || (w'.stage.left == w.stage.left && |w'.kinds| < |w.kinds|)
        || (w'.stage.left == w.stage.left && |w'.kinds| == |w.kinds| && ToEnd(w') < ToEnd(w)))
  }

  function MembersLeft(n: nat): nat { n }

  /** What the destructors of connections have left: a connection that is not being destroyed yet has
      all its members, and one more step to start. */
  ghost function ToEnd(w: World): nat { Remaining(w.cqs.Keys, w.ending) }

  ghost function Remaining(owners: set<Owner>, ending: map<Owner, nat>): nat {
    MapSum(ending, MembersLeft) + 3 * |owners - ending.Keys|
  }

  /** What destroying a connection does next. */
  lemma EndingGoesOn(w: World, owner: Owner) returns (step: Step)
    requires OwnersOk(w) && EndingOk(w) && w.stage.Down? && (owner in w.cqs || owner in w.ending)
      && MayDestroy(w, owner)
    ensures Enabled(w, step) && Apply(w, step).stage == w.stage
    ensures Victim(w, step).Some? || Shrinks(w, Apply(w, step))
  {
    if owner !in w.ending {
      step := EndConnection(owner);
      StartShrinks(w, owner);
    } else if ConnectionEmpty(w, owner, ConnectionDeclared[w.ending[owner] - 1]) {
      step := ConnectionMemberDone(owner);
      DoneShrinks(w, owner);
    } else {
      step := ReleaseOf(w, owner);
      ReleaseIsEnabled(w, owner);
    }
  }

  /** What a connection's member whose turn it is releases. */
  function ReleaseOf(w: World, owner: Owner): Step {
    if ConnectionTurn(w, owner, QpMember) then DestroyQp(owner) else DestroyCq(owner)
  }

  lemma ReleaseIsEnabled(w: World, owner: Owner)
    requires owner in w.ending && 0 < w.ending[owner] <= |ConnectionDeclared|
    requires !ConnectionEmpty(w, owner, ConnectionDeclared[w.ending[owner] - 1])
    ensures Enabled(w, ReleaseOf(w, owner)) && Victim(w, ReleaseOf(w, owner)).Some?
    ensures Apply(w, ReleaseOf(w, owner)).stage == w.stage
  {
  }

  lemma StartShrinks(w: World, owner: Owner)
    requires w.stage.Down? && Enabled(w, EndConnection(owner))
    ensures Shrinks(w, Apply(w, EndConnection(owner)))
  {
    StartShortens(w.cqs.Keys, w.ending, owner);
    assert ToEnd(Apply(w, EndConnection(owner))) == Remaining(w.cqs.Keys, w.ending[owner := 2]);
  }

  lemma DoneShrinks(w: World, owner: Owner)
    requires w.stage.Down? && Enabled(w, ConnectionMemberDone(owner))
    ensures Shrinks(w, Apply(w, ConnectionMemberDone(owner)))
  {
    DoneShortens(w.cqs.Keys, w.ending, owner);
    DoneEffect(w, owner);
  }

  lemma DoneEffect(w: World, owner: Owner)
    requires Enabled(w, ConnectionMemberDone(owner))
    ensures var w' := Apply(w, ConnectionMemberDone(owner));
      && w'.stage == w.stage && w'.kinds == w.kinds && w'.cqs == w.cqs
      && (|| (w'.ending == w.ending - {owner} && owner !in w.cqs)
          || (w.ending[owner] > 1 && w'.ending == w.ending[owner := w.ending[owner] - 1]))
  {
    if w.ending[owner] == 1 { assert ConnectionEmpty(w, owner, CqMember); }
  }

  lemma StartShortens(owners: set<Owner>, ending: map<Owner, nat>, owner: Owner)
    requires owner in owners && owner !in ending
    ensures Remaining(owners, ending[owner := 2]) < Remaining(owners, ending)
  {
    var ending' := ending[owner := 2];
    MapSumRemove(ending', owner, MembersLeft);
    assert ending' - {owner} == ending;
    assert owners - ending'.Keys == (owners - ending.Keys) - {owner};
  }

  lemma DoneShortens(owners: set<Owner>, ending: map<Owner, nat>, owner: Owner)
    requires owner in ending && ending[owner] > 0
    ensures Remaining(owners, ending[owner := ending[owner] - 1]) < Remaining(owners, ending)
    ensures owner !in owners ==> Remaining(owners, ending - {owner}) < Remaining(owners, ending)
  {
    var fewer, gone := ending[owner := ending[owner] - 1], ending - {owner};
    MapSumRemove(fewer, owner, MembersLeft);
    MapSumRemove(ending, owner, MembersLeft);
    assert fewer - {owner} == gone;
    assert owners - fewer.Keys == owners - ending.Keys;
    if owner !in owners { assert owners - gone.Keys == owners - ending.Keys; }
  }

  /** The destructor never gets stuck: from every reachable state in which it runs, it can run to
      the end of the last member. */
  lemma {:induction false} TeardownEnds(w: World) returns (run: seq<Step>)
    requires Inv(w) && w.stage.Down?
    ensures Runs(w, run) && After(w, run).stage == Down(0)
    decreases w.stage.left, |w.kinds|, ToEnd(w)
  {
    run := [];
    if w.stage.left > 0 {
      var step := TeardownGoesOn(w);
      StepKeepsInv(w, step);
      var rest := TeardownEnds(Apply(w, step));
      run := [step] + rest;
      assert run[1..] == rest;
    }
  }

  // ----- Opening and serving -----

  /** Some run leads from `w` to `w'`. */
  ghost predicate Leads(w: World, w': World) {
    exists run :: Runs(w, run) && After(w, run) == w'
  }

  lemma {:induction false} RunAppend(w: World, run: seq<Step>, step: Step)
    requires Runs(w, run) && Enabled(After(w, run), step)
    ensures Runs(w, run + [step]) && After(w, run + [step]) == Apply(After(w, run), step)
    decreases |run|
  {
    if run == [] {
      assert run + [step] == [step];
      assert Runs(Apply(w, step), []);
    } else {
      assert (run + [step])[1..] == run[1..] + [step];
      RunAppend(Apply(w, run[0]), run[1..], step);
    }
  }

  lemma Go(w0: World, w: World, step: Step) returns (w': World)
    requires Leads(w0, w) && Enabled(w, step)
    ensures Leads(w0, w') && w' == Apply(w, step)
  {
    var run :| Runs(w0, run) && After(w0, run) == w;
    RunAppend(w0, run, step);
    w' := Apply(w, step);
  }

  /** The device is open, and exactly these owners have a queue pair and a completion queue. */
  predicate IsOpen(w: World, owners: set<Owner>) {
    w.stage == Opening && w.ctx.Some? && w.pd.Some? && w.ending == map[] && w.cqs.Keys == w.qps.Keys == owners
  }

  lemma AddConnection(w0: World, w: World, owners: set<Owner>, owner: Owner) returns (w': World)
    requires Leads(w0, w) && IsOpen(w, owners) && owner !in owners
    ensures Leads(w0, w') && IsOpen(w', owners + {owner})
  {
    w' := Go(w0, w, CreateCq(owner));
    w' := Go(w0, w', CreateQp(owner));
  }

  lemma OpenTheDevice() returns (w: World)
    ensures Leads(NewWorld, w) && IsOpen(w, {})
  {
    assert Runs(NewWorld, []) && After(NewWorld, []) == NewWorld;
    w := Go(NewWorld, NewWorld, OpenDevice);
    w := Go(NewWorld, w, AllocatePd);
  }

  function Owners(n: nat): set<Owner> { {TokenConnection} + set i: nat | i < n :: PoolSlot(i) }

  lemma {:induction false} OpenWith(n: nat) returns (w: World)
    ensures Leads(NewWorld, w) && IsOpen(w, Owners(n))
  {
    if n == 0 {
      w := OpenTheDevice();
      w := AddConnection(NewWorld, w, {}, TokenConnection);
      assert {} + {TokenConnection} == Owners(0);
    } else {
      w := OpenWith(n - 1);
      w := AddConnection(NewWorld, w, Owners(n - 1), PoolSlot(n - 1));
      assert Owners(n - 1) + {PoolSlot(n - 1)} == Owners(n);
    }
  }

  /** An instance with any number of connections can come to serve: the token connection and those of the
      pool each have their queue pair and completion queue. */
  lemma CanServe(n: nat) returns (w: World)
    ensures Leads(NewWorld, w) && w.stage == Serving && w.cqs.Keys == w.qps.Keys == Owners(n)
  {
    w := OpenWith(n);
    w := Go(NewWorld, w, Publish);
  }

  lemma {:induction false} LeadsRun(w0: World, w: World, run: seq<Step>)
    requires Leads(w0, w) && Runs(w, run)
    ensures Leads(w0, After(w, run))
    decreases |run|
  {
    if run == [] {
    } else {
      var w1 := Go(w0, w, run[0]);
      LeadsRun(w0, w1, run[1..]);
    }
  }

  /** A whole life: opened, serving with any number of connections, and destroyed, with nothing left. */
  lemma LivesAndEnds(n: nat) returns (w: World)
    ensures Leads(NewWorld, w) && w.stage == Down(0) && w.kinds == map[]
  {
    w := CanServe(n);
    w := Go(NewWorld, w, GoDown);
    var life :| Runs(NewWorld, life) && After(NewWorld, life) == w;
    RunKeepsInv(NewWorld, life);
    var run := TeardownEnds(w);
    RunKeepsInv(w, run);
    LeadsRun(NewWorld, w, run);
    w := After(w, run);
    assert Empty(w, Declared[0]);
    ClosedIsEmpty(w);
  }

  /** While it serves, a memory region can be registered and deregistered, and then all is as before but
      for the log. */
  lemma RegionsComeAndGo(w: World)
    requires Inv(w) && w.stage == Serving && w.pd.Some?
    ensures Enabled(w, RegisterMr)
    ensures var w1 := Apply(w, RegisterMr);
      && w1.mrs == w.mrs + {w.next} && w.next !in w.kinds && Enabled(w1, DeregisterMr(w.next))
      && Apply(w1, DeregisterMr(w.next)).(next := w.next, log := w.log) == w
      && Apply(w1, DeregisterMr(w.next)).log == w.log + [Created(w.next, {w.pd.value}), Released(w.next)]
  {
    assert w.next !in w.kinds;
    assert w.next !in w.mrs;
    assert w.mrs + {w.next} - {w.next} == w.mrs;
    assert w.kinds[w.next := MemoryRegion] - {w.next} == w.kinds;
  }

  /** The connection of `owner` is complete. */
  predicate IsComplete(w: World, owner: Owner) {
    owner in w.cqs && owner in w.qps && owner !in w.ending
  }

  lemma DestroysOne(w: World, owner: Owner) returns (w': World)
    requires w.stage == Serving && owner.PoolSlot? && IsComplete(w, owner)
    ensures Leads(w, w') && w'.stage == Serving && owner !in w'.ending && owner !in w'.cqs && owner !in w'.qps
    ensures w'.ctx == w.ctx && w'.pd == w.pd && w'.mrs == w.mrs
    ensures w'.cqs == w.cqs - {owner} && w'.qps == w.qps - {owner}
  {
    assert Runs(w, []) && After(w, []) == w;
    w' := Go(w, w, EndConnection(owner));
    w' := Go(w, w', DestroyQp(owner));
    w' := Go(w, w', ConnectionMemberDone(owner));
    w' := Go(w, w', DestroyCq(owner));
    w' := Go(w, w', ConnectionMemberDone(owner));
  }

  /** A connection can be replaced while the instance serves, and the others stay as they are. */
  lemma ConnectionsCanBeReplaced(w: World, owner: Owner) returns (w': World)
    requires Inv(w) && w.stage == Serving && owner.PoolSlot? && IsComplete(w, owner) && w.ctx.Some?
    ensures Leads(w, w') && w'.stage == Serving && IsComplete(w', owner)
    ensures w'.cqs - {owner} == w.cqs - {owner} && w'.qps - {owner} == w.qps - {owner} && w'.mrs == w.mrs
  {
    w' := DestroysOne(w, owner);
    w' := Go(w, w', CreateCq(owner));
    w' := Go(w, w', CreateQp(owner));
  }
}
