/** Publishing, using and shutting down instances, in every interleaving. initWith() and
    shutdownInstance() hold one mutex from start to end; a second lock guards only the published
    pointer, and calls take a reference under it. */
module Lifecycle {
  import opened Basics

  type InstanceId = nat
  type CallId = nat

  /** An instance in a shared_ptr. `conns` of the `want` connections it needs were created; `leased` of
      them are leased, and `reserved` slots are set aside in its abandoned list. */
  datatype Instance = Instance(
    refs: nat, conns: nat, want: nat, leased: nat, reserved: nat, served: bool, closed: bool, destroyed: bool)

  /** The thread that holds the init mutex, if any, and how far it is. */
  datatype Holder =
    | NoHolder
    | InitChecking(want: nat)
    | InitBuilding(want: nat)
    | InitBuilt(i: InstanceId)
    | ShutdownTaking
    | ShutdownTaken(taken: Option<InstanceId>)
    | ShutdownClosed(i: InstanceId)

  /** A call in progress: the instance it holds, and the leases and slots it owns. */
  datatype Call = Call(i: InstanceId, leases: nat, slots: nat)

  datatype Library = Library(
    published: Option<InstanceId>, instances: map<InstanceId, Instance>, holder: Holder, calls: map<CallId, Call>)

  const NewLibrary := Library(None, map[], NoHolder, map[])

  datatype Step =
    | LockForInit(want: nat)
    | CheckPublished
    | FailBuild
    | Build(i: InstanceId, conns: nat)
    | RejectShort
    | Publish
    | PublishThrows
    | LockForShutdown
    | TakeOut
    | ClosePool
    | LetGo
    | BeginCall(c: CallId)
    | Acquire(c: CallId)
    | Release(c: CallId)
    | SetAside(c: CallId)
    | GiveBack(c: CallId)
    | EndCall(c: CallId)

  predicate Known(s: Library, i: InstanceId) { i in s.instances }

  predicate Enabled(s: Library, step: Step) {
    match step
    case LockForInit(_) => s.holder == NoHolder
    case CheckPublished => s.holder.InitChecking?
    case FailBuild => s.holder.InitBuilding?
    case Build(i, conns) => s.holder.InitBuilding? && i !in s.instances && conns <= s.holder.want
    case RejectShort => s.holder.InitBuilt? && Known(s, s.holder.i)
      && s.instances[s.holder.i].conns != s.instances[s.holder.i].want
    case Publish => s.holder.InitBuilt? && Known(s, s.holder.i)
      && s.instances[s.holder.i].conns == s.instances[s.holder.i].want
    case PublishThrows => s.holder.InitBuilt? && Known(s, s.holder.i)
    case LockForShutdown => s.holder == NoHolder
    case TakeOut => s.holder == ShutdownTaking
    case ClosePool => s.holder.ShutdownTaken? && s.holder.taken.Some? && Known(s, s.holder.taken.value)
    case LetGo => s.holder == ShutdownTaken(None) || (s.holder.ShutdownClosed? && Known(s, s.holder.i))
    case BeginCall(c) => c !in s.calls && s.published.Some? && Known(s, s.published.value)
    case Acquire(c) => c in s.calls && Known(s, s.calls[c].i) && !s.instances[s.calls[c].i].closed
    case Release(c) => c in s.calls && s.calls[c].leases > 0 && Known(s, s.calls[c].i)
    case SetAside(c) => c in s.calls && Known(s, s.calls[c].i)
    case GiveBack(c) => c in s.calls && s.calls[c].slots > 0 && Known(s, s.calls[c].i)
    case EndCall(c) => c in s.calls && s.calls[c].leases == 0 && s.calls[c].slots == 0 && Known(s, s.calls[c].i)
  }

  function SetInstance(s: Library, i: InstanceId, x: Instance): Library { s.(instances := s.instances[i := x]) }

  /** Drops a reference; the last one destroys the instance. */
  function Drop(s: Library, i: InstanceId): Library
    requires Known(s, i)
  {
    var x := s.instances[i];
    SetInstance(s, i, if x.refs > 1 then x.(refs := x.refs - 1) else x.(refs := 0, destroyed := true))
  }

  function Apply(s: Library, step: Step): Library
    requires Enabled(s, step)
  {
    match step
    case LockForInit(want) => s.(holder := InitChecking(want))
    case CheckPublished => s.(holder := if s.published.Some? then NoHolder else InitBuilding(s.holder.want))
    case FailBuild => s.(holder := NoHolder)
    case Build(i, conns) =>
      SetInstance(s, i, Instance(1, conns, s.holder.want, 0, 0, false, false, false)).(holder := InitBuilt(i))
    case RejectShort => Drop(s, s.holder.i).(holder := NoHolder)
    case Publish =>
      SetInstance(s, s.holder.i, s.instances[s.holder.i].(served := true))
        .(published := Some(s.holder.i), holder := NoHolder)
    case PublishThrows => Drop(s, s.holder.i).(holder := NoHolder)
    case LockForShutdown => s.(holder := ShutdownTaking)
    case TakeOut => s.(published := None, holder := ShutdownTaken(s.published))
    case ClosePool =>
      var i := s.holder.taken.value;
      SetInstance(s, i, s.instances[i].(closed := true)).(holder := ShutdownClosed(i))
    case LetGo =>
      if s.holder.ShutdownClosed? then Drop(s, s.holder.i).(holder := NoHolder) else s.(holder := NoHolder)
    case BeginCall(c) =>
      var i := s.published.value;
      SetInstance(s, i, s.instances[i].(refs := s.instances[i].refs + 1)).(calls := s.calls[c := Call(i, 0, 0)])
    case Acquire(c) =>
      var i := s.calls[c].i;
      SetInstance(s, i, s.instances[i].(leased := s.instances[i].leased + 1))
        .(calls := s.calls[c := s.calls[c].(leases := s.calls[c].leases + 1)])
    case Release(c) =>
      var i := s.calls[c].i;
      SetInstance(s, i, s.instances[i].(leased := Pred(s.instances[i].leased)))
        .(calls := s.calls[c := s.calls[c].(leases := s.calls[c].leases - 1)])
    case SetAside(c) =>
      var i := s.calls[c].i;
      SetInstance(s, i, s.instances[i].(reserved := s.instances[i].reserved + 1))
        .(calls := s.calls[c := s.calls[c].(slots := s.calls[c].slots + 1)])
    case GiveBack(c) =>
      var i := s.calls[c].i;
      SetInstance(s, i, s.instances[i].(reserved := Pred(s.instances[i].reserved)))
        .(calls := s.calls[c := s.calls[c].(slots := s.calls[c].slots - 1)])
    case EndCall(c) => Drop(s, s.calls[c].i).(calls := s.calls - {c})
  }

  // ----- What every step keeps -----

  function Uses(i: InstanceId): Call -> bool { (c: Call) => c.i == i }

  /** The instance the init mutex's holder keeps in a local. */
  function Local(s: Library): Option<InstanceId> {
    match s.holder
    case InitBuilt(i) => Some(i)
    case ShutdownTaken(taken) => taken
    case ShutdownClosed(i) => Some(i)
    case _ => None
  }

  function LeasesOn(i: InstanceId): Call -> nat { (c: Call) => if c.i == i then c.leases else 0 }
  function SlotsOn(i: InstanceId): Call -> nat { (c: Call) => if c.i == i then c.slots else 0 }

  /** What the calls that hold instance `i` own of it. */
  ghost function LeasesHeld(s: Library, i: InstanceId): nat { MapSum(s.calls, LeasesOn(i)) }
  ghost function SlotsHeld(s: Library, i: InstanceId): nat { MapSum(s.calls, SlotsOn(i)) }

  ghost function References(s: Library, i: InstanceId): nat {
    Bit(s.published == Some(i)) + Bit(Local(s) == Some(i)) + MapCount(s.calls, Uses(i))
  }

  predicate InstanceOk(s: Library, i: InstanceId, x: Instance) {
    && (x.destroyed <==> x.refs == 0)
    && (s.published == Some(i) ==> x.served && !x.closed)
    && (x.served ==> x.conns == x.want)
    && (s.holder == InitBuilt(i) ==> !x.served && !x.closed)
    && (s.holder == ShutdownTaken(Some(i)) ==> x.served && !x.closed)
    && (x.served && !x.closed ==> s.published == Some(i) || s.holder == ShutdownTaken(Some(i)))
  }

  /** While the init mutex is held past its first check, nothing is published by anyone else. */
  predicate HolderOk(s: Library) {
    && (s.published.Some? ==> s.published.value in s.instances)
    && (Local(s).Some? ==> Local(s).value in s.instances)
    && (s.holder.InitBuilding? || s.holder.InitBuilt? || s.holder.ShutdownTaken? || s.holder.ShutdownClosed? ==>
      s.published.None?)
  }

  ghost predicate RefsExact(s: Library) { forall i :: i in s.instances ==> s.instances[i].refs == References(s, i) }
  ghost predicate CountsExact(s: Library) {
    forall i :: i in s.instances ==>
      s.instances[i].leased == LeasesHeld(s, i) && s.instances[i].reserved == SlotsHeld(s, i)
  }
  predicate InstancesOk(s: Library) { forall i :: i in s.instances ==> InstanceOk(s, i, s.instances[i]) }
  predicate CallsOk(s: Library) {
    forall c :: c in s.calls ==> s.calls[c].i in s.instances && s.instances[s.calls[c].i].served
  }

  ghost predicate Inv(s: Library) {
    HolderOk(s) && RefsExact(s) && CountsExact(s) && InstancesOk(s) && CallsOk(s)
  }

  // ----- Proofs -----

  function CallOf(step: Step): CallId {
    match step
    case BeginCall(c) => c
    case Acquire(c) => c
    case Release(c) => c
    case SetAside(c) => c
    case GiveBack(c) => c
    case EndCall(c) => c
    case _ => 0
  }

  function ByCall(s: Library, c: CallId, i: InstanceId): nat { Bit(c in s.calls && s.calls[c].i == i) }
  function CallLeases(s: Library, c: CallId, i: InstanceId): nat { if c in s.calls then LeasesOn(i)(s.calls[c]) else 0 }
  function CallSlots(s: Library, c: CallId, i: InstanceId): nat { if c in s.calls then SlotsOn(i)(s.calls[c]) else 0 }
  function LeasedOf(s: Library, i: InstanceId): nat { if i in s.instances then s.instances[i].leased else 0 }
  function ReservedOf(s: Library, i: InstanceId): nat { if i in s.instances then s.instances[i].reserved else 0 }
  function RefsOf(s: Library, i: InstanceId): nat { if i in s.instances then s.instances[i].refs else 0 }
  function Pinned(s: Library, i: InstanceId): nat { Bit(s.published == Some(i)) + Bit(Local(s) == Some(i)) }

  lemma OneCall(s: Library, step: Step)
    requires Enabled(s, step)
    ensures Apply(s, step).calls - {CallOf(step)} == s.calls - {CallOf(step)}
  {
  }

  /** A step moves the use count as it moves the references. */
  lemma RefsDelta(s: Library, step: Step, i: InstanceId)
    requires Enabled(s, step) && HolderOk(s) && Pinned(s, i) + ByCall(s, CallOf(step), i) <= RefsOf(s, i)
    ensures var s' := Apply(s, step);
      RefsOf(s', i) - Pinned(s', i) - ByCall(s', CallOf(step), i)
      == RefsOf(s, i) - Pinned(s, i) - ByCall(s, CallOf(step), i)
  {
    if ByACall(step) { CallRefsDelta(s, step, i); }
  }

  lemma CallRefsDelta(s: Library, step: Step, i: InstanceId)
    requires Enabled(s, step) && ByACall(step) && ByCall(s, CallOf(step), i) <= RefsOf(s, i)
    ensures var s' := Apply(s, step);
      && Pinned(s', i) == Pinned(s, i)
      && RefsOf(s', i) - ByCall(s', CallOf(step), i) == RefsOf(s, i) - ByCall(s, CallOf(step), i)
  {
  }

  /** A step moves the instance's counts as it moves what the call owns. */
  lemma CountsDelta(s: Library, step: Step, i: InstanceId)
    requires Enabled(s, step) && CallLeases(s, CallOf(step), i) <= LeasedOf(s, i)
      && CallSlots(s, CallOf(step), i) <= ReservedOf(s, i)
    ensures var s', c := Apply(s, step), CallOf(step);
      && LeasedOf(s', i) - CallLeases(s', c, i) == LeasedOf(s, i) - CallLeases(s, c, i)
      && ReservedOf(s', i) - CallSlots(s', c, i) == ReservedOf(s, i) - CallSlots(s, c, i)
  {
    if step.Acquire? || step.Release? || step.SetAside? || step.GiveBack? {
      OwningDelta(s, step, i);
    } else {
      OtherDelta(s, step, i);
    }
  }

  lemma OwningDelta(s: Library, step: Step, i: InstanceId)
    requires Enabled(s, step) && (step.Acquire? || step.Release? || step.SetAside? || step.GiveBack?)
    requires CallLeases(s, step.c, i) <= LeasedOf(s, i) && CallSlots(s, step.c, i) <= ReservedOf(s, i)
    ensures var s', c := Apply(s, step), step.c;
      && LeasedOf(s', i) - CallLeases(s', c, i) == LeasedOf(s, i) - CallLeases(s, c, i)
      && ReservedOf(s', i) - CallSlots(s', c, i) == ReservedOf(s, i) - CallSlots(s, c, i)
  {
  }

  lemma OtherDelta(s: Library, step: Step, i: InstanceId)
    requires Enabled(s, step) && !step.Acquire? && !step.Release? && !step.SetAside? && !step.GiveBack?
    ensures var s', c := Apply(s, step), CallOf(step);
      && LeasedOf(s', i) == LeasedOf(s, i) && ReservedOf(s', i) == ReservedOf(s, i)
      && CallLeases(s', c, i) == CallLeases(s, c, i) && CallSlots(s', c, i) == CallSlots(s, c, i)
  {
  }

  lemma HeldMove(s: Library, s': Library, c: CallId, i: InstanceId)
    requires s'.calls - {c} == s.calls - {c}
    ensures LeasesHeld(s', i) - CallLeases(s', c, i) == LeasesHeld(s, i) - CallLeases(s, c, i)
    ensures SlotsHeld(s', i) - CallSlots(s', c, i) == SlotsHeld(s, i) - CallSlots(s, c, i)
    ensures CallLeases(s, c, i) <= LeasesHeld(s, i) && CallSlots(s, c, i) <= SlotsHeld(s, i)
  {
    MapSumRemove(s.calls, c, LeasesOn(i));
    MapSumRemove(s'.calls, c, LeasesOn(i));
    MapSumRemove(s.calls, c, SlotsOn(i));
    MapSumRemove(s'.calls, c, SlotsOn(i));
  }

  lemma CountsKept(s: Library, step: Step, i: InstanceId)
    requires Inv(s) && Enabled(s, step)
    ensures LeasedOf(Apply(s, step), i) == LeasesHeld(Apply(s, step), i)
    ensures ReservedOf(Apply(s, step), i) == SlotsHeld(Apply(s, step), i)
  {
    if i !in s.instances {
      MapSumZero(s.calls, LeasesOn(i));
      MapSumZero(s.calls, SlotsOn(i));
    }
    OneCall(s, step);
    HeldMove(s, Apply(s, step), CallOf(step), i);
    CountsDelta(s, step, i);
  }

  lemma ReferencesMove(s: Library, s': Library, c: CallId, i: InstanceId)
    requires s'.calls - {c} == s.calls - {c}
    ensures References(s', i) - Pinned(s', i) - ByCall(s', c, i) == References(s, i) - Pinned(s, i) - ByCall(s, c, i)
    ensures Pinned(s, i) + ByCall(s, c, i) <= References(s, i)
  {
    MapCountRemove(s.calls, c, Uses(i));
    MapCountRemove(s'.calls, c, Uses(i));
  }

  lemma RefsKept(s: Library, step: Step, i: InstanceId)
    requires Inv(s) && Enabled(s, step)
    ensures RefsOf(Apply(s, step), i) == References(Apply(s, step), i)
  {
    if i !in s.instances { MapCountZero(s.calls, Uses(i)); }
    OneCall(s, step);
    ReferencesMove(s, Apply(s, step), CallOf(step), i);
    RefsDelta(s, step, i);
  }

  lemma InstancesKept(s: Library, step: Step, i: InstanceId)
    requires HolderOk(s) && Enabled(s, step) && i in Apply(s, step).instances
    requires i in s.instances ==> InstanceOk(s, i, s.instances[i])
    requires forall j :: j in s.instances && (s.published == Some(j) || Local(s) == Some(j)) ==> s.instances[j].refs > 0
    ensures InstanceOk(Apply(s, step), i, Apply(s, step).instances[i])
  {
    if ByACall(step) { CallInstancesKept(s, step, i); }
  }

  /** The steps that calls take. */
  predicate ByACall(step: Step) {
    step.BeginCall? || step.Acquire? || step.Release? || step.SetAside? || step.GiveBack? || step.EndCall?
  }

  lemma CallInstancesKept(s: Library, step: Step, i: InstanceId)
    requires HolderOk(s) && Enabled(s, step) && ByACall(step) && i in Apply(s, step).instances
    requires s.published.Some? ==> s.instances[s.published.value].refs > 0
    requires i in s.instances ==> InstanceOk(s, i, s.instances[i])
    ensures InstanceOk(Apply(s, step), i, Apply(s, step).instances[i])
  {
  }

  lemma HolderKept(s: Library, step: Step)
    requires HolderOk(s) && Enabled(s, step)
    ensures HolderOk(Apply(s, step))
  {
  }

  lemma CallKept(s: Library, step: Step, c: CallId)
    requires Enabled(s, step) && c in Apply(s, step).calls
      && (c in s.calls ==> s.calls[c].i in s.instances && s.instances[s.calls[c].i].served)
    requires s.published.Some? ==> s.published.value in s.instances && s.instances[s.published.value].served
    ensures Apply(s, step).calls[c].i in Apply(s, step).instances
      && Apply(s, step).instances[Apply(s, step).calls[c].i].served
  {
  }

  lemma CallsKept(s: Library, step: Step)
    requires HolderOk(s) && InstancesOk(s) && CallsOk(s) && Enabled(s, step)
    ensures CallsOk(Apply(s, step))
  {
    var s' := Apply(s, step);
    if s.published.Some? { assert InstanceOk(s, s.published.value, s.instances[s.published.value]); }
    forall c | c in s'.calls
      ensures s'.calls[c].i in s'.instances && s'.instances[s'.calls[c].i].served
    {
      CallKept(s, step, c);
    }
  }

  lemma RefsExactKept(s: Library, step: Step)
    requires Inv(s) && Enabled(s, step)
    ensures RefsExact(Apply(s, step)) && CountsExact(Apply(s, step))
  {
    var s' := Apply(s, step);
    forall i | i in s'.instances
      ensures s'.instances[i].refs == References(s', i)
      ensures s'.instances[i].leased == LeasesHeld(s', i) && s'.instances[i].reserved == SlotsHeld(s', i)
    {
      RefsKept(s, step, i);
      CountsKept(s, step, i);
    }
  }

  lemma Pins(s: Library, j: InstanceId)
    requires RefsExact(s) && j in s.instances && (s.published == Some(j) || Local(s) == Some(j))
    ensures s.instances[j].refs > 0
  {
  }

  lemma InstancesOkKept(s: Library, step: Step)
    requires HolderOk(s) && RefsExact(s) && InstancesOk(s) && Enabled(s, step)
    ensures InstancesOk(Apply(s, step))
  {
    var s' := Apply(s, step);
    forall j | j in s.instances && (s.published == Some(j) || Local(s) == Some(j))
      ensures s.instances[j].refs > 0
    {
      Pins(s, j);
    }
    forall i | i in s'.instances
      ensures InstanceOk(s', i, s'.instances[i])
    {
      InstancesKept(s, step, i);
    }
  }

  lemma StepKeepsInv(s: Library, step: Step)
    requires Inv(s) && Enabled(s, step)
    ensures Inv(Apply(s, step))
  {
    HolderKept(s, step);
    RefsExactKept(s, step);
    InstancesOkKept(s, step);
    CallsKept(s, step);
  }

  predicate Runs(s: Library, run: seq<Step>)
    decreases |run|
  {
    run == [] || (Enabled(s, run[0]) && Runs(Apply(s, run[0]), run[1..]))
  }

  function After(s: Library, run: seq<Step>): Library
    requires Runs(s, run)
    decreases |run|
  {
    if run == [] then s else After(Apply(s, run[0]), run[1..])
  }

  ghost predicate Reachable(s: Library) {
    exists run :: Runs(NewLibrary, run) && s == After(NewLibrary, run)
  }

  lemma {:induction false} RunKeepsInv(s: Library, run: seq<Step>)
    requires Inv(s) && Runs(s, run)
    ensures Inv(After(s, run))
    decreases |run|
  {
    if run == [] {
    } else {
      StepKeepsInv(s, run[0]);
      RunKeepsInv(Apply(s, run[0]), run[1..]);
    }
  }

  lemma ReachableInv(s: Library)
    requires Reachable(s)
    ensures Inv(s)
  {
    var run :| Runs(NewLibrary, run) && s == After(NewLibrary, run);
    RunKeepsInv(NewLibrary, run);
  }

  /** initWith() never overwrites an instance, in any interleaving with shutdown. */
  lemma PublishNeverOverwrites(s: Library)
    requires Reachable(s) && Enabled(s, Publish)
    ensures s.published.None?
  {
    ReachableInv(s);
  }

  /** Every instance that calls can ever find was created with exactly the connections asked for: the
      published one, and every one that a call still holds. */
  lemma ServedInstancesAreComplete(s: Library, i: InstanceId)
    requires Reachable(s) && (s.published == Some(i) || exists c :: c in s.calls && s.calls[c].i == i)
    ensures i in s.instances && s.instances[i].conns == s.instances[i].want
  {
    ReachableInv(s);
    assert InstanceOk(s, i, s.instances[i]);
  }

  /** At most one instance is open for transfers: an instance that has been published is the
      published one, or a shutdown has just taken it out and is about to close it, or it is closed. */
  lemma AtMostOneServes(s: Library, i: InstanceId, j: InstanceId)
    requires Reachable(s) && i in s.instances && j in s.instances
    requires s.instances[i].served && !s.instances[i].closed && s.instances[j].served && !s.instances[j].closed
    ensures i == j
  {
    ReachableInv(s);
    assert InstanceOk(s, i, s.instances[i]) && InstanceOk(s, j, s.instances[j]);
  }

  /** An instance is destroyed exactly when it is not published, no initWith() or shutdown keeps it,
      and the last call that held it has returned. Its counts of leased connections and reserved slots
      are those of the calls that hold it, so both are 0 by then. */
  lemma DestroyedAfterTheLastCall(s: Library, i: InstanceId)
    requires Reachable(s) && i in s.instances
    ensures s.instances[i].destroyed <==>
      s.published != Some(i) && Local(s) != Some(i) && forall c :: c in s.calls ==> s.calls[c].i != i
    ensures s.instances[i].leased == LeasesHeld(s, i) && s.instances[i].reserved == SlotsHeld(s, i)
    ensures s.instances[i].destroyed ==> s.instances[i].leased == 0 && s.instances[i].reserved == 0
  {
    ReachableInv(s);
    assert InstanceOk(s, i, s.instances[i]);
    if s.instances[i].destroyed {
      forall c | c in s.calls
        ensures s.calls[c].i != i
      {
        if s.calls[c].i == i { MapCountPositive(s.calls, c, Uses(i)); }
      }
      MapSumZero(s.calls, LeasesOn(i));
      MapSumZero(s.calls, SlotsOn(i));
    } else if s.published != Some(i) && Local(s) != Some(i) {
      var c := MapCountWitness(s.calls, Uses(i));
    }
  }
}
