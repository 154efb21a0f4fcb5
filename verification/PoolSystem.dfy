/** Any number of pools, threads and lease objects together. A lease object can be moved, which
    leaves its source with nothing to return; each thread counts the leases it holds, from any
    pool, and only a thread that holds none may wait. */
module PoolSystem {
  import opened Basics
  import opened PoolProtocol
  import opened Transport

  /** `Ending`: its destructor is restoring the connection. `Ended`: the pool has taken the
      connection back, and the thread's count is about to go down. */
  datatype Status = Held | Ending | Ended | MovedFrom

  datatype LeaseObject = LeaseObject(owner: Tid, pool: nat, index: nat, status: Status)

  datatype System = System(pools: seq<Pool>, leases: map<Handle, LeaseObject>, counts: map<Tid, nat>)

  datatype Action =
    | Local(p: nat, step: Step)
    | AcquireBy(p: nat, t: Tid, h: Handle)
    | MoveLease(h: Handle, to: Handle)
    | BeginEnd(h: Handle)
    | TakeBack(h: Handle)
    | Uncount(h: Handle)
    | Forget(h: Handle)

  /** The steps that neither name a thread that starts to wait nor change who holds a slot. */
  predicate IsLocal(step: Step) {
    !step.Acquire? && !step.EndLease? && !step.Finish? && !step.Rename?
  }

  function Waiting(p: Pool): set<Tid> { p.sleeping + p.awake }

  function CountOf(s: System, t: Tid): nat { if t in s.counts then s.counts[t] else 0 }

  function LeaseStep(s: System, h: Handle): Step
    requires h in s.leases
  {
    if s.leases[h].status == Held then EndLease(s.leases[h].index) else Finish(s.leases[h].index)
  }

  predicate CanDo(s: System, a: Action) {
    match a
    case Local(p, step) => p < |s.pools| && IsLocal(step) && Enabled(s.pools[p], step)
    case AcquireBy(p, t, h) =>
      && p < |s.pools| && h !in s.leases
      && (forall q :: 0 <= q < |s.pools| ==> t !in s.pools[q].sleeping)
      && (forall q :: 0 <= q < |s.pools| ==> t in s.pools[q].awake ==> q == p)
    case MoveLease(h, to) =>
      && h in s.leases && s.leases[h].status == Held && to !in s.leases
      && s.leases[h].pool < |s.pools|
      && Enabled(s.pools[s.leases[h].pool], Rename(s.leases[h].index, to))
    case BeginEnd(h) =>
      && h in s.leases && s.leases[h].status == Held && s.leases[h].pool < |s.pools|
      && Enabled(s.pools[s.leases[h].pool], LeaseStep(s, h))
    case TakeBack(h) =>
      && h in s.leases && s.leases[h].status == Ending && s.leases[h].pool < |s.pools|
      && Enabled(s.pools[s.leases[h].pool], LeaseStep(s, h))
    case Uncount(h) => h in s.leases && s.leases[h].status == Ended
    case Forget(h) => h in s.leases && s.leases[h].status == MovedFrom
  }

  /** What acquire() answers, or Wait when it goes to sleep. */
  function Answer(s: System, p: nat, t: Tid): Outcome
    requires p < |s.pools|
  {
    AcquirePass(s.pools[p].free, s.pools[p].live, s.pools[p].closed, CountOf(s, t) > 0)
  }

  function Do(s: System, a: Action): System
    requires CanDo(s, a)
  {
    match a
    case Local(p, step) => s.(pools := s.pools[p := Apply(s.pools[p], step)])
    case AcquireBy(p, t, h) =>
      var out := Answer(s, p, t);
      var s1 := s.(pools := s.pools[p := Apply(s.pools[p], Acquire(t, CountOf(s, t) > 0, h))]);
      if out.Lease? then
        s1.(leases := s.leases[h := LeaseObject(t, p, out.index, Held)],
            counts := s.counts[t := CountOf(s, t) + 1])
      else s1
    case MoveLease(h, to) =>
      var l := s.leases[h];
      s.(pools := s.pools[l.pool := Apply(s.pools[l.pool], Rename(l.index, to))],
         leases := s.leases[h := l.(status := MovedFrom)][to := l])
    case BeginEnd(h) =>
      var l := s.leases[h];
      s.(pools := s.pools[l.pool := Apply(s.pools[l.pool], LeaseStep(s, h))],
         leases := s.leases[h := l.(status := Ending)])
    case TakeBack(h) =>
      var l := s.leases[h];
      s.(pools := s.pools[l.pool := Apply(s.pools[l.pool], LeaseStep(s, h))],
         leases := s.leases[h := l.(status := Ended)])
    case Uncount(h) =>
      var t := s.leases[h].owner;
      s.(leases := s.leases - {h}, counts := s.counts[t := Pred(CountOf(s, t))])
    case Forget(h) => s.(leases := s.leases - {h})
  }

  // ----- Runs -----

  function NewSystem(sizes: seq<nat>): System {
    System(seq(|sizes|, i requires 0 <= i < |sizes| => NewPool(sizes[i])), map[], map[])
  }

  predicate Runs(s: System, run: seq<Action>)
    decreases |run|
  {
    run == [] || (CanDo(s, run[0]) && Runs(Do(s, run[0]), run[1..]))
  }

  function After(s: System, run: seq<Action>): System
    requires Runs(s, run)
    decreases |run|
  {
    if run == [] then s else After(Do(s, run[0]), run[1..])
  }

  // ----- What every action keeps -----

  /** The lease objects whose thread still counts them. */
  function Counted(s: System, t: Tid): set<Handle> {
    set h | h in s.leases && s.leases[h].owner == t && s.leases[h].status != MovedFrom
  }

  ghost predicate PoolsOk(s: System) {
    forall p :: 0 <= p < |s.pools| ==> Inv(s.pools[p])
  }

  /** A lease object names a slot whose role names the object. */
  predicate ObjectOk(s: System, l: LeaseObject, h: Handle) {
    l.status == Held || l.status == Ending ==>
      && l.pool < |s.pools| && l.index < |s.pools[l.pool].slots|
      && var role := s.pools[l.pool].slots[l.index].role;
         if l.status == Held then role.Leased? && role.holder == h else role.Releasing? && role.holder == h
  }

  ghost predicate ObjectsOk(s: System) {
    forall h :: h in s.leases ==> ObjectOk(s, s.leases[h], h)
  }

  predicate RoleOk(s: System, p: nat, i: nat, role: Role) {
    && (role.Leased? ==> role.holder in s.leases && s.leases[role.holder].pool == p
                         && s.leases[role.holder].index == i && s.leases[role.holder].status == Held)
    && (role.Releasing? ==> role.holder in s.leases && s.leases[role.holder].pool == p
                            && s.leases[role.holder].index == i && s.leases[role.holder].status == Ending)
  }

  /** Every leased or restoring slot is named by a lease object. */
  ghost predicate RolesOk(s: System) {
    forall p, i :: 0 <= p < |s.pools| && 0 <= i < |s.pools[p].slots| ==>
      RoleOk(s, p, i, s.pools[p].slots[i].role)
  }

  /** Each thread's counter is the number of leases it owns, and a waiting thread owns none. */
  ghost predicate CountsOk(s: System) {
    forall t: Tid :: CountOf(s, t) == |Counted(s, t)|
  }

  ghost predicate WaitersOk(s: System) {
    && (forall p, t :: 0 <= p < |s.pools| && t in Waiting(s.pools[p]) ==> CountOf(s, t) == 0)
    && (forall p, q, t ::
          (0 <= p < |s.pools| && 0 <= q < |s.pools| && t in Waiting(s.pools[p]) && t in Waiting(s.pools[q]))
          ==> p == q)
  }

  ghost predicate SystemInv(s: System) {
    PoolsOk(s) && ObjectsOk(s) && RolesOk(s) && CountsOk(s) && WaitersOk(s)
  }

  // ----- Proofs -----

  /** The step of its own pool that an action takes, if it takes one. */
  function PoolStep(s: System, a: Action): Option<(nat, Step)>
    requires CanDo(s, a)
  {
    match a
    case Local(p, step) => Some((p, step))
    case AcquireBy(p, t, h) => Some((p, Acquire(t, CountOf(s, t) > 0, h)))
    case MoveLease(h, to) => Some((s.leases[h].pool, Rename(s.leases[h].index, to)))
    case BeginEnd(h) => Some((s.leases[h].pool, LeaseStep(s, h)))
    case TakeBack(h) => Some((s.leases[h].pool, LeaseStep(s, h)))
    case Uncount(h) => None
    case Forget(h) => None
  }

  lemma PoolsKept(s: System, a: Action)
    requires PoolsOk(s) && CanDo(s, a)
    ensures PoolsOk(Do(s, a))
  {
    match PoolStep(s, a)
    case None =>
    case Some((p, step)) => StepKeepsInv(s.pools[p], step);
  }

  predicate SameHolders(p: Pool, p': Pool) {
    && |p'.slots| == |p.slots|
    && (forall i :: 0 <= i < |p.slots| ==> SameHolder(p.slots[i].role, p'.slots[i].role))
  }

  predicate SameHolder(r: Role, r': Role) {
    && r.Leased? == r'.Leased? && r.Releasing? == r'.Releasing?
    && (r.Leased? || r.Releasing? ==> r.holder == r'.holder)
  }

  lemma LocalKeepsHolders(p: Pool, step: Step)
    requires Enabled(p, step) && IsLocal(step)
    ensures SameHolders(p, Apply(p, step))
    ensures Waiting(Apply(p, step)) == Waiting(p)
  {
    OneSlot(p, step);
    if Touched(p, step).Some? {
      var i := Touched(p, step).value;
      assert SameHolder(p.slots[i].role, Apply(p, step).slots[i].role);
    }
  }

  /** The system after slot `i` of pool `p` and the lease objects changed. */
  predicate Replaces(s: System, s': System, p: nat, i: nat, role: Role) {
    && p < |s.pools| && |s'.pools| == |s.pools|
    && i < |s.pools[p].slots| && |s'.pools[p].slots| == |s.pools[p].slots|
    && (forall q :: 0 <= q < |s.pools| && q != p ==> s'.pools[q].slots == s.pools[q].slots)
    && (forall j :: 0 <= j < |s.pools[p].slots| && j != i ==> s'.pools[p].slots[j] == s.pools[p].slots[j])
    && s'.pools[p].slots[i].role == role
  }

  lemma LinkSame(s: System, s': System, p: nat)
    requires ObjectsOk(s) && RolesOk(s)
    requires p < |s.pools| && |s'.pools| == |s.pools| && s'.leases == s.leases
    requires forall q :: 0 <= q < |s.pools| && q != p ==> s'.pools[q].slots == s.pools[q].slots
    requires SameHolders(s.pools[p], s'.pools[p])
    ensures ObjectsOk(s') && RolesOk(s')
  {
    forall q, i | 0 <= q < |s'.pools| && 0 <= i < |s'.pools[q].slots|
      ensures RoleOk(s', q, i, s'.pools[q].slots[i].role)
    {
      assert RoleOk(s, q, i, s.pools[q].slots[i].role);
    }
  }

  /** A free slot gets a holder. */
  lemma LinkLease(s: System, s': System, p: nat, i: nat, h: Handle, l: LeaseObject, role: Role)
    requires ObjectsOk(s) && RolesOk(s) && Replaces(s, s', p, i, role)
    requires s.pools[p].slots[i].role.Free? && role.Leased? && role.holder == h
    requires h !in s.leases && l.pool == p && l.index == i && l.status == Held
    requires s'.leases == s.leases[h := l]
    ensures ObjectsOk(s') && RolesOk(s')
  {
    forall q, j | 0 <= q < |s'.pools| && 0 <= j < |s'.pools[q].slots|
      ensures RoleOk(s', q, j, s'.pools[q].slots[j].role)
    {
      assert RoleOk(s, q, j, s.pools[q].slots[j].role);
    }
  }

  /** The holder of a slot changes, or moves on to the next stage. */
  lemma LinkStage(s: System, s': System, h: Handle, to: Handle, st: Status, role: Role)
    requires ObjectsOk(s) && RolesOk(s)
    requires h in s.leases && (s.leases[h].status == Held || s.leases[h].status == Ending)
    requires Replaces(s, s', s.leases[h].pool, s.leases[h].index, role)
    requires to == h || to !in s.leases
    requires s'.leases == s.leases[h := s.leases[h].(status := MovedFrom)][to := s.leases[h].(status := st)]
    requires st == Held ==> role.Leased? && role.holder == to
    requires st == Ending ==> role.Releasing? && role.holder == to
    requires st == Ended ==> role.Free? || role.Dropped?
    requires st != MovedFrom
    ensures ObjectsOk(s') && RolesOk(s')
  {
    assert ObjectOk(s, s.leases[h], h);
    forall g | g in s'.leases
      ensures ObjectOk(s', s'.leases[g], g)
    {
      ObjectStays(s, s', h, to, st, role, g);
    }
    forall q, j | 0 <= q < |s'.pools| && 0 <= j < |s'.pools[q].slots|
      ensures RoleOk(s', q, j, s'.pools[q].slots[j].role)
    {
      assert RoleOk(s, q, j, s.pools[q].slots[j].role);
    }
  }

  lemma ObjectStays(s: System, s': System, h: Handle, to: Handle, st: Status, role: Role, g: Handle)
    requires ObjectsOk(s) && h in s.leases && (s.leases[h].status == Held || s.leases[h].status == Ending)
    requires Replaces(s, s', s.leases[h].pool, s.leases[h].index, role)
    requires to == h || to !in s.leases
    requires s'.leases == s.leases[h := s.leases[h].(status := MovedFrom)][to := s.leases[h].(status := st)]
    requires st == Held ==> role.Leased? && role.holder == to
    requires st == Ending ==> role.Releasing? && role.holder == to
    requires g in s'.leases
    ensures ObjectOk(s', s'.leases[g], g)
  {
    assert ObjectOk(s, s.leases[h], h);
    if g in s.leases { assert ObjectOk(s, s.leases[g], g); }
  }

  lemma ObjectsKept(s: System, a: Action)
    requires PoolsOk(s) && ObjectsOk(s) && RolesOk(s) && CanDo(s, a)
    ensures ObjectsOk(Do(s, a)) && RolesOk(Do(s, a))
  {
    var s' := Do(s, a);
    match a
    case Local(p, step) =>
      LocalKeepsHolders(s.pools[p], step);
      LinkSame(s, s', p);
    case AcquireBy(p, t, h) => AcquireLinks(s, p, t, h);
    case MoveLease(h, to) => LeaseLinks(s, h, to, Held, Rename(s.leases[h].index, to), s');
    case BeginEnd(h) => LeaseLinks(s, h, h, Ending, EndLease(s.leases[h].index), s');
    case TakeBack(h) => LeaseLinks(s, h, h, Ended, Finish(s.leases[h].index), s');
    case Uncount(h) => LinkDrop(s, s', h);
    case Forget(h) => LinkDrop(s, s', h);
  }

  lemma LeaseLinks(s: System, h: Handle, to: Handle, st: Status, step: Step, s': System)
    requires ObjectsOk(s) && RolesOk(s)
    requires h in s.leases && s.leases[h].pool < |s.pools| && (to == h || to !in s.leases)
    requires || (st == Held && s.leases[h].status == Held && step == Rename(s.leases[h].index, to))
             || (st == Ending && s.leases[h].status == Held && step == EndLease(s.leases[h].index) && to == h)
             || (st == Ended && s.leases[h].status == Ending && step == Finish(s.leases[h].index) && to == h)
    requires Enabled(s.pools[s.leases[h].pool], step)
    requires s'.pools == s.pools[s.leases[h].pool := Apply(s.pools[s.leases[h].pool], step)]
    requires s'.leases == s.leases[h := s.leases[h].(status := MovedFrom)][to := s.leases[h].(status := st)]
    ensures ObjectsOk(s') && RolesOk(s')
  {
    var l := s.leases[h];
    assert ObjectOk(s, l, h);
    OneSlot(s.pools[l.pool], step);
    LinkStage(s, s', h, to, st, s'.pools[l.pool].slots[l.index].role);
  }

  lemma LinkDrop(s: System, s': System, h: Handle)
    requires ObjectsOk(s) && RolesOk(s)
    requires h in s.leases && (s.leases[h].status == Ended || s.leases[h].status == MovedFrom)
    requires s'.pools == s.pools && s'.leases == s.leases - {h}
    ensures ObjectsOk(s') && RolesOk(s')
  {
    forall q, j | 0 <= q < |s'.pools| && 0 <= j < |s'.pools[q].slots|
      ensures RoleOk(s', q, j, s'.pools[q].slots[j].role)
    {
      assert RoleOk(s, q, j, s.pools[q].slots[j].role);
    }
  }

  lemma AcquireLinks(s: System, p: nat, t: Tid, h: Handle)
    requires PoolsOk(s) && ObjectsOk(s) && RolesOk(s) && CanDo(s, AcquireBy(p, t, h))
    ensures ObjectsOk(Do(s, AcquireBy(p, t, h))) && RolesOk(Do(s, AcquireBy(p, t, h)))
  {
    var s' := Do(s, AcquireBy(p, t, h));
    var pool := s.pools[p];
    var out := Answer(s, p, t);
    assert Inv(pool);
    if out.Lease? {
      assert out.index == pool.free[|pool.free| - 1];
      var role := Leased(h, pool.leases, Unconnected);
      assert s'.pools[p].slots == pool.slots[out.index := pool.slots[out.index].(role := role)];
      LinkLease(s, s', p, out.index, h, s'.leases[h], role);
    } else {
      assert s'.pools[p].slots == pool.slots;
      LinkSame(s, s', p);
    }
  }

  lemma CountsSame(s: System, s': System)
    requires CountsOk(s) && s'.counts == s.counts
    requires forall t: Tid :: |Counted(s', t)| == |Counted(s, t)|
    ensures CountsOk(s')
  {
    forall t: Tid
      ensures CountOf(s', t) == |Counted(s', t)|
    {
      assert CountOf(s, t) == |Counted(s, t)|;
    }
  }

  lemma CountsMore(s: System, s': System, h: Handle, l: LeaseObject)
    requires CountsOk(s) && h !in s.leases && l.status == Held
    requires s'.leases == s.leases[h := l] && s'.counts == s.counts[l.owner := CountOf(s, l.owner) + 1]
    ensures CountsOk(s')
  {
    forall t: Tid
      ensures CountOf(s', t) == |Counted(s', t)|
    {
      assert CountOf(s, t) == |Counted(s, t)|;
      if t == l.owner {
        assert h !in Counted(s, t);
        assert Counted(s', t) == Counted(s, t) + {h};
      } else {
        assert Counted(s', t) == Counted(s, t);
      }
    }
  }

  lemma CountsLess(s: System, s': System, h: Handle)
    requires CountsOk(s) && h in s.leases && s.leases[h].status == Ended
    requires s'.leases == s.leases - {h}
    requires s'.counts == s.counts[s.leases[h].owner := Pred(CountOf(s, s.leases[h].owner))]
    ensures CountsOk(s')
  {
    forall t: Tid
      ensures CountOf(s', t) == |Counted(s', t)|
    {
      assert CountOf(s, t) == |Counted(s, t)|;
      if t == s.leases[h].owner {
        assert h in Counted(s, t);
        assert Counted(s', t) == Counted(s, t) - {h};
      } else {
        assert Counted(s', t) == Counted(s, t);
      }
    }
  }

  lemma CountsMoved(s: System, s': System, h: Handle, to: Handle)
    requires CountsOk(s) && h in s.leases && s.leases[h].status == Held && to !in s.leases
    requires s'.leases == s.leases[h := s.leases[h].(status := MovedFrom)][to := s.leases[h]]
    requires s'.counts == s.counts
    ensures CountsOk(s')
  {
    forall t: Tid
      ensures |Counted(s', t)| == |Counted(s, t)|
    {
      if s.leases[h].owner == t {
        assert h in Counted(s, t) && to !in Counted(s, t);
        assert Counted(s', t) == Counted(s, t) - {h} + {to};
      } else {
        assert Counted(s', t) == Counted(s, t);
      }
    }
    CountsSame(s, s');
  }

  lemma CountsUnchanged(s: System, s': System)
    requires CountsOk(s) && s'.counts == s.counts
    requires forall h :: h in s.leases && h !in s'.leases ==> s.leases[h].status == MovedFrom
    requires forall h :: h in s'.leases ==>
      && h in s.leases && s'.leases[h].owner == s.leases[h].owner
      && (s'.leases[h].status == MovedFrom <==> s.leases[h].status == MovedFrom)
    ensures CountsOk(s')
  {
    forall t: Tid
      ensures |Counted(s', t)| == |Counted(s, t)|
    {
      assert Counted(s', t) == Counted(s, t);
    }
    CountsSame(s, s');
  }

  lemma CountsKept(s: System, a: Action)
    requires CountsOk(s) && CanDo(s, a)
    ensures CountsOk(Do(s, a))
  {
    var s' := Do(s, a);
    match a
    case AcquireBy(p, t, h) =>
      if h in s'.leases { CountsMore(s, s', h, s'.leases[h]); } else { CountsUnchanged(s, s'); }
    case MoveLease(h, to) => CountsMoved(s, s', h, to);
    case Uncount(h) => CountsLess(s, s', h);
    case _ => CountsUnchanged(s, s');
  }

  /** The threads that wait in each pool, and the counts, after an action. */
  lemma WaitersMove(s: System, s': System, p: nat, t: Tid)
    requires WaitersOk(s) && p < |s.pools| && |s'.pools| == |s.pools|
    requires forall q :: 0 <= q < |s.pools| && q != p ==> s'.pools[q] == s.pools[q]
    requires Waiting(s'.pools[p]) <= Waiting(s.pools[p]) + {t}
    requires t in Waiting(s'.pools[p]) ==>
      CountOf(s', t) == 0 && forall q :: 0 <= q < |s.pools| && t in Waiting(s.pools[q]) ==> q == p
    requires forall u: Tid :: u != t ==> CountOf(s', u) <= CountOf(s, u)
    requires forall q :: 0 <= q < |s.pools| && t in Waiting(s'.pools[q]) ==> CountOf(s', t) == 0
    ensures WaitersOk(s')
  {
  }

  lemma WaitersSame(s: System, s': System)
    requires WaitersOk(s) && |s'.pools| == |s.pools|
    requires forall q :: 0 <= q < |s.pools| ==> Waiting(s'.pools[q]) == Waiting(s.pools[q])
    requires forall t: Tid :: CountOf(s', t) <= CountOf(s, t)
    ensures WaitersOk(s')
  {
    forall p, t | 0 <= p < |s'.pools| && t in Waiting(s'.pools[p])
      ensures CountOf(s', t) == 0
    {
      assert t in Waiting(s.pools[p]);
    }
  }

  lemma WaitersKept(s: System, a: Action)
    requires WaitersOk(s) && CanDo(s, a)
    ensures WaitersOk(Do(s, a))
  {
    var s' := Do(s, a);
    match a
    case Local(p, step) =>
      LocalKeepsHolders(s.pools[p], step);
      WaitersSame(s, s');
    case AcquireBy(p, t, h) => AcquireWaiters(s, p, t, h);
    case Uncount(_) => WaitersSame(s, s');
    case Forget(_) => WaitersSame(s, s');
    case _ => LeaseWaiters(s, a);
  }

  lemma LeaseWaiters(s: System, a: Action)
    requires WaitersOk(s) && CanDo(s, a) && (a.MoveLease? || a.BeginEnd? || a.TakeBack?)
    ensures WaitersOk(Do(s, a))
  {
    WaitersSame(s, Do(s, a));
  }

  lemma AcquireWaiters(s: System, p: nat, t: Tid, h: Handle)
    requires WaitersOk(s) && CanDo(s, AcquireBy(p, t, h))
    ensures WaitersOk(Do(s, AcquireBy(p, t, h)))
  {
    WaitersMove(s, Do(s, AcquireBy(p, t, h)), p, t);
  }

  lemma ActionKeepsInv(s: System, a: Action)
    requires SystemInv(s) && CanDo(s, a)
    ensures SystemInv(Do(s, a))
  {
    PoolsKept(s, a);
    ObjectsKept(s, a);
    CountsKept(s, a);
    WaitersKept(s, a);
  }

  // ----- Results about every run -----

  lemma {:induction false} RunKeepsInv(s: System, run: seq<Action>)
    requires SystemInv(s) && Runs(s, run)
    ensures SystemInv(After(s, run))
    decreases |run|
  {
    if run == [] {
    } else {
      ActionKeepsInv(s, run[0]);
      RunKeepsInv(Do(s, run[0]), run[1..]);
    }
  }

  lemma NewSystemInv(sizes: seq<nat>)
    ensures SystemInv(NewSystem(sizes))
  {
    var s := NewSystem(sizes);
    forall p | 0 <= p < |s.pools|
      ensures Inv(s.pools[p])
    {
      NewPoolInv(sizes[p]);
    }
    forall t: Tid
      ensures CountOf(s, t) == |Counted(s, t)|
    {
      assert Counted(s, t) == {};
    }
  }

  ghost predicate Reachable(s: System) {
    exists sizes: seq<nat>, run :: Runs(NewSystem(sizes), run) && s == After(NewSystem(sizes), run)
  }

  /** Every state that any interleaving reaches satisfies the invariant. */
  lemma ReachableInv(s: System)
    requires Reachable(s)
    ensures SystemInv(s)
  {
    var sizes: seq<nat>, run :| Runs(NewSystem(sizes), run) && s == After(NewSystem(sizes), run);
    NewSystemInv(sizes);
    RunKeepsInv(NewSystem(sizes), run);
  }

  /** No lost wake-up: a thread never sleeps with nothing on its way to wake it while its pool is
      closed, empty or has a connection for it. */
  lemma NoLostWakeup(s: System, p: nat)
    requires Reachable(s) && p < |s.pools| && s.pools[p].sleeping != {}
    ensures s.pools[p].closed || s.pools[p].live == 0 ==> s.pools[p].alls > 0
    ensures !s.pools[p].closed ==> |s.pools[p].free| <= s.pools[p].ones + |s.pools[p].awake|
  {
    ReachableInv(s);
    assert Inv(s.pools[p]);
  }

  /** Thread `u` waits in no pool. */
  predicate NotWaiting(s: System, u: Tid) {
    forall q :: 0 <= q < |s.pools| ==> u !in Waiting(s.pools[q])
  }

  predicate HoldsIn(s: System, h: Handle, p: nat) {
    h in s.leases && s.leases[h].pool == p && (s.leases[h].status == Held || s.leases[h].status == Ending)
  }

  lemma TakenSlot(pool: Pool) returns (i: nat)
    requires Counts(pool) && pool.live > |pool.free| && FreeList(pool)
    ensures i < |pool.slots| && (pool.slots[i].role.Leased? || pool.slots[i].role.Releasing?)
  {
    if Count(pool.slots, IsLeased) > 0 {
      i := CountWitness(pool.slots, IsLeased);
    } else {
      i := CountWitness(pool.slots, IsReleasing);
    }
  }

  /** No deadlock through acquire(), across all pools: while a thread sleeps, a notification is
      due in its pool, or an awakened thread is about to look again, or a connection of that pool
      is held by a thread that waits in no pool at all, so it can go on and return it. */
  lemma SleeperIsNeverStuck(s: System, p: nat, t: Tid)
    requires Reachable(s) && p < |s.pools| && t in s.pools[p].sleeping
    ensures || s.pools[p].alls > 0 || s.pools[p].ones > 0 || s.pools[p].awake != {}
            || (exists h :: HoldsIn(s, h, p) && NotWaiting(s, s.leases[h].owner) && s.leases[h].owner != t)
  {
    ReachableInv(s);
    var pool := s.pools[p];
    assert Inv(pool);
    if pool.alls == 0 && pool.ones == 0 && pool.awake == {} {
      var i := TakenSlot(pool);
      var h := pool.slots[i].role.holder;
      assert RoleOk(s, p, i, pool.slots[i].role);
      assert h in Counted(s, s.leases[h].owner);
      assert CountOf(s, s.leases[h].owner) > 0;
      assert t in Waiting(pool);
      assert HoldsIn(s, h, p);
    }
  }

  /** Two lease objects never share a connection, and neither is on the free list. */
  lemma LeasesAreExclusive(s: System, p: nat, g: Handle, h: Handle)
    requires Reachable(s) && HoldsIn(s, g, p) && HoldsIn(s, h, p) && g != h
    ensures p < |s.pools| && s.leases[g].index != s.leases[h].index
    ensures s.leases[g].index !in s.pools[p].free && s.leases[h].index !in s.pools[p].free
  {
    ReachableInv(s);
    assert ObjectOk(s, s.leases[g], g) && ObjectOk(s, s.leases[h], h);
    assert Inv(s.pools[p]);
  }

  function HoldersBelow(s: System, p: nat, n: nat): set<Handle> {
    set h | h in s.leases && HoldsIn(s, h, p) && s.leases[h].index < n
  }

  lemma {:induction false} HoldersCounted(s: System, p: nat, n: nat)
    requires ObjectsOk(s) && RolesOk(s) && p < |s.pools| && n <= |s.pools[p].slots|
    ensures |HoldersBelow(s, p, n)| ==
      Count(s.pools[p].slots[..n], IsLeased) + Count(s.pools[p].slots[..n], IsReleasing)
  {
    var slots := s.pools[p].slots;
    if n == 0 {
      assert HoldersBelow(s, p, 0) == {};
    } else {
      HoldersCounted(s, p, n - 1);
      assert slots[..n] == slots[..n - 1] + [slots[n - 1]];
      CountAppend(slots[..n - 1], slots[n - 1], IsLeased);
      CountAppend(slots[..n - 1], slots[n - 1], IsReleasing);
      HoldersStep(s, p, n);
    }
  }

  lemma HoldersStep(s: System, p: nat, n: nat)
    requires ObjectsOk(s) && RolesOk(s) && p < |s.pools| && 0 < n <= |s.pools[p].slots|
    ensures var role := s.pools[p].slots[n - 1].role;
      |HoldersBelow(s, p, n)| == |HoldersBelow(s, p, n - 1)| + Bit(role.Leased? || role.Releasing?)
  {
    var role := s.pools[p].slots[n - 1].role;
    assert RoleOk(s, p, n - 1, role);
    forall h | HoldsIn(s, h, p)
      ensures s.leases[h].index == n - 1 ==> (role.Leased? || role.Releasing?) && role.holder == h
    {
      assert ObjectOk(s, s.leases[h], h);
    }
    if role.Leased? || role.Releasing? {
      assert HoldersBelow(s, p, n) == HoldersBelow(s, p, n - 1) + {role.holder};
    } else {
      assert HoldersBelow(s, p, n) == HoldersBelow(s, p, n - 1);
    }
  }

  /** Pool accounting in every interleaving: the live connections are the free ones plus those that
      lease objects hold or are returning, and the pool never has more queue pairs than slots. */
  lemma LiveIsFreePlusHeld(s: System, p: nat)
    requires Reachable(s) && p < |s.pools|
    ensures NoDuplicates(s.pools[p].free)
    ensures s.pools[p].live ==
      |s.pools[p].free| + |set h | h in s.leases && HoldsIn(s, h, p)|
    ensures s.pools[p].qps <= |s.pools[p].slots|
  {
    ReachableInv(s);
    var pool := s.pools[p];
    assert Inv(pool);
    HoldersCounted(s, p, |pool.slots|);
    assert pool.slots[..|pool.slots|] == pool.slots;
    forall h | HoldsIn(s, h, p)
      ensures s.leases[h].index < |pool.slots|
    {
      assert ObjectOk(s, s.leases[h], h);
    }
    assert HoldersBelow(s, p, |pool.slots|) == set h | h in s.leases && HoldsIn(s, h, p);
    CountBound(pool.slots, OwnsQp);
  }

  /** Under any pattern of verb failures, a free connection is in INIT with an empty completion
      queue, and so is one a lease has not connected. */
  lemma FreeConnectionsAreClean(s: System, p: nat, i: nat)
    requires Reachable(s) && p < |s.pools| && i < |s.pools[p].slots|
    ensures i in s.pools[p].free ==> Clean(s.pools[p].slots[i])
    ensures s.pools[p].slots[i].role.Leased? && s.pools[p].slots[i].role.use == Unconnected ==>
      Clean(s.pools[p].slots[i])
  {
    ReachableInv(s);
    assert Inv(s.pools[p]);
    assert SlotOk(s.pools[p].slots[i]);
  }

  /** Every modify_qp ever issued was a legal transition, but for the RTS request of a connection that
      failed by itself after its RTR request, which asks for RTS from ERR; and every completion a
      transfer consumed arrived during its own lease. */
  lemma TransfersSeeOnlyTheirOwn(s: System, p: nat, k: nat)
    requires Reachable(s) && p < |s.pools|
    ensures k < |s.pools[p].issued| ==>
      var issue := s.pools[p].issued[k];
      && (LegalTransition(issue.asked.from, issue.asked.to) <==> !issue.failedItself)
      && (issue.failedItself ==> issue.asked == Modify(Err, Rts))
    ensures k < |s.pools[p].consumed| ==> s.pools[p].consumed[k].completion.lease == s.pools[p].consumed[k].lease
  {
    ReachableInv(s);
    assert Inv(s.pools[p]);
    if k < |s.pools[p].issued| { assert IssueOk(s.pools[p].issued[k]); }
  }

  /** Each thread's counter equals the leases it owns, moves included; a waiting thread owns none;
      and acquire() answers Busy only to a thread that owns one, and waits only in one that does not. */
  lemma BusyOnlyToHolders(s: System, p: nat, t: Tid)
    requires Reachable(s) && p < |s.pools|
    ensures CountOf(s, t) == |Counted(s, t)|
    ensures t in Waiting(s.pools[p]) ==> Counted(s, t) == {}
    ensures Answer(s, p, t) == Busy ==> Counted(s, t) != {} && s.pools[p].live > 0
    ensures Answer(s, p, t) == Wait ==> Counted(s, t) == {}
  {
    ReachableInv(s);
    assert CountOf(s, t) == |Counted(s, t)|;
  }

  /** What a pass of acquire() answers, in every reachable state: a closed pool answers Closed, even with
      connections to spare, and an open one leases the last free connection if it has one. */
  lemma PassAnswers(s: System, p: nat, t: Tid)
    requires Reachable(s) && p < |s.pools|
    ensures var pool, out := s.pools[p], Answer(s, p, t);
      && (out == Closed <==> pool.closed)
      && (out.Lease? <==> !pool.closed && pool.free != [])
      && (out.Lease? ==> pool.free != [] && out.index == pool.free[|pool.free| - 1])
      && (out == NoConnections <==> !pool.closed && pool.free == [] && pool.live == 0)
      && (out == Busy <==> !pool.closed && pool.free == [] && pool.live > 0 && Counted(s, t) != {})
      && (out == Wait <==> !pool.closed && pool.free == [] && pool.live > 0 && Counted(s, t) == {})
  {
    ReachableInv(s);
    assert CountOf(s, t) == |Counted(s, t)|;
  }

  /** A closed pool stays closed and leases nothing: `leases` counts the leases that were ever made. */
  lemma {:induction false} ClosedForever(s: System, run: seq<Action>, p: nat)
    requires Runs(s, run) && p < |s.pools| && s.pools[p].closed
    ensures p < |After(s, run).pools| && After(s, run).pools[p].closed
    ensures After(s, run).pools[p].leases == s.pools[p].leases
    decreases |run|
  {
    if run == [] {
    } else {
      ClosedStays(s, run[0], p);
      ClosedForever(Do(s, run[0]), run[1..], p);
    }
  }

  lemma ClosedStays(s: System, a: Action, p: nat)
    requires CanDo(s, a) && p < |s.pools| && s.pools[p].closed
    ensures p < |Do(s, a).pools| && Do(s, a).pools[p].closed && Do(s, a).pools[p].leases == s.pools[p].leases
  {
    match PoolStep(s, a)
    case None =>
    case Some((q, step)) =>
      if q == p { ClosedPoolStays(s.pools[p], step); }
  }

  lemma ClosedPoolStays(p: Pool, step: Step)
    requires Enabled(p, step) && p.closed
    ensures Apply(p, step).closed && Apply(p, step).leases == p.leases
  {
    if !step.Acquire? && !step.Finish? && Touched(p, step).Some? { SameLeases(p, step); }
  }

  lemma SameLeases(p: Pool, step: Step)
    requires Enabled(p, step) && Touched(p, step).Some? && !step.Acquire? && !step.Finish?
    ensures Apply(p, step).closed == p.closed && Apply(p, step).leases == p.leases
  {
  }

  /** Every lease is counted: one that is made raises the count of its pool. */
  lemma LeasesAreCounted(s: System, p: nat, t: Tid, h: Handle)
    requires Reachable(s) && CanDo(s, AcquireBy(p, t, h))
    ensures var s' := Do(s, AcquireBy(p, t, h));
      h in s'.leases <==> p < |s'.pools| && s'.pools[p].leases == s.pools[p].leases + 1
  {
  }

  /** A move hands the connection to the new object, counts nothing, and leaves the old one with none. */
  lemma MovesAreExact(s: System, h: Handle, to: Handle)
    requires Reachable(s) && CanDo(s, MoveLease(h, to))
    ensures var s', l := Do(s, MoveLease(h, to)), s.leases[h];
      && h in s'.leases && s'.leases[h].status == MovedFrom && to in s'.leases && s'.leases[to] == l
      && l.pool < |s'.pools| && l.index < |s'.pools[l.pool].slots|
      && s'.pools[l.pool].slots[l.index].role.Leased? && s'.pools[l.pool].slots[l.index].role.holder == to
      && Counted(s', l.owner) == Counted(s, l.owner) - {h} + {to} && CountOf(s', l.owner) == CountOf(s, l.owner)
  {
    ReachableInv(s);
    assert ObjectOk(s, s.leases[h], h);
    OneSlot(s.pools[s.leases[h].pool], Rename(s.leases[h].index, to));
  }

  /** A lease that has ended is forgotten, and its thread owns one fewer. */
  lemma UncountingIsExact(s: System, h: Handle)
    requires Reachable(s) && CanDo(s, Uncount(h))
    ensures var s', t := Do(s, Uncount(h)), s.leases[h].owner;
      h !in s'.leases && Counted(s', t) == Counted(s, t) - {h} && CountOf(s', t) == CountOf(s, t) - 1
  {
    ReachableInv(s);
    assert h in Counted(s, s.leases[h].owner);
    assert CountOf(s, s.leases[h].owner) == |Counted(s, s.leases[h].owner)|;
  }

  lemma {:induction false} DroppedForever(s: System, run: seq<Action>, p: nat, i: nat)
    requires SystemInv(s) && Runs(s, run) && p < |s.pools| && i < |s.pools[p].slots|
    requires s.pools[p].slots[i].role.Dropped?
    ensures p < |After(s, run).pools| && i < |After(s, run).pools[p].slots|
    ensures After(s, run).pools[p].slots[i] == Slot(None, Dropped)
    decreases |run|
  {
    assert Inv(s.pools[p]);
    assert SlotOk(s.pools[p].slots[i]);
    if run == [] {
    } else {
      DroppedAfter(s, run[0], p, i);
      ActionKeepsInv(s, run[0]);
      DroppedForever(Do(s, run[0]), run[1..], p, i);
    }
  }

  lemma DroppedAfter(s: System, a: Action, p: nat, i: nat)
    requires PoolsOk(s) && CanDo(s, a) && p < |s.pools| && i < |s.pools[p].slots| && s.pools[p].slots[i].role.Dropped?
    ensures p < |Do(s, a).pools| && i < |Do(s, a).pools[p].slots| && Do(s, a).pools[p].slots[i] == s.pools[p].slots[i]
  {
    match PoolStep(s, a)
    case None =>
    case Some((q, step)) =>
      if q == p { DroppedStays(s.pools[p], step, i); }
  }

  /** A dropped slot is empty, stays so for the rest of every run, and is never leased again. */
  lemma DroppedSlotsStayEmpty(s: System, run: seq<Action>, p: nat, i: nat)
    requires Reachable(s) && Runs(s, run) && p < |s.pools| && i < |s.pools[p].slots|
    requires s.pools[p].slots[i].role.Dropped?
    ensures p < |After(s, run).pools| && i < |After(s, run).pools[p].slots|
    ensures After(s, run).pools[p].slots[i] == Slot(None, Dropped)
    ensures i !in After(s, run).pools[p].free
    ensures forall h :: HoldsIn(After(s, run), h, p) ==> After(s, run).leases[h].index != i
  {
    ReachableInv(s);
    DroppedForever(s, run, p, i);
    RunKeepsInv(s, run);
    var s' := After(s, run);
    assert Inv(s'.pools[p]);
    forall h | HoldsIn(s', h, p)
      ensures s'.leases[h].index != i
    {
      assert ObjectOk(s', s'.leases[h], h);
    }
  }
}
