/** The connection pool as a protocol: every interleaving of lock sections, condition-variable
    waits and notifications, verb calls made outside the lock, and verb failures, for one pool.

    A slot's role says who may touch its connection. The fields `free`, `live` and `closed` are
    the ones the mutex guards; `ones` and `alls` count notifications that a thread owes because it
    has left the lock section that made them due. The remaining fields record history: how many
    queue pairs are open, every `modify_qp` issued, and every completion a transfer consumed. */
module PoolProtocol {
  import opened Basics
  import opened Transport

  type Tid = nat
  type Handle = nat

  /** What the transfer that holds a lease has done with the connection. `failed`: the queue pair has
      failed by itself since it reached RTR. */
  datatype Use = Unconnected | ToRtr | ToRts(failed: bool) | Finished

  /** Where the release of a connected lease is, outside the lock. */
  datatype Phase =
    | ToReset
    | Drain(left: nat)
    | ToInit
    | Discard
    | NeedCq
    | NeedQp
    | FreshToInit(made: Conn)
    | Restored(usable: bool)

  datatype Role =
    | Free
    | Leased(holder: Handle, number: nat, use: Use)
    | Releasing(holder: Handle, phase: Phase)
    | Dropped

  datatype Slot = Slot(conn: Option<Conn>, role: Role)

  /** A modify_qp that was issued, and whether it was the RTS request of a queue pair that had failed by
      itself after its RTR request succeeded. */
  datatype Issue = Issue(asked: Modify, failedItself: bool)

  datatype Consumption = Consumption(lease: nat, completion: Completion)

  datatype Pool = Pool(
    slots: seq<Slot>,
    free: seq<nat>,
    live: nat,
    closed: bool,
    sleeping: set<Tid>,
    awake: set<Tid>,
    ones: nat,
    alls: nat,
    leases: nat,
    qps: nat,
    issued: seq<Issue>,
    consumed: seq<Consumption>)

  // ----- The lock sections, as functions of the guarded fields -----

  datatype Outcome = Wait | Closed | NoConnections | Busy | Lease(index: nat)

  /** One pass of acquire() with the mutex held: `holds` says whether the calling thread already
      holds a lease from any pool. */
  function AcquirePass(free: seq<nat>, live: nat, closed: bool, holds: bool): Outcome {
    if !holds && !closed && free == [] && live != 0 then Wait
    else if closed then Closed
    else if free == [] then (if live == 0 then NoConnections else Busy)
    else Lease(free[|free| - 1])
  }

  // ----- Steps -----

  datatype Step =
    | Acquire(t: Tid, holds: bool, handle: Handle)
    | SpuriousWake(t: Tid)
    | Close
    | NotifyAll
    | NotifyOne(t: Tid)
    | NotifyNobody
    | Rename(i: nat, handle: Handle)
    | StartConnect(i: nat, attempt: bool)
    | ModifyRtr(i: nat, ok: bool, after: QpState)
    | ModifyRts(i: nat, ok: bool, after: QpState)
    | AsyncError(i: nat)
    | Arrive(i: nat, c: Completion)
    | Poll(i: nat)
    | EndLease(i: nat)
    | ResetQp(i: nat, ok: bool, after: QpState)
    | DrainPoll(i: nat, error: bool)
    | InitQp(i: nat, ok: bool, after: QpState)
    | DestroyOld(i: nat)
    | CreateCq(i: nat, ok: bool)
    | CreateQp(i: nat, ok: bool)
    | InitFresh(i: nat, ok: bool, after: QpState)
    | Throw(i: nat)
    | Finish(i: nat)

  predicate HasConn(p: Pool, i: nat) {
    i < |p.slots| && p.slots[i].conn.Some?
  }

  predicate LeasedAs(p: Pool, i: nat, use: Use) {
    HasConn(p, i) && p.slots[i].role.Leased? && p.slots[i].role.use == use
  }

  predicate InPhase(p: Pool, i: nat) {
    i < |p.slots| && p.slots[i].role.Releasing?
  }

  /** A release that is still between the end of the lease and its lock section. */
  predicate Restoring(p: Pool, i: nat) {
    InPhase(p, i) && !p.slots[i].role.phase.Restored?
  }

  predicate Enabled(p: Pool, step: Step) {
    match step
    case Acquire(t, holds, _) => t !in p.sleeping
    case SpuriousWake(t) => t in p.sleeping
    case Close => true
    case NotifyAll => p.alls > 0
    case NotifyOne(t) => p.ones > 0 && t in p.sleeping
    case NotifyNobody => p.ones > 0 && p.sleeping == {}
    case Rename(i, _) => i < |p.slots| && p.slots[i].role.Leased?
    case StartConnect(i, _) => LeasedAs(p, i, Unconnected)
    case ModifyRtr(i, _, _) => LeasedAs(p, i, ToRtr)
    case ModifyRts(i, _, _) => HasConn(p, i) && p.slots[i].role.Leased? && p.slots[i].role.use.ToRts?
    case AsyncError(i) => HasConn(p, i) && (p.slots[i].conn.value.qp == Rtr || p.slots[i].conn.value.qp == Rts)
    case Arrive(i, c) =>
      && HasConn(p, i)
      && CanReceive(p.slots[i].conn.value)
      && (p.slots[i].role.Leased? ==> c.lease == p.slots[i].role.number)
    case Poll(i) =>
      && HasConn(p, i) && p.slots[i].role.Leased?
      && (p.slots[i].role.use == Unconnected || p.slots[i].role.use == Finished)
      && p.slots[i].conn.value.cq != []
    case EndLease(i) =>
      && i < |p.slots| && p.slots[i].role.Leased?
      && (p.slots[i].role.use == Unconnected || p.slots[i].role.use == Finished)
    case ResetQp(i, _, _) => HasConn(p, i) && InPhase(p, i) && p.slots[i].role.phase == ToReset
    case DrainPoll(i, error) =>
      HasConn(p, i) && InPhase(p, i) && p.slots[i].role.phase.Drain? && (error ==> p.slots[i].role.phase.left > 0)
    case InitQp(i, _, _) => HasConn(p, i) && InPhase(p, i) && p.slots[i].role.phase == ToInit
    case DestroyOld(i) => HasConn(p, i) && InPhase(p, i) && p.slots[i].role.phase == Discard
    case CreateCq(i, _) => InPhase(p, i) && p.slots[i].role.phase == NeedCq
    case CreateQp(i, _) => InPhase(p, i) && p.slots[i].role.phase == NeedQp
    case InitFresh(i, _, _) => InPhase(p, i) && p.slots[i].role.phase.FreshToInit?
    case Throw(i) => Restoring(p, i)
    case Finish(i) => InPhase(p, i) && p.slots[i].role.phase.Restored?
  }

  function PutSlot(p: Pool, i: nat, slot: Slot): Pool
    requires i < |p.slots|
  {
    p.(slots := p.slots[i := slot])
  }

  /** The pool after slot `i`'s own connection was asked to move to `to`. */
  function ModifyOwn(p: Pool, i: nat, to: QpState, ok: bool, after: QpState, role: Role): Pool
    requires HasConn(p, i)
  {
    var conn := p.slots[i].conn.value;
    PutSlot(p, i, Slot(Some(conn.(qp := if ok then to else after)), role))
      .(issued := p.issued + [Issue(Modify(conn.qp, to), HasFailed(p.slots[i].role))])
  }

  /** The queue pair failed by itself while the transfer was connecting it. */
  predicate HasFailed(role: Role) { role.Leased? && role.use == ToRts(true) }

  function Apply(p: Pool, step: Step): Pool
    requires Enabled(p, step)
  {
    match step
    case Acquire(t, holds, handle) =>
      (match AcquirePass(p.free, p.live, p.closed, holds)
       case Wait => p.(sleeping := p.sleeping + {t}, awake := p.awake - {t})
       case Lease(index) =>
         (if index < |p.slots| then
            PutSlot(p, index, p.slots[index].(role := Leased(handle, p.leases, Unconnected)))
          else p)
           .(free := p.free[..|p.free| - 1], leases := p.leases + 1, awake := p.awake - {t})
       case _ => p.(awake := p.awake - {t}))
    case SpuriousWake(t) => p.(sleeping := p.sleeping - {t}, awake := p.awake + {t})
    case Close => p.(closed := true, alls := p.alls + 1)
    case NotifyAll => p.(alls := p.alls - 1, sleeping := {}, awake := p.awake + p.sleeping)
    case NotifyOne(t) => p.(ones := p.ones - 1, sleeping := p.sleeping - {t}, awake := p.awake + {t})
    case NotifyNobody => p.(ones := p.ones - 1)
    case Rename(i, handle) =>
      PutSlot(p, i, p.slots[i].(role := Leased(handle, p.slots[i].role.number, p.slots[i].role.use)))
    case StartConnect(i, attempt) =>
      PutSlot(p, i, p.slots[i].(role := p.slots[i].role.(use := if attempt then ToRtr else Finished)))
    case ModifyRtr(i, ok, after) =>
      ModifyOwn(p, i, Rtr, ok, after, p.slots[i].role.(use := if ok then ToRts(false) else Finished))
    case ModifyRts(i, ok, after) =>
      ModifyOwn(p, i, Rts, ok, after, p.slots[i].role.(use := Finished))
    case AsyncError(i) =>
      var role := p.slots[i].role;
      PutSlot(p, i, Slot(Some(p.slots[i].conn.value.(qp := Err)),
                         if role.Leased? && role.use.ToRts? then role.(use := ToRts(true)) else role))
    case Arrive(i, c) =>
      var conn := p.slots[i].conn.value;
      PutSlot(p, i, p.slots[i].(conn := Some(conn.(cq := conn.cq + [c]))))
    case Poll(i) =>
      var conn := p.slots[i].conn.value;
      PutSlot(p, i, p.slots[i].(conn := Some(conn.(cq := conn.cq[1..]))))
        .(consumed := p.consumed + [Consumption(p.slots[i].role.number, conn.cq[0])])
    case EndLease(i) =>
      var role := p.slots[i].role;
      PutSlot(p, i, p.slots[i].(role :=
        Releasing(role.holder, if role.use == Unconnected then Restored(true) else ToReset)))
    case ResetQp(i, ok, after) =>
      ModifyOwn(p, i, Reset, ok, after,
                Releasing(p.slots[i].role.holder, if ok then Drain(CQ_SIZE) else Discard))
    case DrainPoll(i, error) =>
      var conn := p.slots[i].conn.value;
      var holder := p.slots[i].role.holder;
      var left := p.slots[i].role.phase.left;
      if error then PutSlot(p, i, p.slots[i].(role := Releasing(holder, Discard)))
      else if left == 0 || conn.cq == [] then PutSlot(p, i, p.slots[i].(role := Releasing(holder, ToInit)))
      else PutSlot(p, i, Slot(Some(conn.(cq := conn.cq[1..])), Releasing(holder, Drain(left - 1))))
    case InitQp(i, ok, after) =>
      ModifyOwn(p, i, Init, ok, after,
                Releasing(p.slots[i].role.holder, if ok then Restored(true) else Discard))
    case DestroyOld(i) =>
      PutSlot(p, i, Slot(None, Releasing(p.slots[i].role.holder, NeedCq))).(qps := Pred(p.qps))
    case CreateCq(i, ok) =>
      PutSlot(p, i, p.slots[i].(role :=
        Releasing(p.slots[i].role.holder, if ok then NeedQp else Restored(false))))
    case CreateQp(i, ok) =>
      var holder := p.slots[i].role.holder;
      if ok then
        PutSlot(p, i, p.slots[i].(role := Releasing(holder, FreshToInit(Conn(Reset, [])))))
          .(qps := p.qps + 1)
      else PutSlot(p, i, p.slots[i].(role := Releasing(holder, Restored(false))))
    case InitFresh(i, ok, after) =>
      var holder := p.slots[i].role.holder;
      var made := p.slots[i].role.phase.made;
      (if ok then PutSlot(p, i, Slot(Some(made.(qp := Init)), Releasing(holder, Restored(true))))
       else PutSlot(p, i, Slot(None, Releasing(holder, Restored(false)))).(qps := Pred(p.qps)))
        .(issued := p.issued + [Issue(Modify(made.qp, Init), false)])
    case Throw(i) =>
      PutSlot(p, i, Slot(None, Releasing(p.slots[i].role.holder, Restored(false))))
        .(qps := if OwnsQp(p.slots[i]) then Pred(p.qps) else p.qps)
    case Finish(i) =>
      if p.slots[i].role.phase.usable then
        PutSlot(p, i, p.slots[i].(role := Free)).(free := p.free + [i], ones := p.ones + 1)
      else
        PutSlot(p, i, p.slots[i].(role := Dropped))
          .(live := Pred(p.live), alls := p.alls + Bit(Pred(p.live) == 0))
  }

  /** The pool its constructor builds when it creates `n` connections. */
  function NewPool(n: nat): Pool {
    Pool(seq(n, _ => Slot(Some(Conn(Init, [])), Free)), seq(n, i => i), n, false,
         {}, {}, 0, 0, 0, n, [], [])
  }

  // ----- What every step keeps -----

  predicate IsFree(s: Slot) { s.role.Free? }
  predicate IsLeased(s: Slot) { s.role.Leased? }
  predicate IsReleasing(s: Slot) { s.role.Releasing? }
  predicate OwnsQp(s: Slot) {
    s.conn.Some? || (s.role.Releasing? && s.role.phase.FreshToInit?)
  }

  /** `free` lists exactly the free slots, once each. */
  predicate FreeList(p: Pool) {
    && NoDuplicates(p.free)
    && (forall k :: 0 <= k < |p.free| ==> p.free[k] < |p.slots| && p.slots[p.free[k]].role.Free?)
    && Count(p.slots, IsFree) == |p.free|
  }

  /** `live` counts the slots that are not dropped, and `qps` the open queue pairs. */
  predicate Counts(p: Pool) {
    && p.live == Count(p.slots, IsFree) + Count(p.slots, IsLeased) + Count(p.slots, IsReleasing)
    && p.qps == Count(p.slots, OwnsQp)
  }

  predicate Accounting(p: Pool) {
    FreeList(p) && Counts(p)
  }

  predicate Clean(s: Slot) {
    s.conn == Some(Conn(Init, []))
  }

  predicate OnlyFrom(cq: seq<Completion>, lease: nat) {
    forall k :: 0 <= k < |cq| ==> cq[k].lease == lease
  }

  /** What a slot's role says about its connection. */
  predicate SlotOk(s: Slot) {
    && (s.conn.Some? ==> |s.conn.value.cq| <= CQ_SIZE)
    && match s.role
       case Free => Clean(s)
       case Leased(_, number, use) =>
         && s.conn.Some?
         && OnlyFrom(s.conn.value.cq, number)
         && (use == Unconnected || use == ToRtr ==> Clean(s))
         && (use.ToRts? ==> s.conn.value.qp == if use.failed then Err else Rtr)
       case Releasing(_, phase) =>
         (match phase
          case ToReset => s.conn.Some?
          case Drain(left) => s.conn.Some? && s.conn.value.qp == Reset && |s.conn.value.cq| <= left
          case ToInit => s.conn == Some(Conn(Reset, []))
          case Discard => s.conn.Some?
          case NeedCq => s.conn.None?
          case NeedQp => s.conn.None?
          case FreshToInit(made) => s.conn.None? && made == Conn(Reset, [])
          case Restored(usable) => if usable then Clean(s) else s.conn.None?)
       case Dropped => s.conn.None?
  }

  predicate Hygiene(p: Pool) {
    forall i :: 0 <= i < |p.slots| ==> SlotOk(p.slots[i])
  }

  /** No lost wake-up. */
  predicate Wakeups(p: Pool) {
    && p.sleeping !! p.awake
    && (p.sleeping != {} && (p.closed || p.live == 0) ==> p.alls > 0)
    && (p.sleeping != {} && !p.closed ==> |p.free| <= p.ones + |p.awake|)
  }

  /** A request is legal exactly when it is not the one that follows a failure it could not see. */
  predicate IssueOk(issue: Issue) {
    && (LegalTransition(issue.asked.from, issue.asked.to) <==> !issue.failedItself)
    && (issue.failedItself ==> issue.asked == Modify(Err, Rts))
  }

  predicate History(p: Pool) {
    && (forall k :: 0 <= k < |p.issued| ==> IssueOk(p.issued[k]))
    && (forall k :: 0 <= k < |p.consumed| ==> p.consumed[k].completion.lease == p.consumed[k].lease)
  }

  predicate Inv(p: Pool) {
    Accounting(p) && Hygiene(p) && Wakeups(p) && History(p)
  }

  // ----- Proofs -----

  lemma {:induction false} CountPut(p: Pool, i: nat, slot: Slot)
    requires i < |p.slots|
    ensures var p' := PutSlot(p, i, slot);
      && Count(p'.slots, IsFree) == Count(p.slots, IsFree) - Bit(IsFree(p.slots[i])) + Bit(IsFree(slot))
      && Count(p'.slots, IsLeased) == Count(p.slots, IsLeased) - Bit(IsLeased(p.slots[i])) + Bit(IsLeased(slot))
      && Count(p'.slots, IsReleasing)
         == Count(p.slots, IsReleasing) - Bit(IsReleasing(p.slots[i])) + Bit(IsReleasing(slot))
      && Count(p'.slots, OwnsQp) == Count(p.slots, OwnsQp) - Bit(OwnsQp(p.slots[i])) + Bit(OwnsQp(slot))
  {
    CountUpdate(p.slots, i, slot, IsFree);
    CountUpdate(p.slots, i, slot, IsLeased);
    CountUpdate(p.slots, i, slot, IsReleasing);
    CountUpdate(p.slots, i, slot, OwnsQp);
  }

  /** The slot a step changes, if it changes one. */
  function Touched(p: Pool, step: Step): Option<nat>
    requires Enabled(p, step)
  {
    match step
    case Acquire(t, holds, _) =>
      var out := AcquirePass(p.free, p.live, p.closed, holds);
      if out.Lease? && out.index < |p.slots| then Some(out.index) else None
    case SpuriousWake(t) => None
    case Close => None
    case NotifyAll => None
    case NotifyOne(t) => None
    case NotifyNobody => None
    case _ => Some(step.i)
  }

  /** A step changes at most the slot it touches. */
  lemma OneSlot(p: Pool, step: Step)
    requires Enabled(p, step)
    ensures Touched(p, step).None? ==> Apply(p, step).slots == p.slots
    ensures Touched(p, step).Some? ==>
      var i := Touched(p, step).value;
      i < |p.slots| && |Apply(p, step).slots| == |p.slots|
      && Apply(p, step).slots == p.slots[i := Apply(p, step).slots[i]]
  {
    if Touched(p, step).Some? {
      var i := Touched(p, step).value;
      assert i < |p.slots|;
      assert Apply(p, step).slots == p.slots[i := Apply(p, step).slots[i]];
    }
  }

  lemma FreePositive(p: Pool, i: nat)
    requires Counts(p) && i < |p.slots| && !p.slots[i].role.Dropped?
    ensures p.live > 0
  {
    match p.slots[i].role
    case Free => CountPositive(p.slots, i, IsFree);
    case Leased(_, _, _) => CountPositive(p.slots, i, IsLeased);
    case Releasing(_, _) => CountPositive(p.slots, i, IsReleasing);
  }

  predicate Alive(s: Slot) { !s.role.Dropped? }

  /** How the counters move with the one slot a step changes. */
  lemma CounterDeltas(p: Pool, step: Step, i: nat)
    requires Enabled(p, step) && Touched(p, step) == Some(i) && i < |p.slots| && SlotOk(p.slots[i])
    requires step.Acquire? ==> IsFree(p.slots[i])
    requires Alive(p.slots[i]) ==> p.live > 0
    requires OwnsQp(p.slots[i]) ==> p.qps > 0
    ensures var p' := Apply(p, step);
      && |p'.slots| == |p.slots|
      && p'.live == p.live - Bit(Alive(p.slots[i])) + Bit(Alive(p'.slots[i]))
      && p'.qps == p.qps - Bit(OwnsQp(p.slots[i])) + Bit(OwnsQp(p'.slots[i]))
  {
    if IsRestore(step) { RestoreDeltas(p, step, i); }
  }

  lemma RestoreDeltas(p: Pool, step: Step, i: nat)
    requires Enabled(p, step) && IsRestore(step) && step.i == i && i < |p.slots| && SlotOk(p.slots[i])
    requires OwnsQp(p.slots[i]) ==> p.qps > 0
    ensures var p' := Apply(p, step);
      && |p'.slots| == |p.slots| && p'.live == p.live && Alive(p.slots[i]) && Alive(p'.slots[i])
      && p'.qps == p.qps - Bit(OwnsQp(p.slots[i])) + Bit(OwnsQp(p'.slots[i]))
  {
  }

  /** How the free list moves with the one slot a step changes. */
  lemma FreeDeltas(p: Pool, step: Step, i: nat)
    requires Enabled(p, step) && Touched(p, step) == Some(i) && i < |p.slots|
    requires forall k :: 0 <= k < |p.free| ==> p.free[k] < |p.slots| && p.slots[p.free[k]].role.Free?
    ensures var p' := Apply(p, step);
      && |p'.slots| == |p.slots|
      && (|| (p'.free == p.free && IsFree(p.slots[i]) == IsFree(p'.slots[i]))
          || (p.free != [] && p.free == p'.free + [i] && IsFree(p.slots[i]) && !IsFree(p'.slots[i]))
          || (p'.free == p.free + [i] && !IsFree(p.slots[i]) && IsFree(p'.slots[i])))
  {
    if !step.Acquire? && !step.Finish? { FreeSame(p, step, i); }
  }

  lemma FreeSame(p: Pool, step: Step, i: nat)
    requires Enabled(p, step) && Touched(p, step) == Some(i) && i < |p.slots| && !step.Acquire? && !step.Finish?
    requires forall k :: 0 <= k < |p.free| ==> p.free[k] < |p.slots| && p.slots[p.free[k]].role.Free?
    ensures var p' := Apply(p, step);
      p'.free == p.free && |p'.slots| == |p.slots| && IsFree(p.slots[i]) == IsFree(p'.slots[i])
  {
  }

  lemma CountsKept(p: Pool, step: Step)
    requires Accounting(p) && Hygiene(p) && Enabled(p, step)
    ensures Counts(Apply(p, step))
  {
    OneSlot(p, step);
    if Touched(p, step).Some? {
      var i := Touched(p, step).value;
      CountPut(p, i, Apply(p, step).slots[i]);
      if Alive(p.slots[i]) { FreePositive(p, i); }
      if OwnsQp(p.slots[i]) { CountPositive(p.slots, i, OwnsQp); }
      CounterDeltas(p, step, i);
    } else {
      Untouched(p, step);
    }
  }

  lemma Untouched(p: Pool, step: Step)
    requires Enabled(p, step) && Touched(p, step).None?
    requires FreeList(p)
    ensures var p' := Apply(p, step);
      p'.slots == p.slots && p'.live == p.live && p'.qps == p.qps && p'.free == p.free
  {
  }

  lemma FreeListKept(p: Pool, step: Step)
    requires FreeList(p) && Enabled(p, step)
    ensures FreeList(Apply(p, step))
  {
    OneSlot(p, step);
    if Touched(p, step).Some? {
      var i := Touched(p, step).value;
      CountPut(p, i, Apply(p, step).slots[i]);
      FreeDeltas(p, step, i);
      FreeListMoves(p, Apply(p, step), i);
    } else {
      Untouched(p, step);
    }
  }

  lemma FreeListMoves(p: Pool, p': Pool, i: nat)
    requires FreeList(p) && i < |p.slots| && |p'.slots| == |p.slots|
    requires p'.slots == p.slots[i := p'.slots[i]]
    requires Count(p'.slots, IsFree) == Count(p.slots, IsFree) - Bit(IsFree(p.slots[i])) + Bit(IsFree(p'.slots[i]))
    requires || (p'.free == p.free && IsFree(p.slots[i]) == IsFree(p'.slots[i]))
             || (p.free != [] && p.free == p'.free + [i] && IsFree(p.slots[i]) && !IsFree(p'.slots[i]))
             || (p'.free == p.free + [i] && !IsFree(p.slots[i]) && IsFree(p'.slots[i]))
    ensures FreeList(p')
  {
    if p.free == p'.free + [i] {
      assert p.free[|p.free| - 1] == i;
      assert forall k :: 0 <= k < |p'.free| ==> p'.free[k] == p.free[k];
    } else if p'.free == p.free + [i] {
      assert forall k :: 0 <= k < |p.free| ==> p'.free[k] == p.free[k];
    }
  }

  lemma HygieneKept(p: Pool, step: Step)
    requires Hygiene(p) && Accounting(p) && Enabled(p, step)
    ensures Hygiene(Apply(p, step))
  {
    OneSlot(p, step);
    if Touched(p, step).Some? {
      var i := Touched(p, step).value;
      assert SlotOk(p.slots[i]);
      if step.Acquire? {
        assert i == p.free[|p.free| - 1];
      } else if p.slots[i].role.Leased? {
        LeasedSlotKept(p, step, i);
      } else {
        RestoringSlotKept(p, step, i);
      }
    }
  }

  lemma LeasedSlotKept(p: Pool, step: Step, i: nat)
    requires Enabled(p, step) && Touched(p, step) == Some(i) && i < |p.slots| && SlotOk(p.slots[i])
      && p.slots[i].role.Leased?
    requires !step.Acquire?
    ensures i < |Apply(p, step).slots| && SlotOk(Apply(p, step).slots[i])
  {
  }

  lemma RestoringSlotKept(p: Pool, step: Step, i: nat)
    requires Enabled(p, step) && Touched(p, step) == Some(i) && i < |p.slots| && SlotOk(p.slots[i])
      && !p.slots[i].role.Leased?
    requires !step.Acquire?
    ensures i < |Apply(p, step).slots| && SlotOk(Apply(p, step).slots[i])
  {
  }

  lemma WakeupsKept(p: Pool, step: Step)
    requires Accounting(p) && Wakeups(p) && Enabled(p, step)
    ensures Wakeups(Apply(p, step))
  {
    if p.free != [] { FreePositive(p, p.free[0]); }
    if step.Acquire? {
      AcquireKeepsWakeups(p, step);
    } else if step.Finish? {
      FreePositive(p, step.i);
      FinishKeepsWakeups(p, step);
    } else if Touched(p, step).Some? {
      QuietStep(p, step);
    } else {
      NoticeKeepsWakeups(p, step);
    }
  }

  /** What a holder does with its own slot outside the lock wakes nobody. */
  lemma QuietStep(p: Pool, step: Step)
    requires Enabled(p, step) && Touched(p, step).Some? && !step.Acquire? && !step.Finish?
    ensures var p' := Apply(p, step);
      && p'.free == p.free && p'.live == p.live && p'.closed == p.closed
      && p'.sleeping == p.sleeping && p'.awake == p.awake && p'.ones == p.ones && p'.alls == p.alls
  {
  }

  lemma NoticeKeepsWakeups(p: Pool, step: Step)
    requires Wakeups(p) && Enabled(p, step) && Touched(p, step).None? && !step.Acquire?
    requires p.free != [] ==> p.live > 0
    ensures Wakeups(Apply(p, step))
  {
  }

  lemma AcquireKeepsWakeups(p: Pool, step: Step)
    requires Wakeups(p) && step.Acquire? && Enabled(p, step)
    requires p.free != [] ==> p.live > 0
    ensures Wakeups(Apply(p, step))
  {
    var p' := Apply(p, step);
    var out := AcquirePass(p.free, p.live, p.closed, step.holds);
    if out == Wait {
      assert p'.free == [] && !p'.closed && p'.live != 0;
    } else {
      AcquireEffect(p, step);
      AnswerKeepsWakeups(p, p', step.t);
    }
  }

  /** acquire() answers with a connection, or there is none to be had, or the pool is closed. */
  lemma AcquireEffect(p: Pool, step: Step)
    requires step.Acquire? && Enabled(p, step) && AcquirePass(p.free, p.live, p.closed, step.holds) != Wait
    ensures var p' := Apply(p, step);
      && p'.sleeping == p.sleeping && p'.awake == p.awake - {step.t} && p'.ones == p.ones && p'.alls == p.alls
      && p'.closed == p.closed && p'.live == p.live
      && (|p'.free| == |p.free| - 1 || (p'.free == p.free && (p.closed || p.free == [])))
  {
  }

  lemma AnswerKeepsWakeups(p: Pool, p': Pool, t: Tid)
    requires Wakeups(p)
    requires p'.sleeping == p.sleeping && p'.awake == p.awake - {t} && p'.ones == p.ones && p'.alls == p.alls
    requires p'.closed == p.closed && p'.live == p.live
    requires |p'.free| == |p.free| - 1 || (p'.free == p.free && (p.closed || p.free == []))
    ensures Wakeups(p')
  {
    assert p.awake <= p'.awake + {t};
    OneLess(p.awake, t);
  }

  lemma OneLess(s: set<Tid>, t: Tid)
    ensures |s - {t}| >= |s| - 1
  {
  }

  lemma FinishKeepsWakeups(p: Pool, step: Step)
    requires Wakeups(p) && step.Finish? && Enabled(p, step) && p.live > 0
    ensures Wakeups(Apply(p, step))
  {
  }

  lemma HistoryKept(p: Pool, step: Step)
    requires Hygiene(p) && History(p) && Enabled(p, step)
    ensures History(Apply(p, step))
  {
    OneSlot(p, step);
    if Touched(p, step).Some? {
      assert SlotOk(p.slots[Touched(p, step).value]);
    }
  }

  /** The invariant holds of every pool a constructor builds. */
  lemma NewPoolInv(n: nat)
    ensures Inv(NewPool(n))
  {
    var p := NewPool(n);
    CountAll(p.slots, IsFree);
    CountNone(p.slots, IsLeased);
    CountNone(p.slots, IsReleasing);
    CountAll(p.slots, OwnsQp);
  }

  /** Every step of every thread, and of the device, keeps the invariant. */
  lemma StepKeepsInv(p: Pool, step: Step)
    requires Inv(p) && Enabled(p, step)
    ensures Inv(Apply(p, step))
  {
    CountsKept(p, step);
    FreeListKept(p, step);
    HygieneKept(p, step);
    WakeupsKept(p, step);
    HistoryKept(p, step);
  }

  /** A dropped slot is never touched again. */
  lemma DroppedStays(p: Pool, step: Step, i: nat)
    requires Inv(p) && Enabled(p, step) && i < |p.slots| && p.slots[i].role.Dropped?
    ensures i < |Apply(p, step).slots| && Apply(p, step).slots[i] == p.slots[i] && i !in p.free
  {
    assert SlotOk(p.slots[i]);
    OneSlot(p, step);
  }

  /** The transfer has used the connection, or the connection is being restored after it. */
  predicate Used(role: Role) {
    role.Releasing? || (role.Leased? && (role.use.ToRts? || role.use == Finished))
  }

  /** Whatever happened to a connection that a transfer used, no step lets go of it other than into
      its restore, and out of that only clean or dropped. */
  lemma UsedConnectionIsRestored(p: Pool, step: Step, i: nat)
    requires Inv(p) && Enabled(p, step) && i < |p.slots| && Used(p.slots[i].role)
    ensures i < |Apply(p, step).slots|
    ensures var slot, slot' := p.slots[i], Apply(p, step).slots[i];
      || (slot.role.Leased? && slot'.role.Leased? && slot'.role.number == slot.role.number && Used(slot'.role))
      || (slot.role.Leased? && slot'.role.Releasing? && slot'.role.phase == ToReset)
      || (slot.role.Releasing? && slot'.role.Releasing?)
      || (slot.role.Releasing? && slot'.role.Free? && Clean(slot'))
      || (slot.role.Releasing? && slot'.role.Dropped? && slot'.conn.None?)
  {
    assert SlotOk(p.slots[i]);
    OneSlot(p, step);
    AcquireTouchesFree(p, step);
  }

  lemma AcquireTouchesFree(p: Pool, step: Step)
    requires FreeList(p) && Enabled(p, step)
    ensures step.Acquire? && Touched(p, step).Some? ==> p.slots[Touched(p, step).value].role.Free?
  {
  }

  /** The steps a release can still take before its lock section. */
  function StepsLeft(phase: Phase): nat {
    match phase
    case ToReset => CQ_SIZE + 8
    case Drain(left) => left + 7
    case ToInit => 6
    case Discard => 5
    case NeedCq => 4
    case NeedQp => 3
    case FreshToInit(_) => 2
    case Restored(_) => 1
  }

  /** The steps of restore(). */
  predicate IsRestore(step: Step) {
    step.ResetQp? || step.DrainPoll? || step.InitQp? || step.DestroyOld? || step.CreateCq? || step.CreateQp?
    || step.InitFresh? || step.Throw?
  }

  /** Whatever the verbs answer, each step of restore() leaves fewer to take, so it always ends. */
  lemma RestoreShortens(p: Pool, step: Step)
    requires Hygiene(p) && IsRestore(step) && Enabled(p, step)
    ensures InPhase(p, step.i) && InPhase(Apply(p, step), step.i)
    ensures StepsLeft(Apply(p, step).slots[step.i].role.phase) < StepsLeft(p.slots[step.i].role.phase)
  {
    assert SlotOk(p.slots[step.i]);
  }

  /** A release that has not reached its lock section always has a step to take. */
  lemma RestoreGoesOn(p: Pool, i: nat) returns (step: Step)
    requires Hygiene(p) && Restoring(p, i)
    ensures IsRestore(step) && !step.Throw? && step.i == i && Enabled(p, step)
  {
    assert SlotOk(p.slots[i]);
    match p.slots[i].role.phase
    case ToReset => step := ResetQp(i, true, Err);
    case Drain(_) => step := DrainPoll(i, false);
    case ToInit => step := InitQp(i, true, Err);
    case Discard => step := DestroyOld(i);
    case NeedCq => step := CreateCq(i, true);
    case NeedQp => step := CreateQp(i, true);
    case FreshToInit(_) => step := InitFresh(i, true, Err);
  }
}
