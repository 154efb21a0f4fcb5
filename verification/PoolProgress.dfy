/** Progress of the pools, and a request that goes wrong: runs that exist from reachable states. */
module PoolProgress {
  import opened Basics
  import opened Transport
  import opened PoolProtocol
  import opened PoolSystem

  /** An action that no run may count on: closing the pool, a wake-up that nobody caused, or an
      exception. */
  predicate IsPlain(a: Action) {
    a.Local? ==> !a.step.Close? && !a.step.SpuriousWake? && !a.step.Throw?
  }

  predicate Plain(run: seq<Action>) { forall k :: 0 <= k < |run| ==> IsPlain(run[k]) }

  /** Some run of plain actions leads from `s` to `s'`. */
  ghost predicate Leads(s: System, s': System) {
    exists run :: Runs(s, run) && Plain(run) && After(s, run) == s'
  }

  lemma {:induction false} RunAppend(s: System, run: seq<Action>, a: Action)
    requires Runs(s, run) && CanDo(After(s, run), a)
    ensures Runs(s, run + [a]) && After(s, run + [a]) == Do(After(s, run), a)
    decreases |run|
  {
    if run == [] {
      assert run + [a] == [a];
      assert Runs(Do(s, a), []);
    } else {
      assert (run + [a])[1..] == run[1..] + [a];
      RunAppend(Do(s, run[0]), run[1..], a);
    }
  }

  lemma ReachableDo(s: System, a: Action)
    requires Reachable(s) && CanDo(s, a)
    ensures Reachable(Do(s, a))
  {
    var sizes: seq<nat>, run :| Runs(NewSystem(sizes), run) && s == After(NewSystem(sizes), run);
    RunAppend(NewSystem(sizes), run, a);
  }

  /** `s` is reachable, and comes after `s0`. */
  ghost predicate Onward(s0: System, s: System) { Reachable(s) && Leads(s0, s) }

  lemma Start(s: System)
    requires Reachable(s)
    ensures Onward(s, s)
  {
    assert Runs(s, []) && Plain([]) && After(s, []) == s;
  }

  lemma Go(s0: System, s: System, a: Action)
    requires Onward(s0, s) && CanDo(s, a) && IsPlain(a)
    ensures Onward(s0, Do(s, a))
  {
    ReachableDo(s, a);
    var run :| Runs(s0, run) && Plain(run) && After(s0, run) == s;
    RunAppend(s0, run, a);
    assert Plain(run + [a]);
  }

  // ----- A request that is not legal -----

  /** A queue pair fails by itself between its two requests, and the second asks for RTS from ERR. */
  lemma FailureMakesARequestIllegal() returns (s: System)
    ensures Reachable(s) && |s.pools| == 1 && |s.pools[0].issued| == 2
    ensures s.pools[0].issued[1] == Issue(Modify(Err, Rts), true) && !LegalTransition(Err, Rts)
  {
    s := AsFarAs(4);
  }

  /** The steps of a transfer whose connection fails between its two requests. */
  const Failing: seq<Step> := [StartConnect(0, true), ModifyRtr(0, true, Err), AsyncError(0), ModifyRts(0, false, Err)]

  /** The state of the connection, its use, and what was issued, after the first `n` of them. */
  function QpAt(n: nat): QpState { if n < 2 then Init else if n < 3 then Rtr else Err }
  function UseAt(n: nat): Use {
    if n == 0 then Unconnected else if n == 1 then ToRtr else if n < 4 then ToRts(n == 3) else Finished
  }
  function IssuedAt(n: nat): seq<Issue> {
    (if n < 2 then [] else [Issue(Modify(Init, Rtr), false)]) + (if n < 4 then [] else [Issue(Modify(Err, Rts), true)])
  }

  lemma {:induction false} AsFarAs(n: nat) returns (s: System)
    requires n <= |Failing|
    ensures Reachable(s) && IsConnecting(s, QpAt(n), UseAt(n), IssuedAt(n))
  {
    if n == 0 {
      s := LeasedSystem();
    } else {
      var before := AsFarAs(n - 1);
      s := Next(before, n - 1);
    }
  }

  lemma Next(s: System, n: nat) returns (s': System)
    requires Reachable(s) && n < |Failing| && IsConnecting(s, QpAt(n), UseAt(n), IssuedAt(n))
    ensures Reachable(s') && IsConnecting(s', QpAt(n + 1), UseAt(n + 1), IssuedAt(n + 1))
  {
    NextOfPool(s.pools[0], n);
    ReachableDo(s, Local(0, Failing[n]));
    s' := Do(s, Local(0, Failing[n]));
  }

  lemma NextOfPool(p: Pool, n: nat)
    requires n < |Failing| && PoolIsConnecting(p, QpAt(n), UseAt(n), IssuedAt(n))
    ensures IsLocal(Failing[n]) && Enabled(p, Failing[n])
    ensures PoolIsConnecting(Apply(p, Failing[n]), QpAt(n + 1), UseAt(n + 1), IssuedAt(n + 1))
  {
    var step := Failing[n];
    if n == 0 {
      assert step == StartConnect(0, true);
    } else if n == 1 {
      assert step == ModifyRtr(0, true, Err);
    } else if n == 2 {
      assert step == AsyncError(0);
    } else {
      assert step == ModifyRts(0, false, Err);
    }
  }

  predicate IsConnecting(s: System, qp: QpState, use: Use, issued: seq<Issue>) {
    |s.pools| == 1 && PoolIsConnecting(s.pools[0], qp, use, issued)
  }

  predicate PoolIsConnecting(p: Pool, qp: QpState, use: Use, issued: seq<Issue>) {
    p.slots == [Slot(Some(Conn(qp, [])), Leased(0, 0, use))] && p.issued == issued
  }

  /** A pool of one connection, which is leased. */
  lemma LeasedSystem() returns (s: System)
    ensures Reachable(s) && IsConnecting(s, Init, Unconnected, [])
  {
    var sizes := [1];
    var s0 := NewSystem(sizes);
    assert Runs(s0, []) && s0 == After(s0, []);
    assert s0.pools[0].slots == [Slot(Some(Conn(Init, [])), Free)] && s0.pools[0].free == [0];
    ReachableDo(s0, AcquireBy(0, 0, 0));
    s := Do(s0, AcquireBy(0, 0, 0));
  }

  // ----- A sleeper can go on -----

  predicate SameGuarded(p: Pool, p': Pool) {
    && p'.free == p.free && p'.live == p.live && p'.closed == p.closed
    && p'.sleeping == p.sleeping && p'.awake == p.awake && p'.ones == p.ones && p'.alls == p.alls
  }

  /** The holder of slot `i` takes a step outside the lock. */
  lemma OutsideTheLock(s0: System, s: System, p: nat, step: Step, i: nat)
    requires Onward(s0, s) && p < |s.pools| && IsLocal(step) && Enabled(s.pools[p], step) && !step.Throw?
    requires Touched(s.pools[p], step) == Some(i)
    ensures Onward(s0, Do(s, Local(p, step))) && SameGuarded(s.pools[p], Do(s, Local(p, step)).pools[p])
    ensures |Do(s, Local(p, step)).pools| == |s.pools|
    ensures Do(s, Local(p, step)).pools[p] == Apply(s.pools[p], step)
  {
    Go(s0, s, Local(p, step));
    QuietStep(s.pools[p], step);
  }

  /** A restore runs until its lock section. */
  lemma {:induction false} RestoreEnds(s0: System, s: System, p: nat, i: nat) returns (s': System)
    requires Onward(s0, s) && p < |s.pools| && InPhase(s.pools[p], i)
    ensures Onward(s0, s') && |s'.pools| == |s.pools| && SameGuarded(s.pools[p], s'.pools[p])
    ensures InPhase(s'.pools[p], i) && s'.pools[p].slots[i].role.phase.Restored?
    decreases StepsLeft(s.pools[p].slots[i].role.phase)
  {
    if s.pools[p].slots[i].role.phase.Restored? {
      s' := s;
    } else {
      ReachablePool(s, p);
      var step := RestoreGoesOn(s.pools[p], i);
      RestoreShortens(s.pools[p], step);
      OutsideTheLock(s0, s, p, step, i);
      s' := RestoreEnds(s0, Do(s, Local(p, step)), p, i);
    }
  }

  lemma ReachablePool(s: System, p: nat)
    requires Reachable(s) && p < |s.pools|
    ensures Inv(s.pools[p])
  {
    ReachableInv(s);
  }

  predicate CanEnd(p: Pool, i: nat) {
    i < |p.slots| && p.slots[i].role.Leased? && (p.slots[i].role.use == Unconnected || p.slots[i].role.use == Finished)
  }

  /** A transfer finishes connecting. */
  lemma ConnectEnds(s0: System, s: System, p: nat, i: nat) returns (s': System)
    requires Onward(s0, s) && p < |s.pools| && i < |s.pools[p].slots| && s.pools[p].slots[i].role.Leased?
    ensures Onward(s0, s') && |s'.pools| == |s.pools| && SameGuarded(s.pools[p], s'.pools[p]) && CanEnd(s'.pools[p], i)
  {
    ReachablePool(s, p);
    assert SlotOk(s.pools[p].slots[i]);
    var use := s.pools[p].slots[i].role.use;
    if use == ToRtr {
      OutsideTheLock(s0, s, p, ModifyRtr(i, false, Err), i);
      s' := Do(s, Local(p, ModifyRtr(i, false, Err)));
    } else if use.ToRts? {
      OutsideTheLock(s0, s, p, ModifyRts(i, true, Err), i);
      s' := Do(s, Local(p, ModifyRts(i, true, Err)));
    } else {
      s' := s;
    }
  }

  lemma HolderOf(s: System, p: nat, i: nat)
    requires Reachable(s) && p < |s.pools| && i < |s.pools[p].slots|
    ensures RoleOk(s, p, i, s.pools[p].slots[i].role)
  {
    ReachableInv(s);
  }

  /** The lease on slot `i` ends. */
  lemma LeaseEnds(s0: System, s: System, p: nat, i: nat) returns (s': System)
    requires Onward(s0, s) && p < |s.pools| && CanEnd(s.pools[p], i)
    ensures Onward(s0, s') && |s'.pools| == |s.pools| && SameGuarded(s.pools[p], s'.pools[p]) && InPhase(s'.pools[p], i)
    ensures s.pools[p].slots[i].role.use == Unconnected ==> s'.pools[p].slots[i].role.phase == Restored(true)
  {
    HolderOf(s, p, i);
    var h := s.pools[p].slots[i].role.holder;
    Go(s0, s, BeginEnd(h));
    s' := Do(s, BeginEnd(h));
    QuietStep(s.pools[p], EndLease(i));
  }

  /** The lock section of a release. */
  lemma ReleaseEnds(s0: System, s: System, p: nat, i: nat) returns (s': System)
    requires Onward(s0, s) && p < |s.pools| && InPhase(s.pools[p], i) && s.pools[p].slots[i].role.phase.Restored?
    ensures Onward(s0, s') && |s'.pools| == |s.pools|
    ensures s'.pools[p].sleeping == s.pools[p].sleeping && s'.pools[p].closed == s.pools[p].closed
    ensures if s.pools[p].slots[i].role.phase.usable then s'.pools[p].free != [] && s'.pools[p].ones > 0
            else s'.pools[p].live < s.pools[p].live
  {
    HolderOf(s, p, i);
    var h := s.pools[p].slots[i].role.holder;
    Go(s0, s, TakeBack(h));
    s' := Do(s, TakeBack(h));
    ReachablePool(s, p);
    FreePositive(s.pools[p], i);
    FinishEffect(s.pools[p], i);
  }

  lemma FinishEffect(p: Pool, i: nat)
    requires Enabled(p, Finish(i)) && p.live > 0
    ensures var p' := Apply(p, Finish(i));
      && p'.sleeping == p.sleeping && p'.closed == p.closed
      && if p.slots[i].role.phase.usable then p'.free != [] && p'.ones > 0 else p'.live < p.live
  {
  }

  /** Somebody waits in an open pool. */
  predicate Waits(s: System, p: nat, t: Tid) {
    p < |s.pools| && t in s.pools[p].sleeping && !s.pools[p].closed
  }

  /** A connection is returned: it is free and a notification is due, or there is one fewer. */
  lemma OneIsReturned(s0: System, s: System, p: nat, t: Tid, i: nat) returns (s': System)
    requires Onward(s0, s) && Waits(s, p, t) && i < |s.pools[p].slots|
    requires s.pools[p].slots[i].role.Leased? || s.pools[p].slots[i].role.Releasing?
    ensures Onward(s0, s') && Waits(s', p, t)
    ensures (s'.pools[p].free != [] && s'.pools[p].ones > 0) || s'.pools[p].live < s.pools[p].live
  {
    s' := s;
    if s.pools[p].slots[i].role.Leased? {
      s' := ConnectEnds(s0, s', p, i);
      s' := LeaseEnds(s0, s', p, i);
    }
    s' := RestoreEnds(s0, s', p, i);
    s' := ReleaseEnds(s0, s', p, i);
  }

  /** A thread that was awakened takes a free connection and returns it. */
  lemma TakenAndReturned(s0: System, s: System, p: nat, t: Tid, u: Tid) returns (s': System)
    requires Onward(s0, s) && Waits(s, p, t) && s.pools[p].free != [] && u in s.pools[p].awake
    ensures Onward(s0, s') && Waits(s', p, t) && s'.pools[p].free != [] && s'.pools[p].ones > 0
  {
    var h := FreshHandle(s);
    AwakeCanAcquire(s, p, u, h);
    AwakeGets(s, p, t, u, h);
    Go(s0, s, AcquireBy(p, u, h));
    var s1 := Do(s, AcquireBy(p, u, h));
    var i := s.pools[p].free[|s.pools[p].free| - 1];
    var s2 := LeaseEnds(s0, s1, p, i);
    s' := ReleaseEnds(s0, s2, p, i);
  }

  lemma FreshHandle(s: System) returns (h: Handle)
    ensures h !in s.leases
  {
    h := Above(s.leases.Keys);
  }

  lemma {:induction false} Above(hs: set<Handle>) returns (h: Handle)
    ensures h !in hs && forall x :: x in hs ==> x < h
    decreases |hs|
  {
    if hs == {} {
      h := 0;
    } else {
      var x :| x in hs;
      var below := Above(hs - {x});
      h := if x < below then below else x + 1;
      assert forall y :: y in hs ==> y == x || y in hs - {x};
    }
  }

  /** A thread that was awakened waits in this pool alone, and can look again. */
  lemma AwakeCanAcquire(s: System, p: nat, u: Tid, h: Handle)
    requires Reachable(s) && p < |s.pools| && u in s.pools[p].awake && h !in s.leases
    ensures CanDo(s, AcquireBy(p, u, h)) && CountOf(s, u) == 0
  {
    ReachableInv(s);
    assert Inv(s.pools[p]) && u in Waiting(s.pools[p]);
    forall q | 0 <= q < |s.pools| && u in Waiting(s.pools[q])
      ensures q == p
    {
    }
    assert forall q :: 0 <= q < |s.pools| && u in s.pools[q].sleeping ==> u in Waiting(s.pools[q]);
    assert forall q :: 0 <= q < |s.pools| && u in s.pools[q].awake ==> u in Waiting(s.pools[q]);
  }

  lemma AwakeGets(s: System, p: nat, t: Tid, u: Tid, h: Handle)
    requires Reachable(s) && Waits(s, p, t) && s.pools[p].free != [] && CanDo(s, AcquireBy(p, u, h))
    ensures var s1, i := Do(s, AcquireBy(p, u, h)), s.pools[p].free[|s.pools[p].free| - 1];
      Waits(s1, p, t) && |s1.pools| == |s.pools| && i < |s1.pools[p].slots|
      && s1.pools[p].slots[i].role.Leased? && s1.pools[p].slots[i].role.use == Unconnected
  {
    ReachablePool(s, p);
  }

  /** The sleeper is awakened by a notification that is due, and looks again. */
  lemma IsNotified(s0: System, s: System, p: nat, t: Tid, step: Step) returns (s': System, h: Handle)
    requires Onward(s0, s) && p < |s.pools| && t in s.pools[p].sleeping
    requires (step == NotifyAll && s.pools[p].alls > 0) || (step == NotifyOne(t) && s.pools[p].ones > 0)
    ensures Onward(s0, s') && CanDo(s', AcquireBy(p, t, h)) && |s'.pools| == |s.pools|
    ensures s'.pools[p].free == s.pools[p].free && s'.pools[p].live == s.pools[p].live
    ensures s'.pools[p].closed == s.pools[p].closed
  {
    Go(s0, s, Local(p, step));
    s' := Do(s, Local(p, step));
    h := FreshHandle(s');
    AwakeCanAcquire(s', p, t, h);
  }

  lemma {:induction false} GoesOn(s0: System, s: System, p: nat, t: Tid) returns (s': System, h: Handle)
    requires Onward(s0, s) && p < |s.pools| && t in s.pools[p].sleeping
    ensures Onward(s0, s') && CanDo(s', AcquireBy(p, t, h)) && Answer(s', p, t) != Wait
    decreases s.pools[p].live
  {
    NoLostWakeup(s, p);
    var pool := s.pools[p];
    if pool.closed || pool.live == 0 {
      s', h := IsNotified(s0, s, p, t, NotifyAll);
    } else if pool.free != [] && pool.ones > 0 {
      s', h := IsNotified(s0, s, p, t, NotifyOne(t));
    } else if pool.free != [] {
      var u :| u in pool.awake;
      var s1 := TakenAndReturned(s0, s, p, t, u);
      s', h := IsNotified(s0, s1, p, t, NotifyOne(t));
    } else {
      ReachablePool(s, p);
      var i := TakenSlot(pool);
      var s1 := OneIsReturned(s0, s, p, t, i);
      if s1.pools[p].free != [] && s1.pools[p].ones > 0 {
        s', h := IsNotified(s0, s1, p, t, NotifyOne(t));
      } else {
        s', h := GoesOn(s0, s1, p, t);
      }
    }
  }

  /** From every reachable state in which a thread sleeps in acquire(), some run leads to a pass of that
      thread that answers, without closing the pool, a spurious wake-up or an exception. */
  lemma EverySleeperCanGoOn(s: System, p: nat, t: Tid) returns (s': System, h: Handle)
    requires Reachable(s) && p < |s.pools| && t in s.pools[p].sleeping
    ensures Leads(s, s') && CanDo(s', AcquireBy(p, t, h)) && Answer(s', p, t) != Wait
  {
    Start(s);
    s', h := GoesOn(s, s, p, t);
  }

  // ----- A transfer can complete -----

  /** Slot `i` is leased like this, and `consumed` is what transfers consumed. */
  predicate IsUsed(p: Pool, i: nat, conn: Conn, role: Role, consumed: seq<Consumption>) {
    i < |p.slots| && p.slots[i] == Slot(Some(conn), role) && role.Leased? && p.consumed == consumed
  }

  lemma UseOn(s0: System, s: System, p: nat, i: nat, conn: Conn, role: Role, consumed: seq<Consumption>, step: Step,
              conn': Conn, role': Role, consumed': seq<Consumption>) returns (s': System)
    requires Onward(s0, s) && p < |s.pools| && IsUsed(s.pools[p], i, conn, role, consumed)
    requires IsLocal(step) && Enabled(s.pools[p], step) && !step.Throw? && Touched(s.pools[p], step) == Some(i)
    requires IsUsed(Apply(s.pools[p], step), i, conn', role', consumed')
    ensures Onward(s0, s') && |s'.pools| == |s.pools| && IsUsed(s'.pools[p], i, conn', role', consumed')
  {
    OutsideTheLock(s0, s, p, step, i);
    s' := Do(s, Local(p, step));
  }

  /** From every reachable state, a lease that has not connected can connect, and get and consume any
      completion of its own. */
  lemma EveryLeaseCanComplete(s: System, p: nat, i: nat, c: Completion) returns (s': System)
    requires Reachable(s) && p < |s.pools| && i < |s.pools[p].slots|
    requires s.pools[p].slots[i].role.Leased? && s.pools[p].slots[i].role.use == Unconnected
    requires c.lease == s.pools[p].slots[i].role.number
    ensures Leads(s, s') && p < |s'.pools|
    ensures s'.pools[p].consumed == s.pools[p].consumed + [Consumption(c.lease, c)]
  {
    Start(s);
    FreeConnectionsAreClean(s, p, i);
    var role, consumed := s.pools[p].slots[i].role, s.pools[p].consumed;
    s' := Connects(s, s, p, i, role, consumed);
    s' := ArrivesAndIsTaken(s, s', p, i, role.(use := Finished), consumed, c);
  }

  lemma Connects(s0: System, s: System, p: nat, i: nat, role: Role, consumed: seq<Consumption>) returns (s': System)
    requires Onward(s0, s) && p < |s.pools| && role.Leased? && role.use == Unconnected
    requires IsUsed(s.pools[p], i, Conn(Init, []), role, consumed)
    ensures Onward(s0, s') && |s'.pools| == |s.pools|
    ensures IsUsed(s'.pools[p], i, Conn(Rts, []), role.(use := Finished), consumed)
  {
    var toRtr, toRts := role.(use := ToRtr), role.(use := ToRts(false));
    var s1 := UseOn(s0, s, p, i, Conn(Init, []), role, consumed, StartConnect(i, true), Conn(Init, []), toRtr,
      consumed);
    var s2 := UseOn(s0, s1, p, i, Conn(Init, []), toRtr, consumed, ModifyRtr(i, true, Err), Conn(Rtr, []), toRts,
      consumed);
    s' := UseOn(s0, s2, p, i, Conn(Rtr, []), toRts, consumed, ModifyRts(i, true, Err),
                Conn(Rts, []), role.(use := Finished), consumed);
  }

  lemma ArrivesAndIsTaken(s0: System, s: System, p: nat, i: nat, role: Role, consumed: seq<Consumption>, c: Completion)
    returns (s': System)
    requires Onward(s0, s) && p < |s.pools| && role.Leased? && role.use == Finished && c.lease == role.number
    requires IsUsed(s.pools[p], i, Conn(Rts, []), role, consumed)
    ensures Onward(s0, s') && |s'.pools| == |s.pools|
    ensures IsUsed(s'.pools[p], i, Conn(Rts, []), role, consumed + [Consumption(c.lease, c)])
  {
    assert [] + [c] == [c];
    var s1 := UseOn(s0, s, p, i, Conn(Rts, []), role, consumed, Arrive(i, c), Conn(Rts, [c]), role, consumed);
    var conn := s1.pools[p].slots[i].conn.value;
    assert conn.(cq := conn.cq[1..]) == Conn(Rts, []);
    s' := UseOn(s0, s1, p, i, Conn(Rts, [c]), role, consumed, Poll(i), Conn(Rts, []), role,
                consumed + [Consumption(c.lease, c)]);
  }
}
