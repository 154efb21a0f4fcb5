/** What whole runs of initWith(), shutdownInstance() and calls bring about, whatever runs beside them. */
module LifecycleRuns {
  import opened Basics
  import opened Lifecycle

  /** A run during which the init mutex is held, and at whose end it is free again. */
  predicate HoldsTheMutex(s: Library, run: seq<Step>)
    requires Runs(s, run)
    decreases |run|
  {
    if run == [] then s.holder == NoHolder
    else s.holder != NoHolder && HoldsTheMutex(Apply(s, run[0]), run[1..])
  }

  // ----- shutdownInstance() -----

  predicate IsClosed(s: Library, i: InstanceId) { i in s.instances && s.instances[i].closed }

  /** A shutdown that began in `s0` is on its way. */
  predicate ShuttingDown(s0: Library, s: Library) {
    match s.holder
    case ShutdownTaking => s.published == s0.published
    case ShutdownTaken(taken) => s.published.None? && taken == s0.published
    case ShutdownClosed(i) => s.published.None? && s0.published == Some(i) && IsClosed(s, i)
    case _ => false
  }

  /** It is over: nothing is published, and what was published is closed. */
  predicate ShutDown(s0: Library, s: Library) {
    s.holder == NoHolder && s.published.None? && (s0.published.Some? ==> IsClosed(s, s0.published.value))
  }

  lemma ShutdownGoesOn(s0: Library, s: Library, step: Step)
    requires ShuttingDown(s0, s) && Enabled(s, step)
    ensures ShuttingDown(s0, Apply(s, step)) || ShutDown(s0, Apply(s, step))
  {
  }

  lemma {:induction false} ShutdownRun(s0: Library, s: Library, run: seq<Step>)
    requires ShuttingDown(s0, s) && Runs(s, run) && HoldsTheMutex(s, run)
    ensures ShutDown(s0, After(s, run))
    decreases |run|
  {
    if run == [] {
    } else {
      var s1 := Apply(s, run[0]);
      ShutdownGoesOn(s0, s, run[0]);
      if ShuttingDown(s0, s1) {
        ShutdownRun(s0, s1, run[1..]);
      } else {
        FreeEndsIt(s1, run[1..]);
      }
    }
  }

  lemma FreeEndsIt(s: Library, run: seq<Step>)
    requires s.holder == NoHolder && Runs(s, run) && HoldsTheMutex(s, run)
    ensures run == []
  {
  }

  /** Whatever runs beside it, when a shutdown returns nothing is published, and the instance that was
      published when it began is closed. */
  lemma ShutdownTakesOutAndCloses(s: Library, run: seq<Step>)
    requires Enabled(s, LockForShutdown)
    requires Runs(Apply(s, LockForShutdown), run) && HoldsTheMutex(Apply(s, LockForShutdown), run)
    ensures var end := After(Apply(s, LockForShutdown), run);
      end.published.None? && (s.published.Some? ==> IsClosed(end, s.published.value))
  {
    ShutdownRun(s, Apply(s, LockForShutdown), run);
  }

  /** And it can always return. */
  lemma ShutdownCanFinish(s: Library) returns (run: seq<Step>)
    requires Reachable(s) && s.holder == NoHolder
    ensures Enabled(s, LockForShutdown)
    ensures Runs(Apply(s, LockForShutdown), run) && HoldsTheMutex(Apply(s, LockForShutdown), run)
  {
    ReachableInv(s);
    var s1 := Apply(s, LockForShutdown);
    var s2 := Apply(s1, TakeOut);
    if s.published.None? {
      run := [TakeOut, LetGo];
      OneMore(s2, LetGo);
      TwoMore(s1, TakeOut, [LetGo]);
    } else {
      var s3 := Apply(s2, ClosePool);
      run := [TakeOut, ClosePool, LetGo];
      OneMore(s3, LetGo);
      TwoMore(s2, ClosePool, [LetGo]);
      TwoMore(s1, TakeOut, [ClosePool, LetGo]);
    }
  }

  lemma OneMore(s: Library, step: Step)
    requires s.holder != NoHolder && Enabled(s, step) && Apply(s, step).holder == NoHolder
    ensures Runs(s, [step]) && HoldsTheMutex(s, [step])
  {
    assert [step][1..] == [];
    assert Runs(Apply(s, step), []);
  }

  lemma TwoMore(s: Library, step: Step, rest: seq<Step>)
    requires s.holder != NoHolder && Enabled(s, step)
    requires Runs(Apply(s, step), rest) && HoldsTheMutex(Apply(s, step), rest)
    ensures Runs(s, [step] + rest) && HoldsTheMutex(s, [step] + rest)
  {
    assert ([step] + rest)[1..] == rest;
  }

  // ----- initWith() -----

  /** Nothing that initWith() does fails: every connection is created, and nothing throws. */
  predicate Works(run: seq<Step>, want: nat) {
    forall k :: 0 <= k < |run| ==>
      run[k] != FailBuild && run[k] != PublishThrows && (run[k].Build? ==> run[k].conns == want)
  }

  /** The instance is new since `s0`, and has what was asked for. */
  predicate IsNewAndComplete(s0: Library, s: Library, i: InstanceId, want: nat) {
    && i !in s0.instances && i in s.instances && !s.instances[i].closed
    && s.instances[i].conns == s.instances[i].want == want
  }

  /** An initWith() that began in `s0` is on its way, and nothing has failed. */
  predicate Initializing(s0: Library, s: Library, want: nat) {
    && s.published == s0.published && s0.instances.Keys <= s.instances.Keys
    && match s.holder
       case InitChecking(w) => w == want
       case InitBuilding(w) => w == want && s0.published.None?
       case InitBuilt(i) => s0.published.None? && IsNewAndComplete(s0, s, i, want)
       case _ => false
  }

  /** It is over: what was published still is, or else a new and complete instance is. */
  predicate Initialized(s0: Library, s: Library, want: nat) {
    && s.holder == NoHolder
    && if s0.published.Some? then s.published == s0.published
       else s.published.Some? && IsNewAndComplete(s0, s, s.published.value, want)
  }

  lemma InitGoesOn(s0: Library, s: Library, want: nat, step: Step)
    requires Initializing(s0, s, want) && Enabled(s, step) && Works([step], want)
    ensures Initializing(s0, Apply(s, step), want) || Initialized(s0, Apply(s, step), want)
  {
    assert step == [step][0];
    if ByACall(step) { CallsLeaveInitAlone(s0, s, want, step); }
  }

  lemma CallsLeaveInitAlone(s0: Library, s: Library, want: nat, step: Step)
    requires Initializing(s0, s, want) && Enabled(s, step) && ByACall(step)
    ensures Initializing(s0, Apply(s, step), want)
  {
  }

  lemma {:induction false} InitRun(s0: Library, s: Library, want: nat, run: seq<Step>)
    requires Initializing(s0, s, want) && Runs(s, run) && HoldsTheMutex(s, run) && Works(run, want)
    ensures Initialized(s0, After(s, run), want)
    decreases |run|
  {
    if run == [] {
    } else {
      var s1 := Apply(s, run[0]);
      assert Works([run[0]], want);
      InitGoesOn(s0, s, want, run[0]);
      assert Works(run[1..], want);
      if Initializing(s0, s1, want) {
        InitRun(s0, s1, want, run[1..]);
      } else {
        FreeEndsIt(s1, run[1..]);
      }
    }
  }

  /** Whatever runs beside it, an initWith() that nothing fails publishes a new instance with the
      connections asked for, unless one was published already, which then stays. */
  lemma InitPublishes(s: Library, want: nat, run: seq<Step>)
    requires Enabled(s, LockForInit(want)) && Works(run, want)
    requires Runs(Apply(s, LockForInit(want)), run) && HoldsTheMutex(Apply(s, LockForInit(want)), run)
    ensures Initialized(s, After(Apply(s, LockForInit(want)), run), want)
  {
    InitRun(s, Apply(s, LockForInit(want)), want, run);
  }

  /** And it can always get there. */
  lemma InitCanFinish(s: Library, want: nat, i: InstanceId) returns (run: seq<Step>)
    requires s.holder == NoHolder && i !in s.instances
    ensures Enabled(s, LockForInit(want)) && Works(run, want)
    ensures Runs(Apply(s, LockForInit(want)), run) && HoldsTheMutex(Apply(s, LockForInit(want)), run)
  {
    var s1 := Apply(s, LockForInit(want));
    if s.published.Some? {
      run := [CheckPublished];
      OneMore(s1, CheckPublished);
    } else {
      run := [CheckPublished, Build(i, want), Publish];
      var s2 := Apply(s1, CheckPublished);
      var s3 := Apply(s2, Build(i, want));
      OneMore(s3, Publish);
      TwoMore(s2, Build(i, want), [Publish]);
      TwoMore(s1, CheckPublished, [Build(i, want), Publish]);
    }
  }

  // ----- Calls -----

  /** A call begins on the instance that is published, and owns nothing of it yet. */
  lemma CallFindsThePublished(s: Library, c: CallId)
    requires Reachable(s) && Enabled(s, BeginCall(c))
    ensures var s' := Apply(s, BeginCall(c));
      && c !in s.calls && s.published.Some? && c in s'.calls && s'.calls[c] == Call(s.published.value, 0, 0)
      && s'.instances[s.published.value].refs == s.instances[s.published.value].refs + 1
  {
  }

  /** What calls can do, in every reachable state: begin exactly while something is published, lease exactly
      while the pool is open, set slots aside at any time, and return what they own. */
  lemma WhatCallsCanDo(s: Library, c: CallId)
    requires Reachable(s)
    ensures Enabled(s, BeginCall(c)) <==> c !in s.calls && s.published.Some?
    ensures Enabled(s, Acquire(c)) <==> c in s.calls && !IsClosed(s, s.calls[c].i)
    ensures Enabled(s, SetAside(c)) <==> c in s.calls
    ensures Enabled(s, Release(c)) <==> c in s.calls && s.calls[c].leases > 0
    ensures Enabled(s, GiveBack(c)) <==> c in s.calls && s.calls[c].slots > 0
    ensures Enabled(s, EndCall(c)) <==> c in s.calls && s.calls[c].leases == 0 && s.calls[c].slots == 0
  {
    KnownToCalls(s, c);
  }

  lemma KnownToCalls(s: Library, c: CallId)
    requires Reachable(s)
    ensures s.published.Some? ==> s.published.value in s.instances
    ensures c in s.calls ==> s.calls[c].i in s.instances
  {
    ReachableInv(s);
  }

  /** A call keeps its instance alive until it returns, whatever else happens. */
  lemma {:induction false} CallKeepsItsInstance(s: Library, run: seq<Step>, c: CallId)
    requires Reachable(s) && c in s.calls && Runs(s, run)
    requires forall k :: 0 <= k < |run| ==> run[k] != EndCall(c)
    ensures var end := After(s, run);
      && c in end.calls && end.calls[c].i == s.calls[c].i
      && end.calls[c].i in end.instances && !end.instances[end.calls[c].i].destroyed
    decreases |run|
  {
    if run == [] {
      ReachableInv(s);
      DestroyedAfterTheLastCall(s, s.calls[c].i);
    } else {
      assert run[0] != EndCall(c);
      CallStays(s, run[0], c);
      ReachableStep(s, run[0]);
      assert forall k :: 0 <= k < |run[1..]| ==> run[1..][k] == run[k + 1];
      CallKeepsItsInstance(Apply(s, run[0]), run[1..], c);
    }
  }

  lemma CallStays(s: Library, step: Step, c: CallId)
    requires c in s.calls && Enabled(s, step) && step != EndCall(c)
    ensures c in Apply(s, step).calls && Apply(s, step).calls[c].i == s.calls[c].i
  {
  }

  lemma {:induction false} RunAppend(s: Library, run: seq<Step>, step: Step)
    requires Runs(s, run) && Enabled(After(s, run), step)
    ensures Runs(s, run + [step]) && After(s, run + [step]) == Apply(After(s, run), step)
    decreases |run|
  {
    if run == [] {
      assert run + [step] == [step];
      assert Runs(Apply(s, step), []);
    } else {
      assert (run + [step])[1..] == run[1..] + [step];
      RunAppend(Apply(s, run[0]), run[1..], step);
    }
  }

  lemma ReachableStep(s: Library, step: Step)
    requires Reachable(s) && Enabled(s, step)
    ensures Reachable(Apply(s, step))
  {
    var run :| Runs(NewLibrary, run) && s == After(NewLibrary, run);
    RunAppend(NewLibrary, run, step);
  }

  /** Taking and returning a lease or a slot moves the call's count and its instance's by one, and back. */
  lemma OwningMovesBothCounts(s: Library, c: CallId)
    requires Reachable(s) && c in s.calls && Enabled(s, Acquire(c)) && Enabled(s, SetAside(c))
    ensures var i, s1, s2 := s.calls[c].i, Apply(s, Acquire(c)), Apply(s, SetAside(c));
      && s1.calls[c].leases == s.calls[c].leases + 1 && s1.instances[i].leased == s.instances[i].leased + 1
      && s2.calls[c].slots == s.calls[c].slots + 1 && s2.instances[i].reserved == s.instances[i].reserved + 1
      && Enabled(s1, Release(c)) && Apply(s1, Release(c)) == s
      && Enabled(s2, GiveBack(c)) && Apply(s2, GiveBack(c)) == s
  {
    assert s.calls == s.calls[c := s.calls[c]];
    assert s.instances == s.instances[s.calls[c].i := s.instances[s.calls[c].i]];
  }

  /** A call can always return. */
  lemma {:induction false} CallCanReturn(s: Library, c: CallId) returns (run: seq<Step>)
    requires Reachable(s) && c in s.calls
    ensures Runs(s, run) && c !in After(s, run).calls && After(s, run).published == s.published
    decreases s.calls[c].leases + s.calls[c].slots
  {
    ReachableInv(s);
    var step := if s.calls[c].leases > 0 then Release(c) else if s.calls[c].slots > 0 then GiveBack(c) else EndCall(c);
    var s1 := Apply(s, step);
    ReachableStep(s, step);
    if step == EndCall(c) {
      run := [step];
      assert [step][1..] == [];
      assert Runs(s1, []);
    } else {
      var rest := CallCanReturn(s1, c);
      run := [step] + rest;
      assert run[1..] == rest;
    }
  }
}
