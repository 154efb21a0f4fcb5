/** What holds of every run of `StagingLifetime`: staging buffers are never freed under a running
    copy, leaks are exactly justified, use counts are exact, and nothing made is lost. */
module StagingResults {
  import opened Basics
  import opened Addressing
  import opened Buffers
  import opened StagingLifetime

  // ----- Results about every run -----

  predicate Runs(w: World, run: seq<Step>)
    decreases |run|
  {
    run == [] || (Enabled(w, run[0]) && Runs(Apply(w, run[0]), run[1..]))
  }

  function After(w: World, run: seq<Step>): World
    requires Runs(w, run)
    decreases |run|
  {
    if run == [] then w else After(Apply(w, run[0]), run[1..])
  }

  ghost predicate Reachable(w: World) {
    exists run :: Runs(NewWorld, run) && w == After(NewWorld, run)
  }

  lemma NewWorldInv()
    ensures Inv(NewWorld)
  {
    MapCountZero(NewWorld.calls, HasSlot);
    MapCountZero(NewWorld.calls, RawHasMr);
    MapCountZero(NewWorld.calls, RawHasHost);
    MapCountZero(NewWorld.entries, HasMr);
    MapCountZero(NewWorld.entries, HasHost);
  }

  lemma {:induction false} RunKeepsInv(w: World, run: seq<Step>)
    requires Inv(w) && Runs(w, run)
    ensures Inv(After(w, run))
    decreases |run|
  {
    if run == [] {
    } else {
      StepKeepsInv(w, run[0]);
      RunKeepsInv(Apply(w, run[0]), run[1..]);
    }
  }

  lemma ReachableInv(w: World)
    requires Reachable(w)
    ensures Inv(w)
  {
    var run :| Runs(NewWorld, run) && w == After(NewWorld, run);
    NewWorldInv();
    RunKeepsInv(NewWorld, run);
  }

  lemma {:induction false} RunAppend(w: World, run: seq<Step>, step: Step)
    requires Runs(w, run) && Enabled(After(w, run), step)
    ensures Runs(w, run + [step]) && After(w, run + [step]) == Apply(After(w, run), step)
    decreases |run|
  {
    if run == [] {
      assert run + [step] == [step];
      assert Runs(Apply(w, step), []);
    } else {
      assert (run + [step])[1..] == run[1..] + [step];
      RunAppend(Apply(w, run[0]), run[1..], step);
    }
  }

  lemma ReachableStep(w: World, step: Step)
    requires Reachable(w) && Enabled(w, step)
    ensures Reachable(Apply(w, step))
  {
    var run :| Runs(NewWorld, run) && w == After(NewWorld, run);
    RunAppend(NewWorld, run, step);
  }

  /** In every run, a staging buffer is never freed while a copy whose event was recorded still
      uses it: it is allocated, or has been leaked on purpose. */
  lemma NeverFreedUnderACopy(w: World, k: CopyId)
    requires Reachable(w) && k in w.copies && w.copies[k].place != Untracked && !w.copies[k].over
    ensures w.copies[k].entry in w.entries
    ensures var e := w.entries[w.copies[k].entry];
      e.staging == Allocated || (e.staging == Leaked && w.copies[k].verdict == WasRunning)
  {
    ReachableInv(w);
    RunningCopyHasItsBuffer(w, k);
  }

  lemma RunningCopyHasItsBuffer(w: World, k: CopyId)
    requires RefsOk(w) && LinksOk(w) && k in w.copies && w.copies[k].place != Untracked && !w.copies[k].over
    ensures w.copies[k].entry in w.entries
    ensures var e := w.entries[w.copies[k].entry];
      e.staging == Allocated || (e.staging == Leaked && w.copies[k].verdict == WasRunning)
  {
    var copy := w.copies[k];
    assert CopyOk(w, k, copy);
    assert EntryOk(w.entries[copy.entry]);
    CopyCounts(w, k);
    if copy.place.InCall? {
      assert CallOk(w, copy.place.c, w.calls[copy.place.c]);
      CallCounts(w, copy.place.c);
    }
  }

  /** Once the instance is destroyed, every registration is released, and a staging buffer was
      leaked exactly when one of its abandoned copies was still running when the destructor asked. */
  lemma LeakedExactlyWhenStillRunning(w: World, e: EntryId)
    requires Reachable(w) && w.stage == Destroyed && e in w.entries
    ensures w.entries[e].refs == 0 && !w.entries[e].mr
    ensures w.entries[e].staging == Leaked <==> LeakJustified(w, e)
    ensures w.entries[e].staging == Freed <==> w.entries[e].staging != NoStaging && !LeakJustified(w, e)
  {
    ReachableInv(w);
    forall k | k in w.copies
      ensures !KeepsEntry(e)(w.copies[k])
    {
      assert CopyOk(w, k, w.copies[k]);
    }
    MapCountZero(w.table, IsEntry(e));
    MapCountZero(w.calls, HoldsEntry(e));
    MapCountZero(w.calls, MadeEntry(e));
    MapCountZero(w.copies, KeepsEntry(e));
    assert EntryOk(w.entries[e]);
    if LeakJustified(w, e) {
      var k :| k in w.copies && w.copies[k].entry == e && w.copies[k].verdict == WasRunning;
      assert CopyOk(w, k, w.copies[k]);
    }
  }

  /** An entry's use count is its references, and deregisterBuffer() removes it only when no call
      and no abandoned copy holds it. */
  lemma RemovedOnlyWhenUnheld(w: World, key: uint64)
    requires Reachable(w) && key in w.table
    ensures w.table[key] in w.entries && w.entries[w.table[key]].refs == References(w, w.table[key])
    ensures RemoveAnswer(w, key) == Deregistered <==>
      && (forall c :: c in w.calls ==>
            w.calls[c].entry != Some(w.table[key]) && w.calls[c].raw != NewEntry(w.table[key]))
      && (forall k :: k in w.copies ==> !Keeps(w.copies[k], w.table[key]))
  {
    ReachableInv(w);
    RemoveAnswerIs(w, key);
  }

  lemma OneKeyPerEntry(w: World, key: uint64)
    requires KeysOk(w) && key in w.table
    ensures MapCount(w.table, IsEntry(w.table[key])) == 1
  {
    var e := w.table[key];
    assert KeysWith(w.table, IsEntry(e)) == {key};
  }

  lemma RemoveAnswerIs(w: World, key: uint64)
    requires RefsOk(w) && LinksOk(w) && key in w.table
    ensures RemoveAnswer(w, key) == Deregistered <==>
      && (forall c :: c in w.calls ==>
            w.calls[c].entry != Some(w.table[key]) && w.calls[c].raw != NewEntry(w.table[key]))
      && (forall k :: k in w.copies ==> !Keeps(w.copies[k], w.table[key]))
  {
    var e := w.table[key];
    OneKeyPerEntry(w, key);
    assert w.entries[e].refs == References(w, e);
    if RemoveAnswer(w, key) == Deregistered {
      forall c | c in w.calls
        ensures w.calls[c].entry != Some(e) && w.calls[c].raw != NewEntry(e)
      {
        if w.calls[c].entry == Some(e) { MapCountPositive(w.calls, c, HoldsEntry(e)); }
        if w.calls[c].raw == NewEntry(e) { MapCountPositive(w.calls, c, MadeEntry(e)); }
      }
      forall k | k in w.copies
        ensures !Keeps(w.copies[k], e)
      {
        if Keeps(w.copies[k], e) { MapCountPositive(w.copies, k, KeepsEntry(e)); }
      }
    } else {
      if MapCount(w.calls, HoldsEntry(e)) > 0 {
        var c := MapCountWitness(w.calls, HoldsEntry(e));
      } else if MapCount(w.calls, MadeEntry(e)) > 0 {
        var c := MapCountWitness(w.calls, MadeEntry(e));
      } else {
        var k := MapCountWitness(w.copies, KeepsEntry(e));
      }
    }
  }

  /** The table never holds more than 256 entries, in every interleaving of racing calls. */
  lemma TableIsBounded(w: World)
    requires Reachable(w)
    ensures |w.table.Keys| <= MAX_ENTRIES
  {
    ReachableInv(w);
  }

  /** What calls can do, in every reachable state: begin exactly while the instance is published, find
      exactly what is registered, pass the check exactly when no abandoned copy of their buffer runs, start
      a copy after it, and return when they own nothing. */
  lemma WhatCallsCanDo(w: World, c: CallId, key: uint64, k: CopyId, recorded: bool)
    requires Reachable(w)
    ensures Enabled(w, OfTable(c, BeginCall)) <==> w.stage == Serving(true) && c !in w.calls
    ensures c in w.calls ==>
      var call := w.calls[c];
      && (Enabled(w, OfTable(c, Find(key))) <==> call.entry.None? && key in w.table)
      && (Enabled(w, OfTable(c, DropEntry)) <==> call.entry.Some? && call.copy.None?)
      && (Enabled(w, OfCopy(c, Check)) <==>
            call.entry.Some? && call.copy.None? && !AbandonedRuns(w, call.entry.value))
      && (Enabled(w, OfCopy(c, Reserve)) <==> !call.slot)
      && (Enabled(w, OfCopy(c, StartCopy(k, recorded))) <==>
            && call.entry.Some? && call.entry.value in w.entries && w.entries[call.entry.value].staging == Allocated
            && call.checked && call.slot && call.copy.None? && k !in w.copies)
      && (call.copy.Some? ==> Enabled(w, OfCopy(c, Abandon)))
  {
    if c in w.calls {
      ReachableCall(w, c);
      ReachableKey(w, key);
      WhatACallCanDo(w, c, key, k, recorded);
    }
  }

  lemma ReachableKey(w: World, key: uint64)
    requires Reachable(w)
    ensures key in w.table ==> w.table[key] in w.entries
  {
    ReachableInv(w);
  }

  lemma WhatACallCanDo(w: World, c: CallId, key: uint64, k: CopyId, recorded: bool)
    requires c in w.calls && CallOk(w, c, w.calls[c]) && (key in w.table ==> w.table[key] in w.entries)
    ensures var call := w.calls[c];
      && (CanTable(w, c, Find(key)) <==> call.entry.None? && key in w.table)
      && (CanTable(w, c, DropEntry) <==> call.entry.Some? && call.copy.None?)
      && (CanCopy(w, c, Check) <==> call.entry.Some? && call.copy.None? && !AbandonedRuns(w, call.entry.value))
      && (CanCopy(w, c, Reserve) <==> !call.slot)
      && (CanCopy(w, c, StartCopy(k, recorded)) <==>
            && call.entry.Some? && call.entry.value in w.entries && w.entries[call.entry.value].staging == Allocated
            && call.checked && call.slot && call.copy.None? && k !in w.copies)
      && (call.copy.Some? ==> CanCopy(w, c, Abandon))
  {
  }

  /** A registration of an address that is not in the table goes in while there are fewer than 256 entries,
      and otherwise the table stays as it is. */
  lemma InsertAdds(w: World, c: CallId)
    requires Reachable(w) && Enabled(w, OfRegister(c, Insert))
    ensures var w', e := Apply(w, OfRegister(c, Insert)), w.calls[c].raw.e;
      if w.entries[e].key !in w.table && |w.table.Keys| < 256
      then w'.table == w.table[w.entries[e].key := e] && w'.calls[c].raw == NoRaw
      else w'.table == w.table && w'.calls == w.calls
  {
  }

  /** The destructor's verdict on a copy is what was true when it asked, and leaks exactly the entries of the
      copies that were running. */
  lemma QueryTellsTheTruth(w: World)
    requires Reachable(w) && Enabled(w, OfTeardown(Query))
    ensures var w', k := Apply(w, OfTeardown(Query)), w.listed[w.stage.next];
      && k in w'.copies && w'.copies[k].verdict == (if w.copies[k].over then WasOver else WasRunning)
      && forall e :: e in w.entries ==>
           && e in w'.entries
           && (w'.entries[e].leak <==> w.entries[e].leak || (!w.copies[k].over && e == w.copies[k].entry))
  {
  }

  /** Between two registrations of one address there is a deregistration, in every interleaving of
      racing calls. */
  lemma RegistrationsAlternate(w: World, i: nat, j: nat, key: uint64)
    requires Reachable(w) && i < j < |w.log| && w.log[i] == WasRegistered(key) == w.log[j]
    ensures exists m :: i < m < j && w.log[m] == WasDeregistered(key)
  {
    ReachableInv(w);
    assert ClosedBefore(w.log, i, j, w.log[i].key);
  }

  /** Every memory region and staging buffer ever made is freed once, or is owned by an entry still
      referenced or a registration in progress, or was leaked; and no room in the abandoned list is
      outstanding once teardown begins. */
  lemma NothingIsLost(w: World)
    requires Reachable(w)
    ensures w.mrsMade == w.mrsFreed + MapCount(w.entries, HasMr) + MapCount(w.calls, RawHasMr)
    ensures w.hostsMade == w.hostsFreed + MapCount(w.entries, HasHost) + MapCount(w.calls, RawHasHost)
    ensures !w.stage.Serving? ==> w.reserved == 0
    ensures w.stage == Destroyed ==> w.mrsMade == w.mrsFreed
    ensures w.stage == Destroyed ==> w.hostsMade - w.hostsFreed == |LeakedEntries(w)|
  {
    ReachableInv(w);
    if !w.stage.Serving? {
      MapCountZero(w.calls, HasSlot);
      MapCountZero(w.calls, RawHasMr);
      MapCountZero(w.calls, RawHasHost);
    }
    if w.stage == Destroyed { OnlyLeaksAreLeft(w); }
  }

  /** The entries whose staging buffer was leaked. */
  ghost function LeakedEntries(w: World): set<EntryId> { set e | e in w.entries && LeakJustified(w, e) }

  lemma OnlyLeaksAreLeft(w: World)
    requires Reachable(w) && w.stage == Destroyed
    ensures MapCount(w.entries, HasMr) == 0 && MapCount(w.entries, HasHost) == |LeakedEntries(w)|
  {
    forall e | e in w.entries
      ensures !HasMr(w.entries[e]) && (HasHost(w.entries[e]) <==> LeakJustified(w, e))
    {
      LeakedExactlyWhenStillRunning(w, e);
    }
    MapCountZero(w.entries, HasMr);
    assert KeysWith(w.entries, HasHost) == LeakedEntries(w);
  }

  // ----- hipObjBufDeregister -----

  predicate DroppingAre(w: World, c: CallId, swept: seq<CopyId>) {
    forall k :: k in w.copies ==> (w.copies[k].place == Dropping(c) <==> k in swept)
  }

  predicate AllListedOver(w: World) {
    forall i :: 0 <= i < |w.listed| ==> w.listed[i] in w.copies && w.copies[w.listed[i]].over
  }

  /** The copies that are not over, in order. */
  function StillRunning(w: World, ks: seq<CopyId>): seq<CopyId> {
    if ks == [] then []
    else
      var last := ks[|ks| - 1];
      StillRunning(w, ks[..|ks| - 1]) + (if last in w.copies && !w.copies[last].over then [last] else [])
  }

  /** What is over does not change. */
  predicate SameOver(w: World, w': World) {
    w'.copies.Keys == w.copies.Keys && forall k :: k in w.copies ==> w'.copies[k].over == w.copies[k].over
  }

  lemma RunningNext(w: World, ks: seq<CopyId>, n: nat)
    requires n < |ks|
    ensures StillRunning(w, ks[..n + 1]) ==
      StillRunning(w, ks[..n]) + (if ks[n] in w.copies && !w.copies[ks[n]].over then [ks[n]] else [])
  {
    assert ks[..n + 1][..n] == ks[..n];
  }

  /** One call's reclaim(): the copies that are over leave the list, the others stay in order, and the
      references of those that left are dropped after the list's lock is released. */
  method Reclaim(w: World, c: CallId) returns (w': World)
    requires Reachable(w) && c in w.calls && DroppingAre(w, c, [])
    ensures Reachable(w') && w'.calls == w.calls && w'.table == w.table && DroppingAre(w', c, [])
    ensures w'.listed == StillRunning(w, w.listed)
  {
    var swept;
    w', swept := SweepAll(w, c);
    w' := DropAll(w', c, swept);
  }

  /** Takes the copies that are over out of the list. */
  method SweepAll(w: World, c: CallId) returns (w': World, swept: seq<CopyId>)
    requires Reachable(w) && c in w.calls && DroppingAre(w, c, [])
    ensures Reachable(w') && Sweeping(w, w', c, swept, |w'.listed|, |w.listed|)
    ensures w'.listed == StillRunning(w, w.listed)
  {
    w', swept := w, [];
    var i: nat := 0;
    ghost var n: nat := 0;
    SweepStart(w, c);
    while i < |w'.listed|
      invariant Reachable(w') && Sweeping(w, w', c, swept, i, n)
      decreases |w'.listed| - i
    {
      w', swept, i := SweepStep(w, w', c, swept, i, n);
      n := n + 1;
    }
    SweepEnd(w, w', c, swept, i, n);
  }

  lemma SweepStart(w: World, c: CallId)
    requires c in w.calls && DroppingAre(w, c, [])
    ensures Sweeping(w, w, c, [], 0, 0)
  {
    assert w.listed[..0] == [] && w.listed[0..] == w.listed;
  }

  lemma SweepEnd(w: World, w': World, c: CallId, swept: seq<CopyId>, i: nat, n: nat)
    requires Sweeping(w, w', c, swept, i, n) && i >= |w'.listed|
    ensures Sweeping(w, w', c, swept, |w'.listed|, |w.listed|) && w'.listed == StillRunning(w, w.listed)
  {
    assert w.listed[n..] == [];
    assert w.listed[..n] == w.listed;
  }

  /** Looks at the copy at `i`, and takes it out if it is over. */
  method SweepStep(ghost w: World, w1: World, c: CallId, swept: seq<CopyId>, i: nat, ghost n: nat)
    returns (w2: World, swept2: seq<CopyId>, j: nat)
    requires Reachable(w1) && Sweeping(w, w1, c, swept, i, n) && i < |w1.listed|
    ensures Reachable(w2) && Sweeping(w, w2, c, swept2, j, n + 1) && |w2.listed| - j < |w1.listed| - i
  {
    ReachableList(w1);
    var k := w1.listed[i];
    if w1.copies[k].over {
      SweepNext(w, w1, c, swept, i, n);
      w2, swept2, j := DoCopy(w1, c, Sweep(i)), swept + [k], i;
    } else {
      SkipNext(w, w1, c, swept, i, n);
      w2, swept2, j := w1, swept, i + 1;
    }
  }

  /** Where reclaim() is once it has looked at the first `n` copies. */
  predicate Sweeping(w: World, w': World, c: CallId, swept: seq<CopyId>, i: nat, n: nat) {
    && w'.calls == w.calls && c in w.calls && w'.table == w.table && SameOver(w, w')
    && n <= |w.listed| && i == |StillRunning(w, w.listed[..n])|
    && w'.listed == StillRunning(w, w.listed[..n]) + w.listed[n..]
    && DroppingAre(w', c, swept) && NoDuplicates(swept)
    && (forall k :: k in swept ==> k in w'.copies)
  }

  lemma SweepNext(w: World, w': World, c: CallId, swept: seq<CopyId>, i: nat, n: nat)
    requires Reachable(w') && Sweeping(w, w', c, swept, i, n) && i < |w'.listed|
    requires w'.listed[i] in w'.copies && w'.copies[w'.listed[i]].over
    ensures CanCopy(w', c, Sweep(i)) && Reachable(DoCopy(w', c, Sweep(i)))
    ensures Sweeping(w, DoCopy(w', c, Sweep(i)), c, swept + [w'.listed[i]], i, n + 1)
    ensures |DoCopy(w', c, Sweep(i)).listed| == |w'.listed| - 1
  {
    SweepOne(w', c, i, swept);
    RunningNext(w, w.listed, n);
    Erasing(StillRunning(w, w.listed[..n]), w.listed, n);
  }

  lemma SkipNext(w: World, w': World, c: CallId, swept: seq<CopyId>, i: nat, n: nat)
    requires Sweeping(w, w', c, swept, i, n) && i < |w'.listed|
    requires w'.listed[i] in w'.copies && !w'.copies[w'.listed[i]].over
    ensures Sweeping(w, w', c, swept, i + 1, n + 1)
  {
    RunningNext(w, w.listed, n);
    Erasing(StillRunning(w, w.listed[..n]), w.listed, n);
  }

  lemma Erasing(kept: seq<CopyId>, ks: seq<CopyId>, n: nat)
    requires n < |ks|
    ensures (kept + ks[n..])[|kept|] == ks[n]
    ensures Erase(kept + ks[n..], |kept|) == kept + ks[n + 1..]
    ensures kept + ks[n..] == kept + [ks[n]] + ks[n + 1..]
  {
  }

  /** Drops the references of the copies that left the list. */
  method DropAll(w: World, c: CallId, ks: seq<CopyId>) returns (w': World)
    requires Reachable(w) && c in w.calls && DroppingAre(w, c, ks) && NoDuplicates(ks)
    requires forall k :: k in ks ==> k in w.copies
    ensures Reachable(w') && w'.calls == w.calls && w'.table == w.table && w'.listed == w.listed
    ensures DroppingAre(w', c, [])
  {
    w' := w;
    var swept := ks;
    while swept != []
      invariant Reachable(w') && w'.calls == w.calls && w'.table == w.table && w'.listed == w.listed
      invariant DroppingAre(w', c, swept) && NoDuplicates(swept)
      invariant forall k :: k in swept ==> k in w'.copies
      decreases |swept|
    {
      DropOne(w', c, swept);
      w' := DoCopy(w', c, DropSwept(swept[0]));
      swept := swept[1..];
    }
  }

  lemma {:induction false} NoneRunning(w: World, ks: seq<CopyId>)
    requires forall i :: 0 <= i < |ks| ==> ks[i] in w.copies && w.copies[ks[i]].over
    ensures StillRunning(w, ks) == []
  {
    if ks == [] {
    } else {
      NoneRunning(w, ks[..|ks| - 1]);
    }
  }

  lemma ReachableList(w: World)
    requires Reachable(w)
    ensures NoDuplicates(w.listed)
    ensures forall i :: 0 <= i < |w.listed| ==> w.listed[i] in w.copies && w.copies[w.listed[i]].place == Listed
  {
    ReachableInv(w);
    forall i | 0 <= i < |w.listed|
      ensures w.listed[i] in w.copies && w.copies[w.listed[i]].place == Listed
    {
      ListedOk(w, i);
    }
  }

  lemma ReachableCall(w: World, c: CallId)
    requires Reachable(w) && c in w.calls
    ensures CallOk(w, c, w.calls[c])
  {
    ReachableInv(w);
  }

  lemma ReachableCopy(w: World, k: CopyId)
    requires Reachable(w) && k in w.copies
    ensures CopyOk(w, k, w.copies[k])
  {
    ReachableInv(w);
  }

  lemma SweepEffect(w: World, c: CallId, i: nat, swept: seq<CopyId>)
    requires CanCopy(w, c, Sweep(i)) && DroppingAre(w, c, swept) && NoDuplicates(swept) && NoDuplicates(w.listed)
    requires w.copies[w.listed[i]].place == Listed
    ensures var w' := DoCopy(w, c, Sweep(i));
      && DroppingAre(w', c, swept + [w.listed[i]]) && NoDuplicates(swept + [w.listed[i]])
      && |w'.listed| == |w.listed| - 1
  {
  }

  lemma SweepOne(w: World, c: CallId, i: nat, swept: seq<CopyId>)
    requires Reachable(w) && c in w.calls && i < |w.listed|
    requires w.listed[i] in w.copies && w.copies[w.listed[i]].over
    requires DroppingAre(w, c, swept) && NoDuplicates(swept)
    ensures Enabled(w, OfCopy(c, Sweep(i))) && Reachable(DoCopy(w, c, Sweep(i)))
    ensures var w' := DoCopy(w, c, Sweep(i));
      && DroppingAre(w', c, swept + [w.listed[i]]) && NoDuplicates(swept + [w.listed[i]])
      && |w'.listed| == |w.listed| - 1 && SameOver(w, w')
  {
    ReachableList(w);
    ReachableStep(w, OfCopy(c, Sweep(i)));
    SweepEffect(w, c, i, swept);
  }

  lemma DropEffect(w: World, c: CallId, swept: seq<CopyId>)
    requires swept != [] && CanCopy(w, c, DropSwept(swept[0])) && DroppingAre(w, c, swept) && NoDuplicates(swept)
    ensures var w' := DoCopy(w, c, DropSwept(swept[0]));
      DroppingAre(w', c, swept[1..]) && NoDuplicates(swept[1..]) && w'.listed == w.listed
        && w'.copies.Keys == w.copies.Keys
  {
    assert swept == [swept[0]] + swept[1..];
    assert forall j :: 0 <= j < |swept[1..]| ==> swept[1..][j] == swept[j + 1];
  }

  lemma DropOne(w: World, c: CallId, swept: seq<CopyId>)
    requires Reachable(w) && c in w.calls && swept != [] && swept[0] in w.copies
    requires DroppingAre(w, c, swept) && NoDuplicates(swept)
    ensures Enabled(w, OfCopy(c, DropSwept(swept[0]))) && Reachable(DoCopy(w, c, DropSwept(swept[0])))
    ensures var w' := DoCopy(w, c, DropSwept(swept[0]));
      DroppingAre(w', c, swept[1..]) && NoDuplicates(swept[1..]) && w'.listed == w.listed
        && w'.copies.Keys == w.copies.Keys
  {
    ReachableCopy(w, swept[0]);
    ReachableStep(w, OfCopy(c, DropSwept(swept[0])));
    DropEffect(w, c, swept);
  }

  /** hipObjBufDeregister(): reclaim, then remove the entry if nothing else holds it. When no other
      call is in progress and every abandoned copy is over, it always succeeds. */
  method BufDeregister(w: World, c: CallId, key: uint64) returns (w': World, r: DeregisterResult)
    requires Reachable(w) && c in w.calls && w.calls[c] == IdleCall && DroppingAre(w, c, [])
    ensures Reachable(w') && w'.calls == w.calls
    ensures r == NotRegistered <==> key !in w.table
    ensures r == Deregistered ==> w'.table == w.table - {key}
    ensures r != Deregistered ==> w'.table == w.table
    ensures key in w.table && w.calls.Keys == {c} && AllListedOver(w) ==> r == Deregistered
  {
    w' := Reclaim(w, c);
    r := RemoveAnswer(w', key);
    if w.calls.Keys == {c} && AllListedOver(w) && key in w.table {
      NoneRunning(w, w.listed);
      QuietEntryIsFree(w', c, key);
    }
    if r == Deregistered {
      RemoveAndDrop(w', c, key);
      w' := Apply(w', OfTable(c, Remove(key)));
      w' := Apply(w', OfTable(c, DropEntry));
    }
  }

  lemma QuietEntryIsFree(w: World, c: CallId, key: uint64)
    requires Reachable(w) && key in w.table && w.calls.Keys == {c} && w.calls[c] == IdleCall
    requires w.listed == [] && DroppingAre(w, c, [])
    ensures RemoveAnswer(w, key) == Deregistered
  {
    forall k | k in w.copies
      ensures !Keeps(w.copies[k], w.table[key])
    {
      ReachableCopy(w, k);
    }
    RemovedOnlyWhenUnheld(w, key);
  }

  lemma RemoveAndDrop(w: World, c: CallId, key: uint64)
    requires Reachable(w) && c in w.calls && w.calls[c] == IdleCall && RemoveAnswer(w, key) == Deregistered
    ensures Enabled(w, OfTable(c, Remove(key)))
    ensures var w1 := Apply(w, OfTable(c, Remove(key)));
      && Enabled(w1, OfTable(c, DropEntry))
      && Reachable(Apply(w1, OfTable(c, DropEntry)))
      && Apply(w1, OfTable(c, DropEntry)).calls == w.calls
      && Apply(w1, OfTable(c, DropEntry)).table == w.table - {key}
  {
    RemovedOnlyWhenUnheld(w, key);
    ReachableStep(w, OfTable(c, Remove(key)));
    var w1 := Apply(w, OfTable(c, Remove(key)));
    ReachableStep(w1, OfTable(c, DropEntry));
    assert Apply(w1, OfTable(c, DropEntry)).calls == w.calls;
  }

  // ----- The copy that nothing tracks -----

  /** A buffer registered through a staging buffer at address 16, with a call in progress. */
  lemma RegisteredStaged() returns (w: World)
    ensures Reachable(w) && w.stage == Serving(true) && w.calls == map[0 := IdleCall] && w.copies == map[]
    ensures w.table == map[16 := 0] && w.entries == map[0 := Entry(16, Allocated, true, 1, false)]
  {
    w := NewWorld;
    assert Runs(w, []) && w == After(w, []);
    var run := [OfTable(0, BeginCall), OfRegister(0, AllocateHost(16)), OfRegister(0, RegisterHostMr),
                OfRegister(0, MakeEntry(0)), OfRegister(0, Insert)];
    for i := 0 to |run|
      invariant Reachable(w) && w.stage == Serving(true) && w.copies == map[]
      invariant w.calls == if i == 0 then map[] else map[0 := IdleCall.(raw :=
        if i == 2 then RawHost(16) else if i == 3 then RawHostMr(16) else if i == 4 then NewEntry(0) else NoRaw)]
      invariant w.entries == if i < 4 then map[] else map[0 := Entry(16, Allocated, true, 1, false)]
      invariant w.table == if i < 5 then map[] else map[16 := 0]
    {
      ReachableStep(w, run[i]);
      w := Apply(w, run[i]);
    }
  }

  /** The guarantee does not extend to a copy whose event could not be recorded: the call returns an
      error and hands nothing over, so the buffer can be deregistered and freed under the copy. */
  lemma UnrecordedCopyCanOutliveItsBuffer() returns (w: World)
    ensures Reachable(w)
    ensures 0 in w.copies && w.copies[0].place == Untracked && !w.copies[0].over
    ensures w.copies[0].entry in w.entries && w.entries[w.copies[0].entry].staging == Freed
  {
    w := UnrecordedCopy();
    ReachableStep(w, OfTable(0, Remove(16)));
    w := Apply(w, OfTable(0, Remove(16)));
    ReachableStep(w, OfTable(0, DropEntry));
    w := Apply(w, OfTable(0, DropEntry));
  }

  /** The call that started the copy has returned, and the buffer is still registered. */
  lemma UnrecordedCopy() returns (w: World)
    ensures Reachable(w) && w.calls == map[0 := IdleCall]
    ensures w.copies == map[0 := Copy(0, false, Untracked, NotAsked)]
    ensures w.table == map[16 := 0] && w.entries == map[0 := Entry(16, Allocated, true, 1, false)]
  {
    w := AboutToCopy();
    ReachableStep(w, OfCopy(0, StartCopy(0, false)));
    w := Apply(w, OfCopy(0, StartCopy(0, false)));
    w := GivesBackAndDrops(w);
  }

  /** A call has found the buffer, passed the check and set a slot aside. */
  lemma AboutToCopy() returns (w: World)
    ensures Reachable(w) && w.copies == map[] && w.table == map[16 := 0]
    ensures w.calls == map[0 := IdleCall.(entry := Some(0), slot := true, checked := true)]
    ensures w.entries == map[0 := Entry(16, Allocated, true, 2, false)]
  {
    w := RegisteredStaged();
    var run := [OfTable(0, Find(16)), OfCopy(0, Check), OfCopy(0, Reserve)];
    for i := 0 to |run|
      invariant Reachable(w) && w.table == map[16 := 0] && w.copies == map[]
      invariant w.calls ==
        map[0 := IdleCall.(entry := if i < 1 then None else Some(0), slot := i == 3, checked := i >= 2)]
      invariant w.entries == map[0 := Entry(16, Allocated, true, if i < 1 then 1 else 2, false)]
    {
      ReachableStep(w, run[i]);
      w := Apply(w, run[i]);
    }
  }

  lemma GivesBackAndDrops(w: World) returns (w': World)
    requires Reachable(w) && w.calls == map[0 := IdleCall.(entry := Some(0), slot := true, checked := true)]
    requires w.entries == map[0 := Entry(16, Allocated, true, 2, false)]
    ensures Reachable(w') && w'.calls == map[0 := IdleCall] && w'.copies == w.copies && w'.table == w.table
    ensures w'.entries == map[0 := Entry(16, Allocated, true, 1, false)]
  {
    ReachableStep(w, OfCopy(0, GiveBack));
    w' := Apply(w, OfCopy(0, GiveBack));
    ReachableStep(w', OfTable(0, DropEntry));
    w' := Apply(w', OfTable(0, DropEntry));
  }
}
