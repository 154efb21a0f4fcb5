/** How an instance ends: from every reachable state all calls can return and the destructor can
    finish, with copies still running or not. A copy that nothing tracks keeps running meanwhile, so
    its buffer can go first. */
module StagingEnds {
  import opened Basics
  import opened Addressing
  import opened Buffers
  import opened StagingLifetime
  import opened StagingResults

  /** Some run leads from `w` to `w'`. */
  ghost predicate Leads(w: World, w': World) {
    exists run :: Runs(w, run) && After(w, run) == w'
  }

  lemma LeadsNowhere(w: World)
    ensures Leads(w, w)
  {
    assert Runs(w, []) && After(w, []) == w;
  }

  lemma LeadsStep(w: World, w': World, step: Step)
    requires Leads(w, w') && Enabled(w', step)
    ensures Leads(w, Apply(w', step))
  {
    var run :| Runs(w, run) && After(w, run) == w';
    RunAppend(w, run, step);
  }

  /** Every copy whose event was recorded is over, and none was running when the destructor asked. */
  predicate Calm(w: World) {
    forall k :: k in w.copies ==>
      (w.copies[k].place != Untracked ==> w.copies[k].over) && w.copies[k].verdict != WasRunning
  }

  /** The copies that nothing tracks are as they were. */
  predicate UntrackedKept(w: World, w': World) {
    forall u :: u in w.copies && w.copies[u].place == Untracked ==> u in w'.copies && w'.copies[u] == w.copies[u]
  }

  /** What each step here keeps. */
  predicate Keeps(w: World, w': World) { UntrackedKept(w, w') && (Calm(w) ==> Calm(w')) }

  /** `w` comes after `w0`. */
  ghost predicate Onward(w0: World, w: World) { Reachable(w) && Leads(w0, w) && Keeps(w0, w) }

  lemma Start(w: World)
    requires Reachable(w)
    ensures Onward(w, w)
  {
    LeadsNowhere(w);
  }

  lemma Go(w0: World, w: World, step: Step)
    requires Onward(w0, w) && Enabled(w, step) && Keeps(w, Apply(w, step))
    ensures Onward(w0, Apply(w, step))
  {
    ReachableStep(w, step);
    LeadsStep(w0, w, step);
  }

  // ----- The calls return -----

  /** What a call does next to return: it sees that its copy is over or abandons it, gives back its
      slot, drops its entry and abandons its registration. */
  function NextToReturn(w: World, c: CallId): Option<Step>
    requires c in w.calls
  {
    var call := w.calls[c];
    if call.copy.Some? then
      Some(OfCopy(c, if call.copy.value in w.copies && w.copies[call.copy.value].over then SeeOver else Abandon))
    else if call.slot then Some(OfCopy(c, GiveBack))
    else if call.entry.Some? then Some(OfTable(c, DropEntry))
    else if call.raw != NoRaw then Some(OfRegister(c, AbandonRegistration))
    else None
  }

  function Held(call: Call): nat {
    Bit(call.copy.Some?) + Bit(call.slot) + Bit(call.entry.Some?) + Bit(call.raw != NoRaw)
  }

  lemma NextIsEnabled(w: World, c: CallId)
    requires c in w.calls && CallOk(w, c, w.calls[c]) && NextToReturn(w, c).Some?
    ensures Enabled(w, NextToReturn(w, c).value)
  {
  }

  /** The call has let go of something. */
  predicate LessHeld(w: World, w': World, c: CallId) {
    && c in w.calls && c in w'.calls && Held(w'.calls[c]) < Held(w.calls[c])
    && w'.calls.Keys == w.calls.Keys && w'.stage == w.stage && Keeps(w, w')
  }

  lemma NextLetsGo(w: World, c: CallId)
    requires c in w.calls && CallOk(w, c, w.calls[c]) && NextToReturn(w, c).Some?
    requires Enabled(w, NextToReturn(w, c).value)
    ensures LessHeld(w, Apply(w, NextToReturn(w, c).value), c)
  {
    var call := w.calls[c];
    if call.copy.Some? {
      if w.copies[call.copy.value].over { SeeOverLetsGo(w, c); } else { AbandonLetsGo(w, c); }
    } else if call.slot {
    } else if call.entry.Some? {
      DropLetsGo(w, c);
    } else {
      RegistrationLetsGo(w, c);
    }
  }

  lemma SeeOverLetsGo(w: World, c: CallId)
    requires CanCopy(w, c, SeeOver) && CallOk(w, c, w.calls[c])
    ensures LessHeld(w, DoCopy(w, c, SeeOver), c)
  {
  }

  lemma AbandonLetsGo(w: World, c: CallId)
    requires CanCopy(w, c, Abandon) && CallOk(w, c, w.calls[c]) && !w.copies[w.calls[c].copy.value].over
    ensures LessHeld(w, DoCopy(w, c, Abandon), c)
  {
  }

  lemma DropLetsGo(w: World, c: CallId)
    requires CanTable(w, c, DropEntry)
    ensures LessHeld(w, DoTable(w, c, DropEntry), c)
  {
  }

  lemma RegistrationLetsGo(w: World, c: CallId)
    requires CanRegister(w, c, AbandonRegistration)
    ensures LessHeld(w, DoRegister(w, c, AbandonRegistration), c)
  {
    assert DoRegister(w, c, AbandonRegistration).copies == w.copies;
  }

  lemma {:induction false} LetGo(w0: World, w: World, c: CallId) returns (w': World)
    requires Onward(w0, w) && c in w.calls
    ensures Onward(w0, w') && w'.stage == w.stage && w'.calls.Keys == w.calls.Keys
    ensures w'.calls[c] == IdleCall
    decreases Held(w.calls[c])
  {
    ReachableCall(w, c);
    if NextToReturn(w, c).None? {
      w' := w;
    } else {
      var step := NextToReturn(w, c).value;
      NextIsEnabled(w, c);
      NextLetsGo(w, c);
      Go(w0, w, step);
      w' := LetGo(w0, Apply(w, step), c);
    }
  }

  function SweptBy(w: World, c: CallId): set<CopyId> {
    set k | k in w.copies && w.copies[k].place == Dropping(c)
  }

  lemma DropSweptLetsGo(w: World, c: CallId, k: CopyId)
    requires CanCopy(w, c, DropSwept(k))
    ensures var w' := DoCopy(w, c, DropSwept(k));
      w'.calls == w.calls && w'.stage == w.stage && SweptBy(w', c) == SweptBy(w, c) - {k} && Keeps(w, w')
  {
  }

  lemma {:induction false} DropAllSwept(w0: World, w: World, c: CallId) returns (w': World)
    requires Onward(w0, w) && c in w.calls
    ensures Onward(w0, w') && w'.stage == w.stage && w'.calls == w.calls && SweptBy(w', c) == {}
    decreases |SweptBy(w, c)|
  {
    if SweptBy(w, c) == {} {
      w' := w;
    } else {
      var k :| k in SweptBy(w, c);
      ReachableCopy(w, k);
      DropSweptLetsGo(w, c, k);
      Go(w0, w, OfCopy(c, DropSwept(k)));
      w' := DropAllSwept(w0, DoCopy(w, c, DropSwept(k)), c);
    }
  }

  lemma EndsIdle(w: World, c: CallId)
    requires c in w.calls && w.calls[c] == IdleCall && SweptBy(w, c) == {}
    ensures Enabled(w, OfTable(c, EndCall))
    ensures Apply(w, OfTable(c, EndCall)) == w.(calls := w.calls - {c})
  {
    forall k | k in w.copies
      ensures w.copies[k].place != Dropping(c)
    {
      assert k !in SweptBy(w, c);
    }
  }

  lemma {:induction false} EndCalls(w0: World, w: World) returns (w': World)
    requires Onward(w0, w)
    ensures Onward(w0, w') && w'.stage == w.stage && w'.calls == map[]
    decreases |w.calls.Keys|
  {
    if w.calls == map[] {
      w' := w;
    } else {
      var c :| c in w.calls;
      var w1 := LetGo(w0, w, c);
      var w2 := DropAllSwept(w0, w1, c);
      EndsIdle(w2, c);
      Go(w0, w2, OfTable(c, EndCall));
      assert (w2.calls - {c}).Keys == w.calls.Keys - {c};
      w' := EndCalls(w0, w2.(calls := w2.calls - {c}));
    }
  }

  // ----- The destructor -----

  /** What the destructor does next once no call is left. */
  ghost function NextOfTeardown(w: World): (step: TeardownStep)
    requires w.stage != Destroyed
  {
    match w.stage
    case Serving(published) => if published then Shutdown else BeginTeardown
    case Querying(next) => if next < |w.listed| then Query else EndQuery
    case DroppingCopies => if w.listed == [] then EndCopies else DropListed
    case DroppingTable => if w.table == map[] then EndTable else DropTable(var key :| key in w.table; key)
  }

  /** How far the destructor is from its end: the stages left, and what is left of this one. */
  function StagesLeft(stage: Stage): nat {
    match stage
    case Serving(published) => if published then 5 else 4
    case Querying(_) => 3
    case DroppingCopies => 2
    case DroppingTable => 1
    case Destroyed => 0
  }

  function LeftOfStage(w: World): int {
    match w.stage
    case Querying(next) => |w.listed| - next
    case DroppingCopies => |w.listed|
    case DroppingTable => |w.table|
    case _ => 0
  }

  lemma TeardownIsEnabled(w: World)
    requires LinksOk(w) && StageOk(w) && w.calls == map[] && w.stage != Destroyed
    ensures CanTeardown(w, NextOfTeardown(w)) && LeftOfStage(w) >= 0
  {
    if w.stage.Querying? && w.stage.next < |w.listed| {
      ListedEntry(w, w.stage.next);
    } else if w.stage == DroppingCopies && w.listed != [] {
      ListedEntry(w, 0);
    }
  }

  lemma ListedEntry(w: World, i: nat)
    requires LinksOk(w) && i < |w.listed|
    ensures w.listed[i] in w.copies && w.copies[w.listed[i]].place == Listed
    ensures w.copies[w.listed[i]].entry in w.entries
  {
    assert CopyOk(w, w.listed[i], w.copies[w.listed[i]]);
  }

  /** The destructor goes on. */
  ghost predicate Moves(w: World, w': World) {
    && w'.calls == w.calls && Keeps(w, w')
    && (|| StagesLeft(w'.stage) < StagesLeft(w.stage)
        || (StagesLeft(w'.stage) == StagesLeft(w.stage) && LeftOfStage(w') < LeftOfStage(w)))
  }

  lemma QueryMoves(w: World)
    requires CanTeardown(w, Query) && w.copies[w.listed[w.stage.next]].place == Listed
    ensures Moves(w, DoTeardown(w, Query))
  {
  }

  lemma DropListedMoves(w: World)
    requires CanTeardown(w, DropListed) && w.copies[w.listed[0]].place == Listed
    ensures Moves(w, DoTeardown(w, DropListed))
  {
  }

  lemma DropTableMoves(w: World, key: uint64)
    requires CanTeardown(w, DropTable(key))
    ensures Moves(w, DoTeardown(w, DropTable(key)))
  {
    MapShrinks(w.table, key);
  }

  lemma StageMoves(w: World, step: TeardownStep)
    requires CanTeardown(w, step) && !step.Query? && !step.DropListed? && !step.DropTable?
    ensures Moves(w, DoTeardown(w, step))
  {
  }

  lemma TeardownMoves(w: World)
    requires LinksOk(w) && w.stage != Destroyed && CanTeardown(w, NextOfTeardown(w))
    ensures Moves(w, DoTeardown(w, NextOfTeardown(w)))
  {
    var step := NextOfTeardown(w);
    if step.Query? {
      ListedEntry(w, w.stage.next);
      QueryMoves(w);
    } else if step.DropListed? {
      ListedEntry(w, 0);
      DropListedMoves(w);
    } else if step.DropTable? {
      DropTableMoves(w, step.key);
    } else {
      StageMoves(w, step);
    }
  }

  lemma {:induction false} TearDown(w0: World, w: World) returns (w': World)
    requires Onward(w0, w) && w.calls == map[]
    ensures Onward(w0, w') && w'.stage == Destroyed
    decreases StagesLeft(w.stage), LeftOfStage(w)
  {
    if w.stage == Destroyed {
      w' := w;
    } else {
      ReachableInv(w);
      TeardownIsEnabled(w);
      TeardownMoves(w);
      Go(w0, w, OfTeardown(NextOfTeardown(w)));
      w' := TearDown(w0, DoTeardown(w, NextOfTeardown(w)));
    }
  }

  // ----- Results -----

  /** From every reachable state, all calls in progress can return, whatever their copies do. */
  lemma EveryCallCanReturn(w: World) returns (w': World)
    requires Reachable(w)
    ensures Leads(w, w') && w'.calls == map[] && w'.stage == w.stage
  {
    Start(w);
    w' := EndCalls(w, w);
  }

  /** From every reachable state without calls, the destructor can run to its end. */
  lemma EveryDestructorCanFinish(w: World) returns (w': World)
    requires Reachable(w) && w.calls == map[]
    ensures Leads(w, w') && w'.stage == Destroyed
  {
    Start(w);
    w' := TearDown(w, w);
  }

  /** From every reachable state the instance can end: no interleaving gets it stuck. */
  lemma EveryInstanceCanEnd(w: World) returns (w': World)
    requires Reachable(w)
    ensures Leads(w, w') && w'.stage == Destroyed && w'.calls == map[]
  {
    Start(w);
    w' := EndCalls(w, w);
    w' := TearDown(w, w');
    ReachableInv(w');
  }

  // ----- Copies that nothing tracks -----

  function Unfinished(w: World): set<CopyId> {
    set k | k in w.copies && w.copies[k].place != Untracked && !w.copies[k].over
  }

  /** The GPU finishes every copy that is tracked. */
  lemma {:induction false} FinishTracked(w0: World, w: World) returns (w': World)
    requires Onward(w0, w) && w.stage.Serving?
    ensures Onward(w0, w') && Unfinished(w') == {} && w'.stage == w.stage
    decreases |Unfinished(w)|
  {
    if Unfinished(w) == {} {
      w' := w;
    } else {
      var k :| k in Unfinished(w);
      Go(w0, w, GpuFinish(k));
      assert Unfinished(DoGpu(w, k)) == Unfinished(w) - {k};
      w' := FinishTracked(w0, DoGpu(w, k));
    }
  }

  lemma FinishedIsCalm(w: World)
    requires Reachable(w) && w.stage.Serving? && Unfinished(w) == {}
    ensures Calm(w)
  {
    ReachableInv(w);
    forall k | k in w.copies
      ensures w.copies[k].place != Untracked ==> w.copies[k].over
    {
      assert k !in Unfinished(w);
    }
  }

  /** The guarantee for recorded copies extends to no other: from every reachable state in which an
      instance serves and a copy that nothing tracks is running, some run frees its staging buffer
      while it still runs. */
  lemma EveryUntrackedCopyCanLoseItsBuffer(w: World, u: CopyId) returns (w': World)
    requires Reachable(w) && w.stage.Serving?
    requires u in w.copies && w.copies[u].place == Untracked && !w.copies[u].over
    ensures Leads(w, w') && u in w'.copies && !w'.copies[u].over && w'.copies[u].entry == w.copies[u].entry
    ensures w'.copies[u].entry in w'.entries && w'.entries[w'.copies[u].entry].staging == Freed
  {
    Start(w);
    var settled := FinishTracked(w, w);
    FinishedIsCalm(settled);
    Start(settled);
    var idle := EndCalls(settled, settled);
    w' := TearDown(settled, idle);
    LeadsJoin(w, settled, w');
    ReachableCopy(w', u);
    LeakedExactlyWhenStillRunning(w', w'.copies[u].entry);
  }

  lemma LeadsJoin(w: World, w1: World, w2: World)
    requires Leads(w, w1) && Leads(w1, w2)
    ensures Leads(w, w2)
  {
    var run :| Runs(w1, run) && After(w1, run) == w2;
    LeadsRun(w, w1, run);
  }

  lemma {:induction false} LeadsRun(w: World, w1: World, run: seq<Step>)
    requires Leads(w, w1) && Runs(w1, run)
    ensures Leads(w, After(w1, run))
    decreases |run|
  {
    if run == [] {
    } else {
      LeadsStep(w, w1, run[0]);
      LeadsRun(w, Apply(w1, run[0]), run[1..]);
    }
  }
}
