/** What the check for abandoned copies is worth: a call that has passed it uses the staging buffer of
    its entry, and should not meet an abandoned copy that still runs on that buffer. */
module StagingChecks {
  import opened Basics
  import opened Addressing
  import opened Buffers
  import opened StagingLifetime
  import opened StagingResults

  /** Call `c` is past its check on entry `e`. */
  predicate Past(w: World, c: CallId, e: EntryId) {
    c in w.calls && w.calls[c].entry == Some(e) && w.calls[c].checked
  }

  predicate PassesCheckOn(w: World, step: Step, e: EntryId) {
    step.OfCopy? && step.copy == Check && step.c in w.calls && w.calls[step.c].entry == Some(e)
  }

  /** The check passes only when no abandoned copy of the entry runs. */
  lemma CheckFindsNone(w: World, c: CallId, e: EntryId)
    requires Enabled(w, OfCopy(c, Check)) && w.calls[c].entry == Some(e)
    ensures !AbandonedRuns(w, e)
    ensures Past(Apply(w, OfCopy(c, Check)), c, e) && !AbandonedRuns(Apply(w, OfCopy(c, Check)), e)
  {
  }

  // ----- Who can disturb whom -----

  /** An abandoned copy starts to run on a buffer only when a call that is past its check on it gives
      up, and that call is then done with the buffer. */
  lemma OnlyAPastCallDisturbs(w: World, step: Step, e: EntryId)
    requires Reachable(w) && Enabled(w, step) && !AbandonedRuns(w, e) && AbandonedRuns(Apply(w, step), e)
    ensures step.OfCopy? && step.copy == Abandon && Past(w, step.c, e) && !Past(Apply(w, step), step.c, e)
  {
    var k := Culprit(Apply(w, step), e);
    NotYet(w, k, e);
    NewlyAbandoned(w, step, k, e);
    ReachableCall(w, step.c);
  }

  lemma Culprit(w: World, e: EntryId) returns (k: CopyId)
    requires AbandonedRuns(w, e)
    ensures RunsAbandoned(w, k, e)
  {
    k :| k in w.copies && IsAbandoned(w.copies[k], e);
  }

  lemma NotYet(w: World, k: CopyId, e: EntryId)
    requires !AbandonedRuns(w, e)
    ensures !RunsAbandoned(w, k, e)
  {
  }

  /** Copy `k` of entry `e` was abandoned and is running. */
  predicate RunsAbandoned(w: World, k: CopyId, e: EntryId) {
    k in w.copies && IsAbandoned(w.copies[k], e)
  }

  lemma NewlyAbandoned(w: World, step: Step, k: CopyId, e: EntryId)
    requires Enabled(w, step) && !RunsAbandoned(w, k, e) && RunsAbandoned(Apply(w, step), k, e)
    ensures step.OfCopy? && step.copy == Abandon && step.c in w.calls && w.calls[step.c].copy == Some(k)
    ensures k in w.copies && w.copies[k].entry == e && !Past(Apply(w, step), step.c, e)
  {
    match step
    case OfTable(d, s) => TableAbandonsNone(w, d, s);
    case OfRegister(d, s) => RegisterAbandonsNone(w, d, s);
    case OfCopy(d, s) => CopyAbandons(w, d, s, k, e);
    case GpuFinish(_) =>
    case OfTeardown(s) => TeardownAbandonsNone(w, s, k, e);
  }

  lemma TableAbandonsNone(w: World, d: CallId, step: TableStep)
    requires CanTable(w, d, step)
    ensures DoTable(w, d, step).copies == w.copies
  {
  }

  lemma RegisterAbandonsNone(w: World, d: CallId, step: RegisterStep)
    requires CanRegister(w, d, step)
    ensures DoRegister(w, d, step).copies == w.copies
  {
  }

  lemma CopyAbandons(w: World, d: CallId, step: CopyStep, k: CopyId, e: EntryId)
    requires CanCopy(w, d, step) && !RunsAbandoned(w, k, e) && RunsAbandoned(DoCopy(w, d, step), k, e)
    ensures step == Abandon && w.calls[d].copy == Some(k)
    ensures k in w.copies && w.copies[k].entry == e && !Past(DoCopy(w, d, step), d, e)
  {
  }

  lemma TeardownAbandonsNone(w: World, step: TeardownStep, k: CopyId, e: EntryId)
    requires CanTeardown(w, step) && !RunsAbandoned(w, k, e)
    ensures !RunsAbandoned(DoTeardown(w, step), k, e)
  {
  }

  /** A call gets past its check on an entry only by the check. */
  lemma OnlyTheCheckPasses(w: World, step: Step, c: CallId, e: EntryId)
    requires Reachable(w) && Enabled(w, step) && !Past(w, c, e) && Past(Apply(w, step), c, e)
    ensures PassesCheckOn(w, step, e) && step.c == c
  {
    if c in w.calls { ReachableCall(w, c); }
    PassedBy(w, step, c, e);
  }

  lemma PassedBy(w: World, step: Step, c: CallId, e: EntryId)
    requires Enabled(w, step) && !Past(w, c, e) && Past(Apply(w, step), c, e)
    requires c in w.calls && w.calls[c].checked ==> w.calls[c].entry.Some?
    ensures PassesCheckOn(w, step, e) && step.c == c
  {
    match step
    case OfTable(d, s) => TablePassesNobody(w, d, s, c, e);
    case OfRegister(d, s) => RegisterPassesNobody(w, d, s, c, e);
    case OfCopy(d, s) => CopyPasses(w, d, s, c, e);
    case _ =>
  }

  lemma TablePassesNobody(w: World, d: CallId, step: TableStep, c: CallId, e: EntryId)
    requires CanTable(w, d, step) && !Past(w, c, e)
    requires c in w.calls && w.calls[c].checked ==> w.calls[c].entry.Some?
    ensures !Past(DoTable(w, d, step), c, e)
  {
  }

  lemma RegisterPassesNobody(w: World, d: CallId, step: RegisterStep, c: CallId, e: EntryId)
    requires CanRegister(w, d, step) && !Past(w, c, e)
    ensures !Past(DoRegister(w, d, step), c, e)
  {
  }

  lemma CopyPasses(w: World, d: CallId, step: CopyStep, c: CallId, e: EntryId)
    requires CanCopy(w, d, step) && !Past(w, c, e) && Past(DoCopy(w, d, step), c, e)
    ensures step == Check && d == c && w.calls[c].entry == Some(e)
  {
  }

  // ----- The exact condition -----

  /** A run during which call `c` stays past its check on `e`, and no call passes that check. */
  predicate Quiet(w: World, run: seq<Step>, c: CallId, e: EntryId)
    requires Runs(w, run)
    decreases |run|
  {
    && Past(w, c, e)
    && (run == [] || (!PassesCheckOn(w, run[0], e) && Quiet(Apply(w, run[0]), run[1..], c, e)))
  }

  /** No other call is past its check on `e`. */
  ghost predicate Alone(w: World, c: CallId, e: EntryId) {
    forall d :: d != c ==> !Past(w, d, e)
  }

  lemma {:induction false} AloneIsUndisturbed(w: World, run: seq<Step>, c: CallId, e: EntryId)
    requires Reachable(w) && Runs(w, run) && Quiet(w, run, c, e) && Alone(w, c, e) && !AbandonedRuns(w, e)
    ensures !AbandonedRuns(After(w, run), e)
    decreases |run|
  {
    if run == [] {
    } else {
      var w1 := Apply(w, run[0]);
      ReachableStep(w, run[0]);
      if AbandonedRuns(w1, e) { OnlyAPastCallDisturbs(w, run[0], e); }
      forall d | d != c
        ensures !Past(w1, d, e)
      {
        if Past(w1, d, e) { OnlyTheCheckPasses(w, run[0], d, e); }
      }
      AloneIsUndisturbed(w1, run[1..], c, e);
    }
  }

  /** From `w` an abandoned copy can come to run on `e` while call `c` uses it, without another check. */
  ghost predicate CanBeDisturbed(w: World, c: CallId, e: EntryId) {
    exists run :: Disturbs(w, run, c, e)
  }

  ghost predicate Disturbs(w: World, run: seq<Step>, c: CallId, e: EntryId) {
    Runs(w, run) && Quiet(w, run, c, e) && AbandonedRuns(After(w, run), e)
  }

  lemma DisturbsLater(w: World, step: Step, run: seq<Step>, c: CallId, e: EntryId)
    requires Past(w, c, e) && Enabled(w, step) && !PassesCheckOn(w, step, e) && Disturbs(Apply(w, step), run, c, e)
    ensures Disturbs(w, [step] + run, c, e)
  {
    assert ([step] + run)[1..] == run;
  }

  /** The other call gives up its copy. */
  lemma GivesUp(w: World, c: CallId, d: CallId, e: EntryId) returns (run: seq<Step>)
    requires Reachable(w) && c != d && Past(w, c, e) && Past(w, d, e)
    requires w.calls[d].copy.Some? && w.calls[d].copy.value in w.copies && !w.copies[w.calls[d].copy.value].over
    ensures Disturbs(w, run, c, e)
  {
    ReachableCall(w, d);
    var step := OfCopy(d, Abandon);
    AbandonDisturbs(w, c, d, e);
    Ends(Apply(w, step), c, e);
    DisturbsLater(w, step, [], c, e);
    run := [step] + [];
  }

  lemma AbandonDisturbs(w: World, c: CallId, d: CallId, e: EntryId)
    requires c != d && Past(w, c, e) && Past(w, d, e) && CallOk(w, d, w.calls[d])
    requires w.calls[d].copy.Some? && w.calls[d].copy.value in w.copies && !w.copies[w.calls[d].copy.value].over
    ensures CanCopy(w, d, Abandon)
    ensures Past(DoCopy(w, d, Abandon), c, e) && AbandonedRuns(DoCopy(w, d, Abandon), e)
  {
    assert RunsAbandoned(DoCopy(w, d, Abandon), w.calls[d].copy.value, e);
  }

  lemma Ends(w: World, c: CallId, e: EntryId)
    requires Past(w, c, e) && AbandonedRuns(w, e)
    ensures Disturbs(w, [], c, e)
  {
  }

  lemma FreshId(s: set<CopyId>) returns (k: CopyId)
    ensures k !in s && forall x :: x in s ==> x < k
  {
    k := 0;
    var left := s;
    while left != {}
      invariant left <= s && forall x :: x in s && x !in left ==> x < k
      decreases |left|
    {
      var x :| x in left;
      left := left - {x};
      if x >= k { k := x + 1; }
    }
  }

  /** The other call starts a copy, and gives it up. */
  lemma StartsAndGivesUp(w: World, c: CallId, d: CallId, e: EntryId) returns (run: seq<Step>)
    requires Reachable(w) && c != d && Past(w, c, e) && Past(w, d, e)
    requires w.calls[d].copy.None? && w.calls[d].slot && e in w.entries && w.entries[e].staging == Allocated
    ensures Disturbs(w, run, c, e)
  {
    var k := FreshId(w.copies.Keys);
    var step := OfCopy(d, StartCopy(k, true));
    ReachableStep(w, step);
    var rest := GivesUp(Apply(w, step), c, d, e);
    DisturbsLater(w, step, rest, c, e);
    run := [step] + rest;
  }

  lemma ReservesAndGivesUp(w: World, c: CallId, d: CallId, e: EntryId) returns (run: seq<Step>)
    requires Reachable(w) && c != d && Past(w, c, e) && Past(w, d, e)
    requires w.calls[d].copy.None? && e in w.entries && w.entries[e].staging == Allocated
    ensures Disturbs(w, run, c, e)
  {
    if w.calls[d].slot {
      run := StartsAndGivesUp(w, c, d, e);
    } else {
      var step := OfCopy(d, Reserve);
      ReachableStep(w, step);
      var rest := StartsAndGivesUp(Apply(w, step), c, d, e);
      DisturbsLater(w, step, rest, c, e);
      run := [step] + rest;
    }
  }

  lemma AnotherCallDisturbs(w: World, c: CallId, d: CallId, e: EntryId) returns (run: seq<Step>)
    requires Reachable(w) && c != d && Past(w, c, e) && Past(w, d, e)
    requires e in w.entries && w.entries[e].staging == Allocated
    ensures Disturbs(w, run, c, e)
  {
    ReachableCall(w, d);
    if w.calls[d].copy.None? {
      run := ReservesAndGivesUp(w, c, d, e);
    } else if !w.copies[w.calls[d].copy.value].over {
      run := GivesUp(w, c, d, e);
    } else {
      var step := OfCopy(d, SeeOver);
      ReachableStep(w, step);
      var rest := ReservesAndGivesUp(Apply(w, step), c, d, e);
      DisturbsLater(w, step, rest, c, e);
      run := [step] + rest;
    }
  }

  /** A call that is past its check on a staged buffer, with no abandoned copy running on it, can meet
      one, without a further check by anyone, exactly when another call is past its check on it too. */
  lemma DisturbedIff(w: World, c: CallId, e: EntryId)
    requires Reachable(w) && Past(w, c, e) && !AbandonedRuns(w, e)
    requires e in w.entries && w.entries[e].staging == Allocated
    ensures CanBeDisturbed(w, c, e) <==> exists d :: d != c && Past(w, d, e)
  {
    if CanBeDisturbed(w, c, e) {
      var run :| Disturbs(w, run, c, e);
      if Alone(w, c, e) { AloneIsUndisturbed(w, run, c, e); }
    }
    if d :| d != c && Past(w, d, e) {
      var run := AnotherCallDisturbs(w, c, d, e);
    }
  }

  /** Two calls on one buffer both pass the check, and one of them gives up its copy: the other is past
      its check while an abandoned copy runs on the buffer it uses. */
  lemma TwoCallsCanShareABuffer() returns (w: World)
    ensures Reachable(w) && Past(w, 0, 0) && AbandonedRuns(w, 0)
  {
    w := BothPastTheCheck();
    var run := AnotherCallDisturbs(w, 0, 1, 0);
    QuietEnds(w, run, 0, 0);
    ReachableRun(w, run);
    w := After(w, run);
  }

  lemma BothPastTheCheck() returns (w: World)
    ensures Reachable(w) && Past(w, 0, 0) && Past(w, 1, 0) && 0 in w.entries && w.entries[0].staging == Allocated
  {
    w := RegisteredStaged();
    var run := [OfTable(1, BeginCall), OfTable(0, Find(16)), OfTable(1, Find(16)), OfCopy(0, Check), OfCopy(1, Check)];
    var found := IdleCall.(entry := Some(0));
    for i := 0 to |run|
      invariant Reachable(w) && w.stage == Serving(true) && w.table == map[16 := 0] && w.copies == map[]
      invariant w.entries == map[0 := Entry(16, Allocated, true, 1 + Bit(i >= 2) + Bit(i >= 3), false)]
      invariant 0 in w.calls && w.calls[0] == if i < 2 then IdleCall else found.(checked := i >= 4)
      invariant 1 in w.calls <==> i >= 1
      invariant i >= 1 ==> w.calls[1] == if i < 3 then IdleCall else found.(checked := i >= 5)
    {
      ReachableStep(w, run[i]);
      w := Apply(w, run[i]);
    }
  }

  lemma {:induction false} QuietEnds(w: World, run: seq<Step>, c: CallId, e: EntryId)
    requires Runs(w, run) && Quiet(w, run, c, e)
    ensures Past(After(w, run), c, e)
    decreases |run|
  {
    if run == [] {
    } else {
      QuietEnds(Apply(w, run[0]), run[1..], c, e);
    }
  }

  lemma {:induction false} ReachableRun(w: World, run: seq<Step>)
    requires Reachable(w) && Runs(w, run)
    ensures Reachable(After(w, run))
    decreases |run|
  {
    if run == [] {
    } else {
      ReachableStep(w, run[0]);
      ReachableRun(Apply(w, run[0]), run[1..]);
    }
  }
}
