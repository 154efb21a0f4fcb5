/** The pool that one thread runs does what the protocol says: each of its lock sections is a step of
    the protocol, and a whole release is a run of the steps that the protocol interleaves. */
module PoolRefinement {
  import opened Basics
  import opened Transport
  import opened PoolProtocol
  import opened ConnectionPools

  predicate Runs(p: Pool, run: seq<Step>)
    decreases |run|
  {
    run == [] || (Enabled(p, run[0]) && Runs(Apply(p, run[0]), run[1..]))
  }

  function After(p: Pool, run: seq<Step>): Pool
    requires Runs(p, run)
    decreases |run|
  {
    if run == [] then p else After(Apply(p, run[0]), run[1..])
  }

  lemma {:induction false} RunsJoin(p: Pool, first: seq<Step>, second: seq<Step>)
    requires Runs(p, first) && Runs(After(p, first), second)
    ensures Runs(p, first + second) && After(p, first + second) == After(After(p, first), second)
    decreases |first|
  {
    if first == [] {
      assert first + second == second;
    } else {
      var run := first + second;
      assert run[0] == first[0] && run[1..] == first[1..] + second;
      RunsJoin(Apply(p, first[0]), first[1..], second);
    }
  }

  lemma RunsOne(p: Pool, step: Step)
    requires Enabled(p, step)
    ensures Runs(p, [step]) && After(p, [step]) == Apply(p, step)
  {
    assert [step][1..] == [];
    assert Runs(Apply(p, step), []);
  }

  // ----- The abstraction -----

  /** The connections of the pool as values. */
  ghost function Conns(pool: ConnectionPool): (conns: seq<Option<Conn>>)
    reads pool, pool.slots
    ensures |conns| == |pool.slots|
  {
    seq(|pool.slots|, i requires 0 <= i < |pool.slots| reads pool, pool.slots =>
      if pool.slots[i] == null then None else Some(Conn(pool.slots[i].qp, pool.slots[i].cq)))
  }

  /** A slot of the protocol stands for the connection, the free list and the leases. */
  predicate SlotIs(slot: Slot, conn: Option<Conn>, free: bool, leased: bool) {
    && slot.conn == conn && slot.role.Leased? == leased && slot.role.Free? == free
    && (slot.role.Dropped? <==> !leased && !free)
  }

  predicate SlotsAre(p: Pool, conns: seq<Option<Conn>>, free: seq<nat>, leased: set<nat>) {
    && |p.slots| == |conns|
    && forall i :: 0 <= i < |conns| ==> SlotIs(p.slots[i], conns[i], i in free, i in leased)
  }

  /** The state of the protocol that the pool's fields amount to. */
  ghost predicate StandsFor(pool: ConnectionPool, p: Pool)
    reads pool, pool.slots
  {
    p.free == pool.free && p.live == pool.live && p.closed == pool.closed
      && SlotsAre(p, Conns(pool), pool.free, pool.leased)
  }

  /** What the notifications that are due gain. */
  predicate Owes(p: Pool, p': Pool, notice: Notice) {
    && p'.ones == p.ones + Bit(notice == NotifyOneWaiter) && p'.alls == p.alls + Bit(notice == NotifyAllWaiters)
    && p'.sleeping == p.sleeping && p'.awake == p.awake
  }

  // ----- acquire() and close() -----

  /** A pass of acquire() is an Acquire step. */
  method AcquireRefines(pool: ConnectionPool, holds: bool, ghost p: Pool, ghost t: Tid, ghost handle: Handle)
    returns (out: Outcome)
    requires pool.Valid() && StandsFor(pool, p) && t !in p.sleeping
    modifies pool`free, pool`leased
    ensures pool.Valid() && Enabled(p, Acquire(t, holds, handle))
      && StandsFor(pool, Apply(p, Acquire(t, holds, handle)))
    ensures out == AcquirePass(p.free, p.live, p.closed, holds)
  {
    out := pool.AcquireOnce(holds);
    assert Conns(pool) == old(Conns(pool));
    if out.Lease? {
      assert old(pool.free)[..|old(pool.free)| - 1] == pool.free;
      assert old(pool.free)[|old(pool.free)| - 1] == out.index;
      LeasedSlots(p, Apply(p, Acquire(t, holds, handle)), old(Conns(pool)), pool.free, old(pool.leased), out.index);
    }
  }

  /** A free slot is leased. */
  lemma LeasedSlots(p: Pool, p': Pool, conns: seq<Option<Conn>>, free: seq<nat>, leased: set<nat>, i: nat)
    requires i < |p.slots| && SlotsAre(p, conns, free + [i], leased) && i !in free
    requires |p'.slots| == |p.slots| && p'.slots == p.slots[i := Slot(p.slots[i].conn, p'.slots[i].role)]
      && p'.slots[i].role.Leased?
    ensures SlotsAre(p', conns, free, leased + {i})
  {
    forall j | 0 <= j < |conns|
      ensures SlotIs(p'.slots[j], conns[j], j in free, j in leased + {i})
    {
      assert SlotIs(p.slots[j], conns[j], j in free + [i], j in leased);
    }
  }

  /** close() is a Close step, and owes the notify-all that the step makes due. */
  method CloseRefines(pool: ConnectionPool, ghost p: Pool) returns (notice: Notice)
    requires pool.Valid() && StandsFor(pool, p)
    modifies pool`closed
    ensures pool.Valid() && Enabled(p, Close) && StandsFor(pool, Apply(p, Close)) && Owes(p, Apply(p, Close), notice)
  {
    notice := pool.Close();
  }

  // ----- restore() -----

  /** `p'` differs from `p` only in slot `i` and in the history. */
  predicate OnlySlot(p: Pool, p': Pool, i: nat, slot: Slot) {
    && i < |p.slots| && p'.slots == p.slots[i := slot]
    && p'.free == p.free && p'.live == p.live && p'.closed == p.closed
    && p'.sleeping == p.sleeping && p'.awake == p.awake && p'.ones == p.ones && p'.alls == p.alls
  }

  /** Some run leads from `p` to `p'`. */
  ghost predicate Leads(p: Pool, p': Pool) {
    exists run :: Runs(p, run) && After(p, run) == p'
  }

  lemma LeadsOne(p: Pool, step: Step)
    requires Enabled(p, step)
    ensures Leads(p, Apply(p, step))
  {
    RunsOne(p, step);
  }

  lemma LeadsJoin(p: Pool, q: Pool, r: Pool)
    requires Leads(p, q) && Leads(q, r)
    ensures Leads(p, r)
  {
    var first :| Runs(p, first) && After(p, first) == q;
    var second :| Runs(q, second) && After(q, second) == r;
    RunsJoin(p, first, second);
  }

  predicate InRestore(p: Pool, i: nat, phase: Phase) {
    InPhase(p, i) && p.slots[i].role.phase == phase
  }

  /** The requests as the protocol records them. */
  function Issues(asked: seq<Modify>): seq<Issue> {
    seq(|asked|, k requires 0 <= k < |asked| => Issue(asked[k], false))
  }

  /** A run leads to `p'`, which differs from `p` in slot `i` and in these requests. */
  ghost predicate Comes(p: Pool, p': Pool, i: nat, slot: Slot, asked: seq<Modify>) {
    Leads(p, p') && OnlySlot(p, p', i, slot) && p'.issued == p.issued + Issues(asked)
  }

  lemma ComesOne(p: Pool, step: Step, i: nat, slot: Slot, asked: seq<Modify>)
    requires Enabled(p, step) && OnlySlot(p, Apply(p, step), i, slot)
    requires Apply(p, step).issued == p.issued + Issues(asked)
    ensures Comes(p, Apply(p, step), i, slot, asked)
  {
    LeadsOne(p, step);
  }

  lemma ComesJoin(p: Pool, q: Pool, r: Pool, i: nat, slot: Slot, slot': Slot, asked: seq<Modify>, asked': seq<Modify>)
    requires Comes(p, q, i, slot, asked) && Comes(q, r, i, slot', asked')
    ensures Comes(p, r, i, slot', asked + asked')
  {
    LeadsJoin(p, q, r);
    assert Issues(asked + asked') == Issues(asked) + Issues(asked');
  }

  function Ending(p: Pool, i: nat, conn: Option<Conn>, phase: Phase): Slot
    requires InPhase(p, i)
  {
    Slot(conn, Releasing(p.slots[i].role.holder, phase))
  }

  /** Polling empties the queue. */
  lemma {:induction false} DrainRun(p: Pool, i: nat, left: nat) returns (p': Pool)
    requires InRestore(p, i, Drain(left)) && HasConn(p, i) && |p.slots[i].conn.value.cq| <= left
    ensures Comes(p, p', i, Ending(p, i, Some(Conn(p.slots[i].conn.value.qp, [])), ToInit), [])
    decreases left
  {
    var q, slot := PollRun(p, i, left);
    if p.slots[i].conn.value.cq == [] {
      p' := q;
    } else {
      p' := DrainRun(q, i, left - 1);
      ComesJoin(p, q, p', i, slot, p'.slots[i], [], []);
    }
  }

  /** One poll that does not fail. */
  lemma PollRun(p: Pool, i: nat, left: nat) returns (p': Pool, slot: Slot)
    requires InRestore(p, i, Drain(left)) && HasConn(p, i) && |p.slots[i].conn.value.cq| <= left
    ensures var conn := p.slots[i].conn.value;
      && slot == (if conn.cq == [] then Ending(p, i, Some(conn), ToInit)
                  else Ending(p, i, Some(conn.(cq := conn.cq[1..])), Drain(left - 1)))
      && Comes(p, p', i, slot, [])
  {
    p' := Apply(p, DrainPoll(i, false));
    slot := p'.slots[i];
    ComesOne(p, DrainPoll(i, false), i, slot, []);
  }

  /** A poll fails, after `polls` that do not. */
  lemma {:induction false} DrainFails(p: Pool, i: nat, left: nat, polls: nat) returns (p': Pool)
    requires InRestore(p, i, Drain(left)) && HasConn(p, i) && |p.slots[i].conn.value.cq| <= left
    requires polls < left && polls <= |p.slots[i].conn.value.cq|
    ensures HasConn(p', i) && Comes(p, p', i, Ending(p, i, p'.slots[i].conn, Discard), [])
    decreases polls
  {
    if polls == 0 {
      p' := Apply(p, DrainPoll(i, true));
      ComesOne(p, DrainPoll(i, true), i, p'.slots[i], []);
    } else {
      var q, slot := PollRun(p, i, left);
      p' := DrainFails(q, i, left - 1, polls - 1);
      ComesJoin(p, q, p', i, slot, p'.slots[i], [], []);
    }
  }

  lemma ToResetRun(p: Pool, i: nat, ok: bool) returns (p': Pool, slot: Slot)
    requires InRestore(p, i, ToReset) && HasConn(p, i)
    ensures var conn := p.slots[i].conn.value;
      && slot == Ending(p, i, Some(conn.(qp := if ok then Reset else Err)), if ok then Drain(CQ_SIZE) else Discard)
      && Comes(p, p', i, slot, [Modify(conn.qp, Reset)])
  {
    p' := Apply(p, ResetQp(i, ok, Err));
    slot := p'.slots[i];
    ComesOne(p, ResetQp(i, ok, Err), i, slot, [Modify(p.slots[i].conn.value.qp, Reset)]);
  }

  lemma ToInitRun(p: Pool, i: nat, ok: bool) returns (p': Pool, slot: Slot)
    requires InRestore(p, i, ToInit) && p.slots[i].conn == Some(Conn(Reset, []))
    ensures slot == Ending(p, i, Some(Conn(if ok then Init else Err, [])), if ok then Restored(true) else Discard)
    ensures Comes(p, p', i, slot, [Modify(Reset, Init)])
  {
    p' := Apply(p, InitQp(i, ok, Err));
    slot := p'.slots[i];
    ComesOne(p, InitQp(i, ok, Err), i, slot, [Modify(Reset, Init)]);
  }

  /** RESET, an empty queue, and the request for INIT, which works or fails. */
  lemma ThroughReset(p: Pool, i: nat, ok: bool) returns (p': Pool)
    requires InRestore(p, i, ToReset) && HasConn(p, i) && |p.slots[i].conn.value.cq| <= CQ_SIZE
    ensures Comes(p, p', i,
                  Ending(p, i, Some(Conn(if ok then Init else Err, [])), if ok then Restored(true) else Discard),
                  [Modify(p.slots[i].conn.value.qp, Reset), Modify(Reset, Init)])
  {
    var asked := [Modify(p.slots[i].conn.value.qp, Reset)];
    var q, slot := ToResetRun(p, i, true);
    var r := DrainRun(q, i, CQ_SIZE);
    ComesJoin(p, q, r, i, slot, r.slots[i], asked, []);
    var last;
    p', last := ToInitRun(r, i, ok);
    ComesJoin(p, r, p', i, r.slots[i], last, asked + [], [Modify(Reset, Init)]);
    assert asked + [] + [Modify(Reset, Init)] == [asked[0], Modify(Reset, Init)];
  }

  /** A reset that fails where `at` says leaves a connection to discard. */
  lemma ResetFails(p: Pool, i: nat, at: ResetEnd) returns (p': Pool)
    requires InRestore(p, i, ToReset) && HasConn(p, i) && |p.slots[i].conn.value.cq| <= CQ_SIZE && !at.ResetWorked?
      && !at.NotTried?
    requires at.DrainFailed? ==> at.polls < CQ_SIZE && at.polls <= |p.slots[i].conn.value.cq|
    ensures HasConn(p', i)
    ensures Comes(p, p', i, Ending(p, i, p'.slots[i].conn, Discard), AskedByReset(p.slots[i].conn.value.qp, at))
  {
    var asked := [Modify(p.slots[i].conn.value.qp, Reset)];
    match at
    case ResetQpFailed =>
      var slot;
      p', slot := ToResetRun(p, i, false);
      assert asked + [] == asked;
    case DrainFailed(polls) =>
      var q, slot := ToResetRun(p, i, true);
      p' := DrainFails(q, i, CQ_SIZE, polls);
      ComesJoin(p, q, p', i, slot, p'.slots[i], asked, []);
    case InitFailed =>
      p' := ThroughReset(p, i, false);
      assert asked + [Modify(Reset, Init)] == [asked[0], Modify(Reset, Init)];
  }

  /** The old queue pair and completion queue go before the new ones are created. */
  lemma DestroyRun(p: Pool, i: nat) returns (p': Pool)
    requires InRestore(p, i, Discard) && HasConn(p, i)
    ensures Comes(p, p', i, Ending(p, i, None, NeedCq), [])
  {
    p' := Apply(p, DestroyOld(i));
    ComesOne(p, DestroyOld(i), i, p'.slots[i], []);
  }

  lemma CreateCqRun(p: Pool, i: nat, ok: bool) returns (p': Pool)
    requires InRestore(p, i, NeedCq) && p.slots[i].conn.None?
    ensures Comes(p, p', i, Ending(p, i, None, if ok then NeedQp else Restored(false)), [])
  {
    p' := Apply(p, CreateCq(i, ok));
    ComesOne(p, CreateCq(i, ok), i, p'.slots[i], []);
  }

  lemma CreateQpRun(p: Pool, i: nat, ok: bool) returns (p': Pool)
    requires InRestore(p, i, NeedQp) && p.slots[i].conn.None?
    ensures Comes(p, p', i, Ending(p, i, None, if ok then FreshToInit(Conn(Reset, [])) else Restored(false)), [])
  {
    p' := Apply(p, CreateQp(i, ok));
    ComesOne(p, CreateQp(i, ok), i, p'.slots[i], []);
  }

  lemma InitFreshRun(p: Pool, i: nat, ok: bool) returns (p': Pool)
    requires InRestore(p, i, FreshToInit(Conn(Reset, [])))
    ensures Comes(p, p', i, Ending(p, i, if ok then Some(Conn(Init, [])) else None, Restored(ok)),
      [Modify(Reset, Init)])
  {
    p' := Apply(p, InitFresh(i, ok, Err));
    ComesOne(p, InitFresh(i, ok, Err), i, p'.slots[i], [Modify(Reset, Init)]);
  }

  /** Creating a connection works, or fails where `at` says. */
  lemma CreateRun(p: Pool, i: nat, at: CreateEnd) returns (p': Pool)
    requires InRestore(p, i, NeedCq) && p.slots[i].conn.None?
    ensures Comes(p, p', i, Ending(p, i, if at.Created? then Some(Conn(Init, [])) else None, Restored(at.Created?)),
                  AskedByCreate(at))
  {
    var q := CreateCqRun(p, i, !at.NoCq?);
    if at.NoCq? {
      p' := q;
    } else {
      var r := CreateQpRun(q, i, !at.NoQp?);
      ComesJoin(p, q, r, i, q.slots[i], r.slots[i], [], []);
      p' := r;
      if !at.NoQp? {
        p' := InitFreshRun(r, i, at.Created?);
        ComesJoin(p, r, p', i, r.slots[i], p'.slots[i], [], [Modify(Reset, Init)]);
        assert [] + [Modify(Reset, Init)] == [Modify(Reset, Init)];
      }
    }
  }

  /** There was a connection to reset. */
  predicate TriesReset(how: RestoreEnd) { how.NotNeeded? || how.Threw? || !ResetOf(how).NotTried? }

  /** The restore as it went, call by call: the state it leaves and the requests it made. */
  lemma RestoreRun(p: Pool, i: nat, how: RestoreEnd) returns (p': Pool)
    requires InRestore(p, i, ToReset) && HasConn(p, i) && |p.slots[i].conn.value.cq| <= CQ_SIZE
    requires !how.NotNeeded? && CanHappen(how, |p.slots[i].conn.value.cq|) && TriesReset(how)
    ensures Comes(p, p', i,
                  Ending(p, i, if IsDropped(how) then None else Some(Conn(Init, [])), Restored(!IsDropped(how))),
                  Asked(p.slots[i].conn.value.qp, how))
  {
    var qp := p.slots[i].conn.value.qp;
    match how
    case WasReset =>
      p' := ThroughReset(p, i, true);
      assert AskedByReset(qp, ResetWorked) == [Modify(qp, Reset), Modify(Reset, Init)];
    case WasReplaced(reset) => p' := ReplaceRun(p, i, reset, Created);
    case WasDropped(reset, create) => p' := ReplaceRun(p, i, reset, create);
    case Threw =>
      p' := Apply(p, Throw(i));
      ComesOne(p, Throw(i), i, p'.slots[i], []);
  }

  lemma ReplaceRun(p: Pool, i: nat, reset: ResetEnd, create: CreateEnd) returns (p': Pool)
    requires InRestore(p, i, ToReset) && HasConn(p, i) && |p.slots[i].conn.value.cq| <= CQ_SIZE && !reset.ResetWorked?
      && !reset.NotTried?
    requires reset.DrainFailed? ==> reset.polls < CQ_SIZE && reset.polls <= |p.slots[i].conn.value.cq|
    ensures Comes(p, p', i,
                  Ending(p, i, if create.Created? then Some(Conn(Init, [])) else None, Restored(create.Created?)),
                  AskedByReset(p.slots[i].conn.value.qp, reset) + AskedByCreate(create))
  {
    var asked := AskedByReset(p.slots[i].conn.value.qp, reset);
    var q := ResetFails(p, i, reset);
    var r := DestroyRun(q, i);
    ComesJoin(p, q, r, i, q.slots[i], r.slots[i], asked, []);
    p' := CreateRun(r, i, create);
    ComesJoin(p, r, p', i, r.slots[i], p'.slots[i], asked + [], AskedByCreate(create));
    assert asked + [] == asked;
  }

  // ----- release() -----

  /** The protocol's slot is leased, and used as the lease says. */
  predicate LeaseUse(p: Pool, i: nat, connected: bool) {
    i < |p.slots| && p.slots[i].role.Leased? && p.slots[i].role.use == if connected then Finished else Unconnected
  }

  /** What a release leaves of the protocol's state. */
  predicate Releases(p: Pool, p': Pool, i: nat, usable: bool) {
    && i < |p.slots| && p'.closed == p.closed
    && p'.slots == p.slots[i := if usable then Slot(Some(Conn(Init, [])), Free) else Slot(None, Dropped)]
    && p'.free == (if usable then p.free + [i] else p.free)
    && p'.live == (if usable then p.live else Pred(p.live))
    && Owes(p, p', if usable then NotifyOneWaiter else if p'.live == 0 then NotifyAllWaiters else NotifyNone)
  }

  lemma ReleaseRun(p: Pool, i: nat, connected: bool, how: RestoreEnd) returns (p': Pool)
    requires LeaseUse(p, i, connected) && HasConn(p, i) && |p.slots[i].conn.value.cq| <= CQ_SIZE
    requires (how.NotNeeded? <==> !connected) && CanHappen(how, |p.slots[i].conn.value.cq|) && TriesReset(how)
    requires !connected ==> Clean(p.slots[i])
    ensures Leads(p, p') && Releases(p, p', i, !IsDropped(how))
    ensures p'.issued == p.issued + Issues(Asked(p.slots[i].conn.value.qp, how))
  {
    var q := Apply(p, EndLease(i));
    LeadsOne(p, EndLease(i));
    if connected {
      var r := RestoreRun(q, i, how);
      LeadsJoin(p, q, r);
      q := r;
    }
    p' := Apply(q, Finish(i));
    LeadsOne(q, Finish(i));
    LeadsJoin(p, q, p');
  }

  /** What release() does to the pool's fields, as values. */
  method ReleaseView(pool: ConnectionPool, index: nat, connected: bool)
    returns (notice: Notice, ghost how: RestoreEnd)
    requires pool.Valid() && index in pool.leased && (!connected ==> pool.CleanSlot(index))
    modifies pool`slots, pool`free, pool`live, pool`leased, pool.verbs,
             if index < |pool.slots| then {pool.slots[index]} else {}
    ensures pool.Valid() && pool.leased == old(pool.leased) - {index}
    ensures index < |old(pool.slots)| && index !in old(pool.free) && old(pool.live) > 0
      && old(pool.slots[index]) != null
    ensures (how == NotNeeded <==> !connected) && CanHappen(how, |old(pool.slots[index].cq)|) && TriesReset(how)
    ensures connected && !how.Threw? ==>
      old(pool.slots[index]).issued
      == old(pool.slots[index].issued) + AskedByReset(old(pool.slots[index].qp), ResetOf(how))
    ensures how.WasReplaced? ==>
      index < |pool.slots| && pool.slots[index] != null && pool.slots[index].issued == AskedByCreate(Created)
    ensures Conns(pool) == old(Conns(pool))[index := if IsDropped(how) then None else Some(Conn(Init, []))]
    ensures pool.free == if IsDropped(how) then old(pool.free) else old(pool.free) + [index]
    ensures pool.live == if IsDropped(how) then old(pool.live) - 1 else old(pool.live)
    ensures notice == if !IsDropped(how) then NotifyOneWaiter
                      else if pool.live == 0 then NotifyAllWaiters else NotifyNone
  {
    notice, how := pool.Release(index, connected);
  }

  lemma UsableConn(pool: ConnectionPool, i: nat)
    requires pool.Valid() && i in pool.leased
    ensures i < |Conns(pool)| && Conns(pool)[i].Some? && |Conns(pool)[i].value.cq| <= CQ_SIZE
    ensures pool.CleanSlot(i) ==> Conns(pool)[i] == Some(Conn(Init, []))
  {
  }

  /** release() is a run of the protocol from the end of the lease to the end of its lock section: it
      owes the notification that the run makes due, and its requests are those of the run. */
  method ReleaseRefines(pool: ConnectionPool, index: nat, connected: bool, ghost p: Pool)
    returns (notice: Notice, ghost p': Pool, ghost how: RestoreEnd)
    requires pool.Valid() && index in pool.leased && (!connected ==> pool.CleanSlot(index))
    requires StandsFor(pool, p) && LeaseUse(p, index, connected)
    modifies pool`slots, pool`free, pool`live, pool`leased, pool.verbs,
             if index < |pool.slots| then {pool.slots[index]} else {}
    ensures pool.Valid() && Leads(p, p') && StandsFor(pool, p') && Owes(p, p', notice)
    ensures index < |old(pool.slots)| && old(pool.slots[index]) != null
    ensures p'.issued == p.issued + Issues(Asked(old(pool.slots[index].qp), how))
    ensures connected && !how.Threw? ==>
      old(pool.slots[index]).issued
      == old(pool.slots[index].issued) + AskedByReset(old(pool.slots[index].qp), ResetOf(how))
    ensures how.WasReplaced? ==>
      index < |pool.slots| && pool.slots[index] != null && pool.slots[index].issued == AskedByCreate(Created)
  {
    UsableConn(pool, index);
    ghost var conns, free, leased := Conns(pool), pool.free, pool.leased;
    assert SlotsAre(p, conns, free, leased) && conns[index].value.qp == pool.slots[index].qp;
    notice, how := ReleaseView(pool, index, connected);
    ghost var conns', free', leased' := Conns(pool), pool.free, pool.leased;
    p' := ReleaseStands(p, conns, free, leased, index, connected, how, conns', free', leased');
  }

  /** The same on values: from a state that stands for the pool before, a run leads to one that stands for
      the pool after. */
  lemma ReleaseStands(p: Pool, conns: seq<Option<Conn>>, free: seq<nat>, leased: set<nat>, i: nat, connected: bool,
                      how: RestoreEnd, conns': seq<Option<Conn>>, free': seq<nat>, leased': set<nat>)
    returns (p': Pool)
    requires SlotsAre(p, conns, free, leased) && i in leased && i !in free && LeaseUse(p, i, connected)
    requires i < |conns| && conns[i].Some? && |conns[i].value.cq| <= CQ_SIZE
    requires (how.NotNeeded? <==> !connected) && CanHappen(how, |conns[i].value.cq|) && TriesReset(how)
    requires !connected ==> conns[i] == Some(Conn(Init, []))
    requires conns' == conns[i := if IsDropped(how) then None else Some(Conn(Init, []))]
    requires free' == (if IsDropped(how) then free else free + [i]) && leased' == leased - {i}
    ensures Leads(p, p') && Releases(p, p', i, !IsDropped(how)) && SlotsAre(p', conns', free', leased')
    ensures p'.issued == p.issued + Issues(Asked(conns[i].value.qp, how))
  {
    assert SlotIs(p.slots[i], conns[i], i in free, i in leased);
    p' := ReleaseRun(p, i, connected, how);
    ReleasedSlots(p, p', conns, free, leased, i, !IsDropped(how));
  }

  /** A leased slot is free again, or dropped. */
  lemma ReleasedSlots(p: Pool, p': Pool, conns: seq<Option<Conn>>, free: seq<nat>, leased: set<nat>, i: nat,
                      usable: bool)
    requires SlotsAre(p, conns, free, leased) && Releases(p, p', i, usable) && i in leased && i !in free
    ensures SlotsAre(p', conns[i := if usable then Some(Conn(Init, [])) else None],
                     if usable then free + [i] else free, leased - {i})
  {
    var conns' := conns[i := if usable then Some(Conn(Init, [])) else None];
    var free' := if usable then free + [i] else free;
    forall j | 0 <= j < |conns'|
      ensures SlotIs(p'.slots[j], conns'[j], j in free', j in leased - {i})
    {
      assert SlotIs(p.slots[j], conns[j], j in free, j in leased);
    }
  }

  // ----- A lease connects and polls -----

  /** The requests of a connect as the protocol records them: the second knows whether the queue pair had
      failed by itself. */
  function IssuesOfConnect(qp: QpState, at: ConnectEnd): seq<Issue> {
    match at
    case Connected(failed) => [Issue(Modify(qp, Rtr), false), Issue(Modify(if failed then Err else Rtr, Rts), failed)]
    case RtsFailed(failed) => [Issue(Modify(qp, Rtr), false), Issue(Modify(if failed then Err else Rtr, Rts), failed)]
    case RtrFailed => [Issue(Modify(qp, Rtr), false)]
    case _ => []
  }

  /** A run of the holder of slot `i` leads to `p'`. */
  ghost predicate Uses(p: Pool, p': Pool, i: nat, qp: QpState, use: Use, issues: seq<Issue>) {
    && Leads(p, p') && i < |p.slots| && p.slots[i].role.Leased? && p.slots[i].conn.Some?
    && OnlySlot(p, p', i, Slot(Some(p.slots[i].conn.value.(qp := qp)), p.slots[i].role.(use := use)))
    && p'.issued == p.issued + issues && p'.consumed == p.consumed
  }

  lemma UsesOne(p: Pool, step: Step, i: nat, qp: QpState, use: Use, issues: seq<Issue>)
    requires Enabled(p, step) && i < |p.slots| && p.slots[i].role.Leased? && p.slots[i].conn.Some?
    requires OnlySlot(p, Apply(p, step), i, Slot(Some(p.slots[i].conn.value.(qp := qp)), p.slots[i].role.(use := use)))
    requires Apply(p, step).issued == p.issued + issues && Apply(p, step).consumed == p.consumed
    ensures Uses(p, Apply(p, step), i, qp, use, issues)
  {
    LeadsOne(p, step);
  }

  lemma UsesJoin(p: Pool, q: Pool, r: Pool, i: nat, qp: QpState, use: Use, issues: seq<Issue>,
                 qp': QpState, use': Use, issues': seq<Issue>)
    requires Uses(p, q, i, qp, use, issues) && Uses(q, r, i, qp', use', issues')
    ensures Uses(p, r, i, qp', use', issues + issues')
  {
    LeadsJoin(p, q, r);
  }

  /** Nothing is asked: the peer or the GID index does not do. */
  lemma RefusedRun(p: Pool, i: nat, qp: QpState) returns (p': Pool)
    requires LeasedAs(p, i, Unconnected) && p.slots[i].conn.value.qp == qp
    ensures Uses(p, p', i, qp, Finished, [])
  {
    p' := Apply(p, StartConnect(i, false));
    UsesOne(p, StartConnect(i, false), i, qp, Finished, []);
  }

  /** The request for RTR works, or leaves the queue pair in state `after`. */
  lemma RtrRun(p: Pool, i: nat, ok: bool, after: QpState) returns (p': Pool)
    requires LeasedAs(p, i, Unconnected)
    ensures Uses(p, p', i, if ok then Rtr else after, if ok then ToRts(false) else Finished,
                 [Issue(Modify(p.slots[i].conn.value.qp, Rtr), false)])
  {
    var qp := p.slots[i].conn.value.qp;
    var q := Apply(p, StartConnect(i, true));
    UsesOne(p, StartConnect(i, true), i, qp, ToRtr, []);
    p' := Apply(q, ModifyRtr(i, ok, after));
    var to, use := if ok then Rtr else after, if ok then ToRts(false) else Finished;
    var asked := [Issue(Modify(qp, Rtr), false)];
    UsesOne(q, ModifyRtr(i, ok, after), i, to, use, asked);
    UsesJoin(p, q, p', i, qp, ToRtr, [], to, use, asked);
    assert [] + asked == asked;
  }

  /** The queue pair may fail by itself, and then the request for RTS works, or leaves it in state `after`. */
  lemma RtsRun(p: Pool, i: nat, failed: bool, ok: bool, after: QpState) returns (p': Pool)
    requires HasConn(p, i) && LeasedAs(p, i, ToRts(false)) && p.slots[i].conn.value.qp == Rtr
    ensures Uses(p, p', i, if ok then Rts else after, Finished,
                 [Issue(Modify(if failed then Err else Rtr, Rts), failed)])
  {
    var to, asked := if ok then Rts else after, [Issue(Modify(if failed then Err else Rtr, Rts), failed)];
    var q := p;
    if failed {
      q := Apply(p, AsyncError(i));
      UsesOne(p, AsyncError(i), i, Err, ToRts(true), []);
    }
    p' := Apply(q, ModifyRts(i, ok, after));
    UsesOne(q, ModifyRts(i, ok, after), i, to, Finished, asked);
    if failed {
      UsesJoin(p, q, p', i, Err, ToRts(true), [], to, Finished, asked);
      assert [] + asked == asked;
    }
  }

  /** A connect as it went, request by request. */
  lemma ConnectRun(p: Pool, i: nat, at: ConnectEnd, after: QpState) returns (p': Pool)
    requires LeasedAs(p, i, Unconnected)
    requires at.Connected? ==> after == Rts
    requires at == NotAnRcPeer || at == BadGidIndex ==> after == p.slots[i].conn.value.qp
    ensures Uses(p, p', i, after, Finished, IssuesOfConnect(p.slots[i].conn.value.qp, at))
  {
    var qp := p.slots[i].conn.value.qp;
    match at
    case NotAnRcPeer => p' := RefusedRun(p, i, qp);
    case BadGidIndex => p' := RefusedRun(p, i, qp);
    case RtrFailed => p' := RtrRun(p, i, false, after);
    case RtsFailed(failed) => p' := ThroughRtr(p, i, failed, false, after);
    case Connected(failed) => p' := ThroughRtr(p, i, failed, true, after);
  }

  lemma ThroughRtr(p: Pool, i: nat, failed: bool, ok: bool, after: QpState) returns (p': Pool)
    requires LeasedAs(p, i, Unconnected) && (ok ==> after == Rts)
    ensures Uses(p, p', i, after, Finished,
                 [Issue(Modify(p.slots[i].conn.value.qp, Rtr), false),
                  Issue(Modify(if failed then Err else Rtr, Rts), failed)])
  {
    var first := [Issue(Modify(p.slots[i].conn.value.qp, Rtr), false)];
    var second := [Issue(Modify(if failed then Err else Rtr, Rts), failed)];
    var q := RtrRun(p, i, true, Err);
    p' := RtsRun(q, i, failed, ok, after);
    UsesJoin(p, q, p', i, Rtr, ToRts(false), first, after, Finished, second);
    assert first + second == [first[0], second[0]];
  }

  /** The slots still stand for the pool when one leased connection changes. */
  lemma UsedSlots(p: Pool, p': Pool, conns: seq<Option<Conn>>, free: seq<nat>, leased: set<nat>, i: nat, slot: Slot)
    requires SlotsAre(p, conns, free, leased) && OnlySlot(p, p', i, slot) && i in leased && i !in free
    requires slot.role.Leased?
    ensures SlotsAre(p', conns[i := slot.conn], free, leased)
  {
    forall j | 0 <= j < |conns|
      ensures SlotIs(p'.slots[j], conns[i := slot.conn][j], j in free, j in leased)
    {
      assert SlotIs(p.slots[j], conns[j], j in free, j in leased);
    }
  }

  /** connect() on a lease is a run of the protocol, with the same requests. */
  method ConnectRefines(lease: LeaseHandle, peerIsRc: bool, gidIndex: int, ghost p: Pool)
    returns (ok: bool, ghost p': Pool, ghost at: ConnectEnd)
    requires lease.Valid() && lease.pool != null && !lease.connected
    requires StandsFor(lease.pool, p) && LeaseUse(p, lease.index, false)
    modifies lease`connected,
             if lease.pool != null && lease.index < |lease.pool.slots| then {lease.pool.slots[lease.index]} else {}
    ensures lease.Valid() && lease.pool == old(lease.pool) && lease.index == old(lease.index) && lease.connected
    ensures Leads(p, p') && StandsFor(lease.pool, p') && LeaseUse(p', lease.index, true)
    ensures p'.issued == p.issued + IssuesOfConnect(Init, at) && (ok <==> at.Connected?)
    ensures lease.index < |lease.pool.slots| && lease.pool.slots[lease.index] != null
    ensures lease.pool.slots[lease.index].issued
      == old(lease.pool.slots[lease.index].issued) + AskedByConnect(Init, at)
  {
    var i := lease.index;
    UsableConn(lease.pool, i);
    ghost var conns := Conns(lease.pool);
    assert SlotIs(p.slots[i], conns[i], i in lease.pool.free, true);
    ok, at := lease.Connect(peerIsRc, gidIndex);
    ghost var after := lease.pool.slots[i].qp;
    p' := ConnectRun(p, i, at, after);
    assert Conns(lease.pool) == conns[i := Some(Conn(after, conns[i].value.cq))];
    UsedSlots(p, p', conns, lease.pool.free, lease.pool.leased, i, p'.slots[i]);
  }

  /** A poll that takes a completion is a Poll step, and the transfer consumed what it took. */
  method PollRefines(pool: ConnectionPool, i: nat, connected: bool, ghost p: Pool)
    returns (n: int, wc: Completion, ghost p': Pool)
    requires pool.Valid() && i in pool.leased && StandsFor(pool, p) && LeaseUse(p, i, connected)
    modifies if i < |pool.slots| then {pool.slots[i]} else {}
    ensures StandsFor(pool, p')
    ensures if n > 0 then Enabled(p, Poll(i)) && p' == Apply(p, Poll(i)) else p' == p
    ensures n > 0 ==> p'.consumed == p.consumed + [Consumption(p.slots[i].role.number, wc)]
  {
    UsableConn(pool, i);
    ghost var conns := Conns(pool);
    assert SlotIs(p.slots[i], conns[i], i in pool.free, true);
    n, wc := pool.slots[i].PollCq();
    p' := p;
    if n > 0 {
      p' := Apply(p, Poll(i));
      assert Conns(pool) == conns[i := Some(Conn(conns[i].value.qp, conns[i].value.cq[1..]))];
      UsedSlots(p, p', conns, pool.free, pool.leased, i, p'.slots[i]);
    } else {
      assert Conns(pool) == conns;
    }
  }
}
