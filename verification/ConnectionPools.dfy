/** The connection pool as the code runs it on one thread: each method is what happens between
    taking and releasing the mutex, or outside it. `PoolProtocol` interleaves them. */
module ConnectionPools {
  import opened Basics
  import opened Transport
  import opened PoolProtocol

  /** The notification a release owes once it has left the lock. */
  datatype Notice = NotifyOneWaiter | NotifyAllWaiters | NotifyNone

  /** How restoring a connection ended, and where the calls that failed did. A lease that did not
      connect needs no restore. */
  datatype RestoreEnd =
    | NotNeeded
    | WasReset
    | WasReplaced(reset: ResetEnd)
    | WasDropped(reset: ResetEnd, create: CreateEnd)
    | Threw

  predicate IsDropped(how: RestoreEnd) { how.WasDropped? || how.Threw? }

  /** The failures are ones that can happen to a queue of `n` completions. */
  predicate CanHappen(how: RestoreEnd, n: nat) {
    && (how.WasReplaced? || how.WasDropped? ==>
          && !how.reset.ResetWorked?
          && (how.reset.DrainFailed? ==> how.reset.polls < CQ_SIZE && how.reset.polls <= n))
    && (how.WasDropped? ==> !how.create.Created?)
  }

  /** What restoring a connection in state `qp` asked of its queue pair and of the one that replaced it. */
  function Asked(qp: QpState, how: RestoreEnd): seq<Modify> {
    match how
    case NotNeeded => []
    case WasReset => AskedByReset(qp, ResetWorked)
    case WasReplaced(reset) => AskedByReset(qp, reset) + AskedByCreate(Created)
    case WasDropped(reset, create) => AskedByReset(qp, reset) + AskedByCreate(create)
    case Threw => []
  }

  /** Creates connections until `count` exist or one cannot be created. */
  method CreateConnections(verbs: Verbs, count: nat) returns (conns: seq<RcConnection?>)
    modifies verbs`refusals
    ensures |conns| <= count && verbs.refusals == old(verbs.refusals) + Bit(|conns| < count)
    ensures forall j :: 0 <= j < |conns| ==> IsNew(conns[j]) && fresh(conns[j])
    ensures forall j, k :: 0 <= j < k < |conns| ==> conns[j] != conns[k]
  {
    conns := [];
    for i := 0 to count
      invariant |conns| == i && verbs.refusals == old(verbs.refusals)
      invariant forall j :: 0 <= j < i ==> IsNew(conns[j]) && fresh(conns[j])
      invariant forall j, k :: 0 <= j < k < i ==> conns[j] != conns[k]
    {
      var conn, _ := CreateRcConnection(verbs, CQ_SIZE);
      if conn == null {
        return;
      }
      conns := conns + [conn];
    }
  }

  /** A connection that createRcConnection() returned. */
  ghost predicate IsNew(conn: RcConnection?)
    reads conn
  {
    conn != null && conn.Valid() && conn.cqe == CQ_SIZE && conn.qp == Init && conn.cq == [] && conn.Lawful()
  }

  /** How the reset that was part of it ended. */
  function ResetOf(how: RestoreEnd): ResetEnd {
    match how
    case WasReset => ResetWorked
    case WasReplaced(reset) => reset
    case WasDropped(reset, _) => reset
    case _ => NotTried
  }

  class ConnectionPool {
    const verbs: Verbs
    var slots: seq<RcConnection?>
    var free: seq<nat>
    var live: nat
    var closed: bool
    /** The slots that lease objects hold. */
    ghost var leased: set<nat>

    ghost predicate Usable(i: nat)
      reads this, slots
    {
      i < |slots| && slots[i] != null && slots[i].Valid() && slots[i].cqe == CQ_SIZE
    }

    ghost predicate CleanSlot(i: nat)
      reads this, slots
    {
      Usable(i) && slots[i].qp == Init && slots[i].cq == []
    }

    /** Every modify_qp issued on the pool's connections was legal, or followed an unseen failure. */
    ghost predicate Lawful()
      reads this, slots
    {
      forall i :: 0 <= i < |slots| && slots[i] != null ==> slots[i].Lawful()
    }

    /** The connections that no lease holds. */
    ghost function FreeConnections(): set<RcConnection?>
      reads this
    {
      set i | i in free && 0 <= i < |slots| :: slots[i]
    }

    /** The invariant, but for slot `hole`, whose lease is ending. */
    ghost predicate ValidBut(hole: nat)
      reads this, slots
    {
      && NoDuplicates(free)
      && (forall k :: 0 <= k < |free| ==> free[k] != hole && CleanSlot(free[k]) && free[k] !in leased)
      && (forall i :: i in leased && i != hole ==> Usable(i))
      && (forall i :: 0 <= i < |slots| && i != hole && slots[i] != null ==> i in free || i in leased)
      && (forall i, j :: 0 <= i < j < |slots| && slots[i] != null ==> slots[i] != slots[j])
      && live == |free| + |leased|
    }

    ghost predicate Valid()
      reads this, slots
    {
      && NoDuplicates(free)
      && (forall k :: 0 <= k < |free| ==> CleanSlot(free[k]) && free[k] !in leased)
      && (forall i :: i in leased ==> Usable(i))
      && (forall i :: 0 <= i < |slots| && slots[i] != null ==> i in free || i in leased)
      && (forall i, j :: 0 <= i < j < |slots| && slots[i] != null ==> slots[i] != slots[j])
      && live == |free| + |leased|
    }

    /** Creates connections until `count` exist or one cannot be created. */
    constructor (v: Verbs, count: nat)
      modifies v`refusals
      ensures Valid() && verbs == v && !closed && leased == {} && Lawful()
      ensures v.refusals == old(v.refusals) + Bit(|slots| < count)
      ensures |slots| <= count && free == seq(|slots|, i => i) && live == |slots|
      ensures forall i :: 0 <= i < |slots| ==> CleanSlot(i) && fresh(slots[i])
    {
      verbs, closed, leased := v, false, {};
      var conns := CreateConnections(v, count);
      slots, free, live := conns, seq(|conns|, i => i), |conns|;
      new;
      forall j | 0 <= j < |slots|
        ensures j in free
      {
        assert free[j] == j;
      }
    }

    /** One pass of acquire() under the lock. A lease gets a connection no other lease holds, in
        INIT with an empty queue. */
    method AcquireOnce(holds: bool) returns (out: Outcome)
      requires Valid()
      modifies this`free, this`leased
      ensures Valid()
      ensures out == AcquirePass(old(free), live, closed, holds)
      ensures out == Closed <==> closed
      ensures out.Lease? <==> !closed && old(free) != []
      ensures out == NoConnections <==> !closed && old(free) == [] && live == 0
      ensures out == Busy <==> !closed && old(free) == [] && live > 0 && holds
      ensures out == Wait <==> !closed && old(free) == [] && live > 0 && !holds
      ensures out.Lease? ==>
        && old(free) == free + [out.index] && out.index !in old(leased)
        && leased == old(leased) + {out.index} && CleanSlot(out.index)
      ensures !out.Lease? ==> free == old(free) && leased == old(leased)
    {
      if !holds && !closed && |free| == 0 && live != 0 {
        return Wait;
      }
      if closed {
        return Closed;
      }
      if |free| == 0 {
        return if live == 0 then NoConnections else Busy;
      }
      var index := free[|free| - 1];
      free := free[..|free| - 1];
      leased := leased + {index};
      assert old(free) == free + [index];
      return Lease(index);
    }

    /** Closes the pool, and owes every waiter a notification. */
    method Close() returns (notice: Notice)
      requires Valid()
      modifies this`closed
      ensures Valid() && closed && notice == NotifyAllWaiters
    {
      closed := true;
      return NotifyAllWaiters;
    }

    /** Resets the connection in slot `i`, or replaces it, or leaves the slot empty, which happens only
        when a new connection cannot be created or something throws. */
    method Restore(i: nat) returns (ok: bool, ghost how: RestoreEnd)
      requires i < |slots| && (slots[i] != null ==> slots[i].Valid() && slots[i].cqe == CQ_SIZE)
      modifies this`slots, verbs, if i < |slots| && slots[i] != null then {slots[i]} else {}
      ensures verbs.refusals == old(verbs.refusals) + Bit(how.WasDropped?)
      ensures verbs.exceptions == old(verbs.exceptions) + Bit(how.Threw?)
      ensures |slots| == |old(slots)|
      ensures forall j :: 0 <= j < |slots| && j != i ==> slots[j] == old(slots[j])
      ensures how != NotNeeded && (!ok <==> IsDropped(how))
      ensures CanHappen(how, if old(slots[i]) == null then 0 else |old(slots[i].cq)|)
      ensures old(slots[i]) != null && !how.Threw? ==>
        && ResetOf(how) != NotTried
        && old(slots[i]).issued == old(slots[i].issued) + AskedByReset(old(slots[i].qp), ResetOf(how))
      ensures old(slots[i]) != null ==>
        && old(slots[i]).consumed == old(slots[i].consumed)
        && old(slots[i]).failures == old(slots[i].failures) + Bit(how.WasReplaced? || how.WasDropped?)
      ensures how.WasReplaced? ==> slots[i] != null && slots[i].issued == AskedByCreate(Created)
      ensures ok ==> CleanSlot(i) && (old(slots[i] != null ==> slots[i].Lawful()) ==> slots[i].Lawful())
      ensures if ok then slots[i] == old(slots[i]) || fresh(slots[i]) else slots[i] == null
    {
      var thrown := verbs.Throws();
      if thrown {
        slots := slots[i := null];
        return false, Threw;
      }
      ghost var at := NotTried;
      if slots[i] != null {
        ok, at := slots[i].ResetRcConnection();
        if ok {
          how := WasReset;
          return;
        }
      }
      slots := slots[i := null];
      ghost var end;
      var made;
      made, end := CreateRcConnection(verbs, CQ_SIZE);
      if made == null {
        return false, WasDropped(at, end);
      }
      slots := slots[i := made];
      return true, WasReplaced(at);
    }

    /** The lock section of release(). */
    method PutBack(index: nat, usable: bool) returns (notice: Notice)
      requires ValidBut(index) && index in leased && index < |slots|
      requires if usable then CleanSlot(index) else slots[index] == null
      modifies this`free, this`live, this`leased
      ensures Valid() && leased == old(leased) - {index}
      ensures usable <==> notice == NotifyOneWaiter
      ensures usable ==> free == old(free) + [index] && live == old(live)
      ensures !usable ==> free == old(free) && live == old(live) - 1
      ensures notice == NotifyAllWaiters <==> !usable && live == 0
    {
      leased := leased - {index};
      if usable {
        free := free + [index];
        assert index in free && forall i :: i in old(free) ==> i in free;
        return NotifyOneWaiter;
      }
      live := live - 1;
      return if live == 0 then NotifyAllWaiters else NotifyNone;
    }

    /** Takes back the connection of a lease that ends. It is free and clean again, or dropped, which
        happens only when it could not be replaced; `notice` is owed exactly when a waiter could now
        go on. */
    method Release(index: nat, connected: bool) returns (notice: Notice, ghost how: RestoreEnd)
      requires Valid() && index in leased && (!connected ==> CleanSlot(index))
      modifies this`slots, this`free, this`live, this`leased, verbs, if index < |slots| then {slots[index]} else {}
      ensures verbs.refusals == old(verbs.refusals) + Bit(how.WasDropped?)
      ensures verbs.exceptions == old(verbs.exceptions) + Bit(how.Threw?)
      ensures Valid() && leased == old(leased) - {index}
      ensures |slots| == |old(slots)|
      ensures forall j :: 0 <= j < |slots| && j != index ==> slots[j] == old(slots[j])
      ensures slots[index] == old(slots[index]) || slots[index] == null || fresh(slots[index])
      ensures notice == NotifyOneWaiter ==> free == old(free) + [index] && CleanSlot(index) && live == old(live)
      ensures notice != NotifyOneWaiter ==> free == old(free) && slots[index] == null && live == old(live) - 1
      ensures notice == NotifyAllWaiters <==> notice != NotifyOneWaiter && live == 0
      ensures !connected ==> notice == NotifyOneWaiter
      ensures old(Lawful()) ==> Lawful()
      ensures IsDropped(how) <==> notice != NotifyOneWaiter
      ensures (how == NotNeeded <==> !connected) && CanHappen(how, |old(slots[index].cq)|)
      ensures connected && !how.Threw? ==>
        && ResetOf(how) != NotTried
        && old(slots[index]).issued == old(slots[index].issued) + AskedByReset(old(slots[index].qp), ResetOf(how))
      ensures old(slots[index]).consumed == old(slots[index].consumed)
      ensures old(slots[index]).failures == old(slots[index].failures) + Bit(how.WasReplaced? || how.WasDropped?)
      ensures how.WasReplaced? ==> slots[index] != null && slots[index].issued == AskedByCreate(Created)
    {
      var usable := true;
      how := NotNeeded;
      if connected {
        usable, how := Restore(index);
      }
      notice := PutBack(index, usable);
    }

    method Size() returns (n: nat)
      requires Valid()
      ensures n == |free| + |leased|
    {
      n := live;
    }

    /** The connections that exist and that no lease holds. */
    method Available() returns (n: nat)
      requires Valid()
      ensures n == |set i: nat | i < |slots| && slots[i] != null && i !in leased|
    {
      n := |free|;
      DistinctCount(free);
      assert (set i: nat | i < |slots| && slots[i] != null && i !in leased) == Elements(free);
    }
  }

  /** A thread's lease count. */
  class ThreadCount {
    var held: nat
  }

  class LeaseHandle {
    /** Null once it has been moved from, or has returned its connection. */
    var pool: ConnectionPool?
    var index: nat
    var connected: bool

    ghost predicate Valid()
      reads this, pool, if pool == null then [] else pool.slots
    {
      pool != null ==>
        && pool.Valid() && index in pool.leased
        && (!connected ==> pool.CleanSlot(index))
    }

    constructor (thread: ThreadCount, p: ConnectionPool, i: nat)
      requires p.Valid() && i in p.leased && p.CleanSlot(i)
      modifies thread
      ensures Valid() && pool == p && index == i && !connected && thread.held == old(thread.held) + 1
    {
      pool, index, connected := p, i, false;
      new;
      thread.held := thread.held + 1;
    }

    /** Moving hands the connection over and leaves this with none to return; nothing is counted. */
    method MoveOut() returns (to: LeaseHandle)
      requires Valid()
      modifies this
      ensures fresh(to) && to.Valid() && Valid()
      ensures to.pool == old(pool) && to.index == old(index) && to.connected == old(connected)
      ensures pool == null
    {
      to := new LeaseHandle.Adopt(pool, index, connected);
      pool := null;
    }

    constructor Adopt(p: ConnectionPool?, i: nat, c: bool)
      ensures pool == p && index == i && connected == c
    {
      pool, index, connected := p, i, c;
    }

    /** The connection is reset when the lease ends whether or not connecting works. The first
        connect() of a lease keeps the pool's requests legal. */
    method Connect(peerIsRc: bool, gidIndex: int) returns (ok: bool, ghost at: ConnectEnd)
      requires Valid() && pool != null
      modifies this`connected, if pool != null && index < |pool.slots| then {pool.slots[index]} else {}
      ensures Valid() && connected && pool == old(pool) && index == old(index)
      ensures index < |pool.slots| && pool.slots[index] != null
        && pool.slots[index].consumed == old(pool.slots[index].consumed)
      ensures ok ==> pool.slots[index].qp == Rts && peerIsRc && 0 <= gidIndex < 256
      ensures pool.slots[index].failures
        == old(pool.slots[index].failures) + Bit(!ok && peerIsRc && 0 <= gidIndex < 256)
      ensures ok <==> at.Connected?
      ensures pool.slots[index].issued
        == old(pool.slots[index].issued) + AskedByConnect(old(pool.slots[index].qp), at)
      ensures pool.slots[index].cq == old(pool.slots[index].cq)
      ensures at == NotAnRcPeer || at == BadGidIndex ==> pool.slots[index].qp == old(pool.slots[index].qp)
      ensures !old(connected) && old(pool.Lawful()) ==> pool.Lawful()
    {
      connected := true;
      ok, at := pool.slots[index].ConnectRcPeer(peerIsRc, gidIndex);
    }

    /** The destructor: a lease that has been moved from returns and uncounts nothing. */
    method Destroy(thread: ThreadCount) returns (notice: Notice)
      requires Valid() && (pool != null ==> thread.held > 0)
      requires pool != null ==> thread as object !in pool.slots && thread as object != pool
      modifies thread, this`pool, pool, if pool == null then {} else {pool.verbs},
        if pool != null && index < |pool.slots| then {pool.slots[index]} else {}
      ensures pool == null
      ensures old(pool) == null ==> thread.held == old(thread.held) && notice == NotifyNone
      ensures old(pool) != null ==>
        && thread.held == old(thread.held) - 1
        && old(pool).Valid() && old(pool).leased == old(pool.leased) - {index}
        && old(pool).closed == old(pool.closed)
        && (if notice == NotifyOneWaiter
            then old(pool).free == old(pool.free) + [index] && old(pool).live == old(pool.live)
            else old(pool).free == old(pool.free) && old(pool).live == old(pool.live) - 1)
        && (!old(connected) ==> notice == NotifyOneWaiter)
        && (old(pool.Lawful()) ==> old(pool).Lawful())
        && index < |old(pool.slots)| && old(pool.slots[index]) != null
        && old(pool.slots[index]).consumed == old(pool.slots[index].consumed)
        && old(pool.slots[index]).failures >= old(pool.slots[index].failures)
        && |old(pool).slots| == |old(pool.slots)|
        && (forall j :: 0 <= j < |old(pool).slots| ==>
              || old(pool).slots[j] == old(pool.slots)[j]
              || (j == index && (old(pool).slots[j] == null || fresh(old(pool).slots[j]))))
    {
      notice := NotifyNone;
      if pool != null {
        ghost var how;
        notice, how := pool.Release(index, connected);
        thread.held := thread.held - 1;
        pool := null;
      }
    }
  }
}
