/** A whole transfer on one thread: a lease, the token sent to the server, its reply, the connection
    to the peer and the completion, and the return of the lease on every path. */
module Transfers {
  import opened Basics
  import opened Addressing
  import opened Transport
  import opened PoolProtocol
  import opened ConnectionPools
  import opened TokenCodec
  import Reply

  const REPLY_BUF_LEN: nat := 512

  // ----- The token -----

  /** What the token says about the client's queue pair and memory region. */
  datatype Endpoint = Endpoint(qpNum: uint32, gid: Gid, rkey: uint32, portNum: byte)

  function BuildRdmaToken(end: Endpoint, reg: Registration, size: uint64, offset: off_t): Option<RdmaToken> {
    match BuildToken(reg, size, offset)
    case None => None
    case Some(range) =>
      Some(RdmaToken(end.qpNum, end.gid, end.rkey, range.remoteAddr, range.length, RC, end.portNum, 0))
  }

  /** From registration to wire: a server that decodes the text of a token the library minted gets the
      caller's range, which lies inside the memory region, with nothing wrapped or lost on the way. */
  lemma ServerSeesARegisteredRange(end: Endpoint, reg: Registration, ptr: uint64, size: uint64, offset: off_t)
    requires FromApi(reg, ptr) && CheckBufferArgs(ptr, Some(reg), size, offset) == Success
    ensures BuildRdmaToken(end, reg, size, offset).Some?
    ensures var seen := DecodeHex(EncodeHex(BuildRdmaToken(end, reg, size, offset).value));
      && seen.Some? && seen.value.transport == RC
      && seen.value.qpNum == end.qpNum && seen.value.gid == end.gid && seen.value.rkey == end.rkey
      && seen.value.portNum == end.portNum && seen.value.lid == 0
      && seen.value.length == size && seen.value.remoteAddr == reg.remoteAddr + offset
      && reg.mrBase <= seen.value.remoteAddr && seen.value.remoteAddr + size <= reg.mrBase + reg.mrSize <= TWO_64
      && (reg.hostBuf == 0 ==> seen.value.remoteAddr == ptr + offset)
  {
    MintedTokenIsInside(reg, ptr, size, offset);
    DecodeAfterEncode(BuildRdmaToken(end, reg, size, offset).value);
  }

  // ----- The reply -----

  type ReplyBuf = s: string | |s| == REPLY_BUF_LEN witness seq(REPLY_BUF_LEN, _ => '\0')

  /** What the callback left: a failure, or the buffer and the length it claims to have written. */
  datatype Received = RecvFailed | Recv(buf: ReplyBuf, claimed: nat)

  /** receiveRdmaReplyRaw(): the text and status of a well-formed reply that fits the buffer. */
  function ReplyOf(r: Received): Option<(string, Reply.Status)> {
    if r.RecvFailed? || r.claimed > REPLY_BUF_LEN then None
    else
      match Reply.DecodeReply(r.buf[..r.claimed])
      case None => None
      case Some(status) => Some((r.buf[..r.claimed], status))
  }

  /** A reply counts exactly when the callback worked, claims no more than 512 characters, and what it
      claims to have written is well formed. */
  lemma ReplyOfIs(r: Received)
    ensures ReplyOf(r).Some? <==> r.Recv? && r.claimed <= 512 && Reply.DecodeReply(r.buf[..r.claimed]).Some?
    ensures ReplyOf(r).Some? ==>
      ReplyOf(r).value.0 == r.buf[..r.claimed] && Some(ReplyOf(r).value.1) == Reply.DecodeReply(r.buf[..r.claimed])
  {
  }

  /** The reply carries the token of a peer that an RC queue pair can connect to. */
  predicate NamesAnRcPeer(text: string) {
    Reply.PeerToken(text).Some? && Reply.PeerToken(text).value.transport == RC
  }

  // ----- The transfer -----

  /** The connection a lease holds. */
  ghost function Conn(lease: LeaseHandle): RcConnection?
    reads lease, lease.pool
  {
    if lease.pool != null && lease.index < |lease.pool.slots| then lease.pool.slots[lease.index] else null
  }

  /** How finishing a transfer ended. */
  datatype FinishEnd = Completed | NotRc | GidIndexTooLarge | VerbFailed | PollEnded(poll: PollEnd) | SyncFailed

  /** What the reply and the device are asked for, and what they answer. */
  datatype Finishing = Finishing(text: string, gidIndex: int, sync: bool, syncOk: bool, pollTimeout: nat, arrivals: nat)

  /** What must have happened for a transfer to end like this. */
  twostate predicate Happened(conn: RcConnection, clock: Clock, f: Finishing, why: FinishEnd)
    reads conn, clock
  {
    var peer := Reply.PeerToken(f.text);
    match why
    case Completed =>
      && peer.Some? && peer.value.transport == RC && 0 <= f.gidIndex < 256 && (f.sync ==> f.syncOk)
      && |conn.consumed| > |old(conn.consumed)| && conn.consumed[|conn.consumed| - 1].success
    case NotRc => peer.Some? && peer.value.transport != RC
    case GidIndexTooLarge => peer.Some? && !(0 <= f.gidIndex < 256)
    case VerbFailed => conn.failures > old(conn.failures)
    case PollEnded(Matched) => false
    case PollEnded(PollFailed) => conn.failures > old(conn.failures)
    case PollEnded(ErrorCompletion) =>
      |conn.consumed| > |old(conn.consumed)| && !conn.consumed[|conn.consumed| - 1].success
    case PollEnded(TimedOut) => clock.now >= old(clock.now) + f.pollTimeout
    case SyncFailed => f.sync && !f.syncOk
  }

  /** Connects to the peer the reply names, if any, and waits for a completion. It succeeds unless one of
      the causes in `why` happened; a reply that names no RC peer never does, since nothing completes on a
      queue pair that is not connected; and the lease is marked as connected exactly when connecting was
      tried. */
  method FinishTransferAfterReply(lease: LeaseHandle, f: Finishing, clock: Clock)
    returns (ok: bool, ghost why: FinishEnd)
    requires lease.Valid() && lease.pool != null && !lease.connected
    modifies lease`connected, clock,
             if lease.pool != null && lease.index < |lease.pool.slots| then {lease.pool.slots[lease.index]} else {}
    ensures lease.Valid() && lease.pool == old(lease.pool) && lease.index == old(lease.index)
    ensures clock.now >= old(clock.now)
    ensures lease.connected <==> Reply.PeerToken(f.text).Some?
    ensures Conn(lease) != null && Conn(lease) == old(Conn(lease))
    ensures old(lease.pool.Lawful()) ==> lease.pool.Lawful()
    ensures (ok <==> why == Completed) && Happened(old(Conn(lease)), clock, f, why)
    ensures ok ==> Conn(lease).qp == Rts
  {
    var connected;
    connected, why := ConnectToPeer(lease, f);
    if !connected {
      return false, why;
    }
    var polled;
    ghost var poll;
    polled, poll := Poll(lease, f, clock);
    if !polled {
      return false, PollEnded(poll);
    }
    if !f.sync {
      return true, Completed;
    }
    return f.syncOk, if f.syncOk then Completed else SyncFailed;
  }

  /** Connects to the peer that the reply names, if it names one. */
  method ConnectToPeer(lease: LeaseHandle, f: Finishing) returns (ok: bool, ghost why: FinishEnd)
    requires lease.Valid() && lease.pool != null && !lease.connected
    modifies lease`connected,
             if lease.pool != null && lease.index < |lease.pool.slots| then {lease.pool.slots[lease.index]} else {}
    ensures lease.Valid() && lease.pool == old(lease.pool) && lease.index == old(lease.index)
    ensures lease.connected <==> Reply.PeerToken(f.text).Some?
    ensures Conn(lease) != null && Conn(lease) == old(Conn(lease)) && Conn(lease).consumed == old(Conn(lease).consumed)
    ensures Conn(lease).failures >= old(Conn(lease).failures)
    ensures ok && lease.connected ==> NamesAnRcPeer(f.text) && 0 <= f.gidIndex < 256 && Conn(lease).qp == Rts
    ensures !ok ==>
      && Reply.PeerToken(f.text).Some?
      && (|| (why == NotRc && Reply.PeerToken(f.text).value.transport != RC)
          || (why == GidIndexTooLarge && !(0 <= f.gidIndex < 256))
          || (why == VerbFailed && Conn(lease).failures > old(Conn(lease).failures)))
    ensures old(lease.pool.Lawful()) ==> lease.pool.Lawful()
  {
    why := Completed;
    var peer := Reply.PeerToken(f.text);
    if peer.None? {
      return true, why;
    }
    ghost var at;
    ok, at := lease.Connect(peer.value.transport == RC, f.gidIndex);
    why := if peer.value.transport != RC then NotRc else if 0 <= f.gidIndex < 256 then VerbFailed else GidIndexTooLarge;
  }

  /** Waits for any completion. A connection that was not connected gets none. */
  method Poll(lease: LeaseHandle, f: Finishing, clock: Clock) returns (ok: bool, ghost why: PollEnd)
    requires lease.Valid() && lease.pool != null && Conn(lease) != null
    modifies clock,
             if lease.pool != null && lease.index < |lease.pool.slots| then {lease.pool.slots[lease.index]} else {}
    ensures lease.Valid() && Conn(lease) == old(Conn(lease)) && Conn(lease).qp == old(Conn(lease).qp)
    ensures clock.now >= old(clock.now)
    ensures old(lease.pool.Lawful()) ==> lease.pool.Lawful()
    ensures (ok <==> why == Matched) && Conn(lease).failures == old(Conn(lease).failures) + Bit(why == PollFailed)
    ensures ok ==>
      && lease.connected && |Conn(lease).consumed| > |old(Conn(lease).consumed)|
      && Conn(lease).consumed[|Conn(lease).consumed| - 1].success
    ensures why == ErrorCompletion ==>
      && |Conn(lease).consumed| > |old(Conn(lease).consumed)|
      && !Conn(lease).consumed[|Conn(lease).consumed| - 1].success
    ensures why == TimedOut ==> clock.now >= old(clock.now) + f.pollTimeout
  {
    var conn := lease.pool.slots[lease.index];
    ok, why := conn.PollCompletion(None, f.pollTimeout, clock, f.arrivals);
  }

  /** What a transfer returns when it cannot lease a connection, or nothing when it waits. */
  function AcquireError(out: Outcome): Option<ApiError>
    requires !out.Lease?
  {
    match out
    case Wait => None
    case Closed => Some(NotInitialized)
    case Busy => Some(BusyError)
    case NoConnections => Some(RdmaError)
  }

  /** A transfer, what the world answers to it, and the transfers that its two callbacks start, on the
      same thread, before they return. */
  datatype Request = Request(
    end: Endpoint, reg: Registration, size: uint64, offset: off_t,
    sent: bool, received: Received, gidIndex: int, syncOk: bool, pollTimeout: nat, arrivals: nat,
    inSend: Requests, inReceive: Requests)
  datatype Requests = NoMore | More(first: Request, rest: Requests)

  /** The request was sent, and the server's reply says it succeeded. */
  predicate Accepted(req: Request) {
    req.sent && ReplyOf(req.received).Some? && ReplyOf(req.received).value.1 == Reply.Success
  }

  predicate InRange(req: Request) { RangeInRegistration(req.offset, req.size, req.reg.size) }

  /** What is left to do once the server accepted. */
  function FinishOf(req: Request): Finishing
    requires Accepted(req)
  {
    Finishing(ReplyOf(req.received).value.0, req.gidIndex, req.reg.isDmabuf, req.syncOk, req.pollTimeout, req.arrivals)
  }

  /** What a transfer that got a connection answers: a range outside the buffer is an RDMA error, and a
      request that the server did not accept an S3 error. An accepted one succeeds, unless one of the
      causes in `why` happened, which is an RDMA error. */
  predicate IsAnswerTo(req: Request, r: Option<ApiError>, why: FinishEnd) {
    if !InRange(req) then r == Some(RdmaError)
    else if !Accepted(req) then r == Some(S3Error)
    else r == Some(if why == Completed then Success else RdmaError)
  }

  /** An accepted transfer ended for a reason. */
  twostate predicate HadCause(req: Request, conn: RcConnection, clock: Clock, why: FinishEnd)
    reads conn, clock
  {
    InRange(req) && Accepted(req) ==> Happened(conn, clock, FinishOf(req), why)
  }

  /** What transfers leave of a pool: who holds what, and that requests are lawful. Free connections can
      only be dropped or replaced. Connections that are held are not even in the frame of a transfer. */
  twostate predicate Kept(pool: ConnectionPool, thread: ThreadCount)
    reads pool, pool.slots, thread
  {
    && pool.leased == old(pool.leased) && pool.closed == old(pool.closed) && thread.held == old(thread.held)
    && |pool.slots| == |old(pool.slots)|
    && (forall i :: i in pool.leased && 0 <= i < |pool.slots| ==> pool.slots[i] == old(pool.slots[i]))
    && fresh(pool.FreeConnections() - old(pool.FreeConnections()))
    && (forall i :: i in pool.free ==> i in old(pool.free)) && pool.live <= old(pool.live)
    && (old(pool.Lawful()) ==> pool.Lawful())
  }

  /** Runs a transfer. Whatever the server, the callbacks and the verbs do, and however many transfers
      the callbacks start inside it, the lease is returned: the pool, its leases and the thread's count
      are as before, but for connections that had to be dropped. Its answer is that of `acquire` when there
      is no connection, and otherwise that of the exchange on the connection it got. A transfer whose
      thread holds a lease never waits. */
  method RunRdmaTransfer(pool: ConnectionPool, thread: ThreadCount, clock: Clock, req: Request)
    returns (r: Option<ApiError>, ghost why: FinishEnd)
    requires pool.Valid()
    modifies pool, thread, clock, pool.verbs, pool.FreeConnections()
    ensures pool.Valid() && Kept(pool, thread) && clock.now >= old(clock.now)
    ensures old(pool.closed) ==> r == Some(NotInitialized)
    ensures !old(pool.closed) && old(pool.free) == [] && old(pool.live) == 0 ==> r == Some(RdmaError)
    ensures !old(pool.closed) && old(pool.free) == [] && old(pool.live) > 0 ==>
      r == if old(thread.held) > 0 then Some(BusyError) else None
    ensures old(pool.closed) || old(pool.free) == [] ==> pool.free == old(pool.free) && pool.live == old(pool.live)
    ensures !old(pool.closed) && old(pool.free) != [] ==>
      var i := old(pool.free)[|old(pool.free)| - 1];
      && IsAnswerTo(req, r, why)
      && i < |old(pool.slots)| && old(pool.slots[i]) != null && HadCause(req, old(pool.slots[i]), clock, why)
    ensures !old(pool.closed) && old(pool.free) != [] && !Accepted(req) && req.inSend == req.inReceive == NoMore ==>
      pool.free == old(pool.free) && pool.live == old(pool.live)
    decreases req, 4
  {
    why := Completed;
    var out, lease := AcquireLease(pool, thread);
    if lease == null {
      return AcquireError(out), why;
    }
    r, why := ExchangeAndReturn(pool, lease, thread, clock, req, old(pool.leased), old(pool.free),
      old(pool.FreeConnections()));
  }

  /** acquire(): one pass, and a lease that is counted when it answers with one. */
  method AcquireLease(pool: ConnectionPool, thread: ThreadCount) returns (out: Outcome, lease: LeaseHandle?)
    requires pool.Valid()
    modifies pool`free, pool`leased, thread
    ensures pool.Valid() && (lease == null <==> !out.Lease?)
    ensures out == Closed <==> pool.closed
    ensures out.Lease? <==> !pool.closed && old(pool.free) != []
    ensures out == NoConnections <==> !pool.closed && old(pool.free) == [] && pool.live == 0
    ensures out == Busy <==> !pool.closed && old(pool.free) == [] && pool.live > 0 && old(thread.held) > 0
    ensures out == Wait <==> !pool.closed && old(pool.free) == [] && pool.live > 0 && old(thread.held) == 0
    ensures (old(pool.Lawful()) ==> pool.Lawful()) && pool.FreeConnections() <= old(pool.FreeConnections())
    ensures lease != null ==>
      Taken(pool, out.index, old(pool.leased), old(pool.free), old(pool.FreeConnections()))
    ensures lease == null ==>
      pool.free == old(pool.free) && pool.leased == old(pool.leased) && thread.held == old(thread.held)
    ensures lease != null ==>
      && fresh(lease) && lease.Valid() && lease.pool == pool && lease.index == out.index && !lease.connected
      && old(pool.free) == pool.free + [out.index] && out.index !in old(pool.leased)
      && pool.leased == old(pool.leased) + {out.index} && thread.held == old(thread.held) + 1
  {
    out := pool.AcquireOnce(thread.held > 0);
    if !out.Lease? {
      return out, null;
    }
    lease := new LeaseHandle(thread, pool, out.index);
  }

  /** What a transfer that gives its connection back leaves of a pool in which, before it took the
      connection, `leased` and `free` were the indices and `conns` the free connections. */
  twostate predicate Returned(pool: ConnectionPool, thread: ThreadCount, leased: set<nat>, free: seq<nat>,
                              conns: set<RcConnection?>)
    reads pool, pool.slots, thread
  {
    && pool.leased == leased && pool.closed == old(pool.closed) && thread.held == old(thread.held) - 1
    && |pool.slots| == |old(pool.slots)|
    && (forall i :: i in pool.leased && 0 <= i < |pool.slots| ==> pool.slots[i] == old(pool.slots[i]))
    && fresh(pool.FreeConnections() - conns)
    && (forall i :: i in pool.free ==> i in free) && pool.live <= old(pool.live)
    && (old(pool.Lawful()) ==> pool.Lawful())
  }

  /** The pool once the connection at `index` has been taken. */
  ghost predicate Taken(pool: ConnectionPool, index: nat, leased: set<nat>, free: seq<nat>, conns: set<RcConnection?>)
    reads pool
  {
    && index < |pool.slots| && index !in leased
    && pool.leased == leased + {index} && free == pool.free + [index]
    && conns == pool.FreeConnections() + {pool.slots[index]}
  }

  /** The lease's destructor runs however the exchange ends. */
  method ExchangeAndReturn(pool: ConnectionPool, lease: LeaseHandle, thread: ThreadCount, clock: Clock, req: Request,
                           ghost leased: set<nat>, ghost free: seq<nat>, ghost conns: set<RcConnection?>)
    returns (r: Option<ApiError>, ghost why: FinishEnd)
    requires lease.Valid() && lease.pool == pool && !lease.connected && thread.held > 0
    requires Taken(pool, lease.index, leased, free, conns)
    modifies lease, pool, thread, clock, pool.verbs, pool.FreeConnections(),
      if lease.index < |pool.slots| then {pool.slots[lease.index]} else {}
    ensures pool.Valid() && Returned(pool, thread, leased, free, conns) && clock.now >= old(clock.now)
    ensures IsAnswerTo(req, r, why) && HadCause(req, old(Conn(lease)), clock, why)
    ensures !Accepted(req) && req.inSend == req.inReceive == NoMore ==>
      pool.free == free && pool.live == old(pool.live)
    decreases req, 3
  {
    ghost var before := pool.FreeConnections();
    r, why := Exchange(pool, lease, thread, clock, req);
    ghost var between, mine := pool.FreeConnections(), pool.slots[lease.index];
    GiveBack(pool, lease, thread);
    assert conns == before + {mine};
    assert pool.FreeConnections() - conns <= (pool.FreeConnections() - (between + {mine})) + (between - before);
  }

  /** The destructor of the lease. */
  method GiveBack(pool: ConnectionPool, lease: LeaseHandle, thread: ThreadCount)
    requires lease.Valid() && lease.pool == pool && thread.held > 0 && lease.index < |pool.slots|
    modifies thread, lease`pool, pool, pool.verbs, if lease.index < |pool.slots| then {pool.slots[lease.index]} else {}
    ensures pool.Valid() && old(Conn(lease)) != null
    ensures old(Conn(lease)).consumed == old(Conn(lease).consumed)
    ensures old(Conn(lease)).failures >= old(Conn(lease).failures)
    ensures Returned(pool, thread, old(pool.leased) - {lease.index}, old(pool.free) + [lease.index],
                     old(pool.FreeConnections()) + {old(pool.slots[lease.index])})
    ensures !old(lease.connected) ==> pool.free == old(pool.free) + [lease.index] && pool.live == old(pool.live)
  {
    var notice := lease.Destroy(thread);
  }

  /** The part of a transfer that runs while it holds the lease. */
  method Exchange(pool: ConnectionPool, lease: LeaseHandle, thread: ThreadCount, clock: Clock, req: Request)
    returns (r: Option<ApiError>, ghost why: FinishEnd)
    requires lease.Valid() && lease.pool == pool && !lease.connected && thread.held > 0
    modifies lease`connected, pool, thread, clock, pool.verbs, pool.FreeConnections(),
      if lease.index < |pool.slots| then {pool.slots[lease.index]} else {}
    ensures lease.Valid() && lease.pool == pool && lease.index == old(lease.index) && Kept(pool, thread)
    ensures clock.now >= old(clock.now) && Conn(lease) == old(Conn(lease))
    ensures IsAnswerTo(req, r, why) && HadCause(req, old(Conn(lease)), clock, why)
    ensures lease.connected ==> Accepted(req)
    ensures req.inSend == req.inReceive == NoMore ==> pool.free == old(pool.free) && pool.live == old(pool.live)
    decreases req, 2
  {
    why := Completed;
    var token := BuildRdmaToken(req.end, req.reg, req.size, req.offset);
    if token.None? {
      return Some(RdmaError), why;
    }
    Callback(pool, lease, thread, clock, req.inSend);
    if !req.sent {
      return Some(S3Error), why;
    }
    r, why := AfterSend(pool, lease, thread, clock, req);
  }

  /** The rest of the exchange, once the request was sent. */
  method AfterSend(pool: ConnectionPool, lease: LeaseHandle, thread: ThreadCount, clock: Clock, req: Request)
    returns (r: Option<ApiError>, ghost why: FinishEnd)
    requires lease.Valid() && lease.pool == pool && !lease.connected && thread.held > 0 && req.sent
    modifies lease`connected, pool, thread, clock, pool.verbs, pool.FreeConnections(),
      if lease.index < |pool.slots| then {pool.slots[lease.index]} else {}
    ensures lease.Valid() && lease.pool == pool && lease.index == old(lease.index) && Kept(pool, thread)
    ensures clock.now >= old(clock.now) && Conn(lease) == old(Conn(lease))
    ensures (InRange(req) ==> IsAnswerTo(req, r, why)) && HadCause(req, old(Conn(lease)), clock, why)
    ensures lease.connected ==> Accepted(req)
    ensures req.inReceive == NoMore ==> pool.free == old(pool.free) && pool.live == old(pool.live)
    decreases req, 1
  {
    Callback(pool, lease, thread, clock, req.inReceive);
    r, why := Conclude(pool, lease, thread, clock, req);
  }

  /** What a transfer does with the reply. */
  method Conclude(pool: ConnectionPool, lease: LeaseHandle, thread: ThreadCount, clock: Clock, req: Request)
    returns (r: Option<ApiError>, ghost why: FinishEnd)
    requires lease.Valid() && lease.pool == pool && !lease.connected && req.sent
    modifies lease`connected, clock, if lease.index < |pool.slots| then {pool.slots[lease.index]} else {}
    ensures lease.Valid() && Kept(pool, thread)
    ensures clock.now >= old(clock.now) && Conn(lease) == old(Conn(lease))
    ensures (InRange(req) ==> IsAnswerTo(req, r, why)) && HadCause(req, old(Conn(lease)), clock, why)
    ensures lease.connected ==> Accepted(req)
  {
    why := Completed;
    var reply := ReplyOf(req.received);
    if reply.None? || reply.value.1 != Reply.Success {
      return Some(S3Error), why;
    }
    var ok;
    ok, why := FinishTransferAfterReply(lease, FinishOf(req), clock);
    return if ok then Some(Success) else Some(RdmaError), why;
  }

  /** A callback runs while the transfer holds its lease, which stays as it is. */
  method Callback(pool: ConnectionPool, lease: LeaseHandle, thread: ThreadCount, clock: Clock, reqs: Requests)
    requires lease.Valid() && lease.pool == pool && !lease.connected && thread.held > 0
    modifies pool, thread, clock, pool.verbs, pool.FreeConnections()
    ensures lease.Valid() && Kept(pool, thread) && clock.now >= old(clock.now)
    ensures Conn(lease) != null && Conn(lease) == old(Conn(lease))
    ensures Conn(lease).consumed == old(Conn(lease).consumed) && Conn(lease).failures == old(Conn(lease).failures)
    ensures reqs == NoMore ==> pool.free == old(pool.free) && pool.live == old(pool.live)
    decreases reqs, 1
  {
    assert pool.slots[lease.index] !in pool.FreeConnections();
    RunAll(pool, thread, clock, reqs);
  }

  /** The transfers that a callback starts, one after the other. */
  method RunAll(pool: ConnectionPool, thread: ThreadCount, clock: Clock, reqs: Requests)
    requires pool.Valid() && thread.held > 0
    modifies pool, thread, clock, pool.verbs, pool.FreeConnections()
    ensures pool.Valid() && Kept(pool, thread) && clock.now >= old(clock.now)
    ensures reqs == NoMore ==> pool.free == old(pool.free) && pool.live == old(pool.live)
    decreases reqs, 0
  {
    if reqs.More? {
      var _, _ := RunRdmaTransfer(pool, thread, clock, reqs.first);
      RunAll(pool, thread, clock, reqs.rest);
    }
  }
}
