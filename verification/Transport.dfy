/** A reliable-connected queue pair and its completion queue, and the calls that move it between
    states. What a verb answers is chosen by the environment: any call may fail, and a
    `modify_qp` that fails may leave the queue pair in any state. */
module Transport {
  import opened Basics

  /** Entries in a pooled connection's completion queue. */
  const CQ_SIZE: nat := 16

  datatype QpState = Reset | Init | Rtr | Rts | Err

  /** The transitions the library may ask for (section 10.3.1 of the InfiniBand Architecture
      Specification, Volume 1): any state can move to RESET or ERR. */
  predicate LegalTransition(from: QpState, to: QpState) {
    if to == Reset || to == Err then true
    else match from
         case Reset => to == Init
         case Init => to == Init || to == Rtr
         case Rtr => to == Rts
         case Rts => to == Rts
         case Err => false
  }

  /** The transitions there are, one by one. */
  lemma TransitionTable(from: QpState, to: QpState)
    ensures LegalTransition(from, to) <==>
      || to == Reset || to == Err
      || (from, to) in {(Reset, Init), (Init, Init), (Init, Rtr), (Rtr, Rts), (Rts, Rts)}
  {
  }

  /** A work completion. `lease` is the number of the lease during which it arrived. */
  datatype Completion = Completion(lease: nat, success: bool, opcode: nat)

  /** A connection as a value. */
  datatype Conn = Conn(qp: QpState, cq: seq<Completion>)

  /** A modify_qp call: the state the queue pair was in, and the state asked for. */
  datatype Modify = Modify(from: QpState, to: QpState)

  /** Completions arrive only on a queue pair that has reached RTR or RTS, and never overflow. */
  predicate CanReceive(conn: Conn) {
    (conn.qp == Rtr || conn.qp == Rts) && |conn.cq| < CQ_SIZE
  }

  /** The verbs that create objects, and whatever can throw. */
  class Verbs {
    /** How many connections could not be created because a verb failed. */
    ghost var refusals: nat
    /** How many exceptions were thrown. */
    ghost var exceptions: nat

    /** create_cq or create_qp. */
    method Create() returns (ok: bool)
      modifies this`refusals
      ensures refusals == old(refusals) + Bit(!ok)
    {
      ok := *;
      if !ok {
        refusals := refusals + 1;
      }
    }

    /** A new connection whose first transition failed is refused too. */
    ghost method RefuseFor(conn: RcConnection)
      requires conn.failures > 0
      modifies this`refusals
      ensures refusals == old(refusals) + 1
    {
      refusals := refusals + 1;
    }

    method Throws() returns (thrown: bool)
      modifies this`exceptions
      ensures exceptions == old(exceptions) + Bit(thrown)
    {
      thrown := *;
      if thrown {
        exceptions := exceptions + 1;
      }
    }
  }

  /** A monotone clock, in milliseconds. */
  class Clock {
    var now: nat
    /** How often somebody slept. */
    ghost var sleeps: nat

    method Read() returns (t: nat)
      modifies this`now
      ensures old(now) <= now == t
    {
      var passed :| passed >= 0;
      now := now + passed;
      t := now;
    }

    method Sleep()
      modifies this
      ensures now > old(now) && sleeps == old(sleeps) + 1
    {
      var passed :| passed >= 0;
      now := now + 1 + passed;
      sleeps := sleeps + 1;
    }
  }

  /** Legal, or the RTS request of a queue pair that failed by itself after it reached RTR. */
  predicate IsLawful(m: Modify) { LegalTransition(m.from, m.to) || m == Modify(Err, Rts) }

  predicate Matches(wc: Completion, expected: Option<nat>) {
    wc.success && (expected.None? || wc.opcode == expected.value)
  }

  /** How resetRcConnection() ended: `polls` completions were discarded before a poll failed. It is not
      tried when there is no connection. */
  datatype ResetEnd = NotTried | ResetWorked | ResetQpFailed | DrainFailed(polls: nat) | InitFailed

  /** What it asked of the queue pair, which was in state `qp`. */
  function AskedByReset(qp: QpState, at: ResetEnd): seq<Modify> {
    if at.NotTried? then []
    else [Modify(qp, Reset)] + (if at.ResetWorked? || at.InitFailed? then [Modify(Reset, Init)] else [])
  }

  /** How connectRcPeer() ended. `failed`: the queue pair failed by itself after it reached RTR. */
  datatype ConnectEnd = Connected(failed: bool) | NotAnRcPeer | BadGidIndex | RtrFailed | RtsFailed(failed: bool)

  /** What it asked of the queue pair, which was in state `qp`. */
  function AskedByConnect(qp: QpState, at: ConnectEnd): seq<Modify> {
    match at
    case Connected(failed) => [Modify(qp, Rtr), Modify(if failed then Err else Rtr, Rts)]
    case RtsFailed(failed) => [Modify(qp, Rtr), Modify(if failed then Err else Rtr, Rts)]
    case RtrFailed => [Modify(qp, Rtr)]
    case _ => []
  }

  /** How createRcConnection() ended, and what it asked of the queue pair. */
  datatype CreateEnd = Created | NoCq | NoQp | FreshInitFailed

  function AskedByCreate(at: CreateEnd): seq<Modify> {
    if at.Created? || at.FreshInitFailed? then [Modify(Reset, Init)] else []
  }

  /** Why pollCompletion() stopped. */
  datatype PollEnd = Matched | PollFailed | ErrorCompletion | TimedOut

  class RcConnection {
    var qp: QpState
    var cq: seq<Completion>
    const cqe: nat
    /** Every modify_qp issued on this connection. */
    ghost var issued: seq<Modify>
    /** Every completion pollCompletion() took from the queue. */
    ghost var consumed: seq<Completion>
    /** How many verbs have failed on this connection. */
    ghost var failures: nat
    /** How many polls found the queue empty. */
    ghost var empties: nat

    ghost predicate Valid()
      reads this
    {
      |cq| <= cqe
    }

    /** Every modify_qp issued was legal, but for RTS requests after a failure it could not see. */
    ghost predicate Lawful()
      reads this
    {
      forall k :: 0 <= k < |issued| ==> IsLawful(issued[k])
    }

    constructor (cqSize: nat)
      ensures Valid() && qp == Reset && cq == [] && cqe == cqSize && issued == [] && consumed == [] && failures == 0
    {
      qp, cq, cqe := Reset, [], cqSize;
      issued, consumed, failures, empties := [], [], 0, 0;
    }

    // ----- Verbs -----

    /** modify_qp. */
    method ModifyQp(to: QpState) returns (ok: bool)
      requires Valid()
      modifies this`qp, this`issued, this`failures
      ensures Valid()
      ensures ok ==> qp == to
      ensures failures == old(failures) + Bit(!ok)
      ensures issued == old(issued) + [Modify(old(qp), to)]
    {
      issued := issued + [Modify(qp, to)];
      ok := *;
      if ok {
        qp := to;
      } else {
        qp, failures := *, failures + 1;
      }
    }

    /** A queue pair that has reached RTR can fail by itself. */
    method FailByItself() returns (ghost failed: bool)
      modifies this`qp
      ensures qp == if failed then Err else old(qp)
      ensures failed ==> old(qp) == Rtr || old(qp) == Rts
    {
      var fails: bool := *;
      failed := fails && (qp == Rtr || qp == Rts);
      if fails && (qp == Rtr || qp == Rts) {
        qp := Err;
      }
    }

    /** poll_cq for one completion: negative on failure, 0 when the queue is empty, else 1. */
    method PollCq() returns (n: int, wc: Completion)
      requires Valid()
      modifies this`cq, this`failures, this`empties
      ensures Valid()
      ensures failures == old(failures) + Bit(n < 0) && empties == old(empties) + Bit(n == 0)
      ensures n < 0 ==> cq == old(cq)
      ensures n == 0 ==> cq == old(cq) == []
      ensures n > 0 ==> old(cq) != [] && wc == old(cq)[0] && cq == old(cq)[1..]
    {
      wc := Completion(0, false, 0);
      var fails: bool := *;
      if fails {
        n, failures := -1, failures + 1;
      } else if cq == [] {
        n, empties := 0, empties + 1;
      } else {
        n, wc, cq := 1, cq[0], cq[1..];
      }
    }

    /** The NIC adds completions, at most `budget` of them, if the queue pair can receive. */
    method Receive(budget: nat) returns (left: nat)
      requires Valid()
      modifies this`cq
      ensures Valid()
      ensures left <= budget && |cq| + left == |old(cq)| + budget
      ensures old(cq) <= cq
      ensures qp != Rtr && qp != Rts ==> cq == old(cq)
    {
      left := budget;
      var more: bool := *;
      while more && left > 0 && (qp == Rtr || qp == Rts) && |cq| < cqe
        invariant Valid() && left <= budget && |cq| + left == |old(cq)| + budget
        invariant old(cq) <= cq
        invariant qp != Rtr && qp != Rts ==> cq == old(cq)
        decreases left
      {
        var c: Completion := *;
        cq, left := cq + [c], left - 1;
        more := *;
      }
    }

    // ----- Transitions -----

    method TransitionToInit() returns (ok: bool)
      requires Valid()
      modifies this`qp, this`issued, this`failures
      ensures Valid() && (ok ==> qp == Init)
      ensures failures == old(failures) + Bit(!ok)
      ensures issued == old(issued) + [Modify(old(qp), Init)]
    {
      ok := ModifyQp(Init);
    }

    /** A GID index that an address handle cannot store is refused before any call. */
    method TransitionToRtr(gidIndex: int) returns (ok: bool)
      requires Valid()
      modifies this`qp, this`issued, this`failures
      ensures Valid() && (ok ==> qp == Rtr && 0 <= gidIndex < 256)
      ensures failures == old(failures) + Bit(!ok && 0 <= gidIndex < 256)
      ensures issued == old(issued) + (if 0 <= gidIndex < 256 then [Modify(old(qp), Rtr)] else [])
      ensures !(0 <= gidIndex < 256) ==> qp == old(qp)
    {
      if gidIndex < 0 || gidIndex > 255 {
        return false;
      }
      ok := ModifyQp(Rtr);
    }

    method TransitionToRts() returns (ok: bool)
      requires Valid()
      modifies this`qp, this`issued, this`failures
      ensures Valid() && (ok ==> qp == Rts)
      ensures failures == old(failures) + Bit(!ok)
      ensures issued == old(issued) + [Modify(old(qp), Rts)]
    {
      ok := ModifyQp(Rts);
    }

    /** Connects to the peer: RTR and then RTS, stopping at the first failure. It fails only for a peer
        that is not RC, a GID index that does not fit, or a verb that fails. From INIT the requests are
        legal, unless the queue pair fails by itself between the two. */
    method ConnectRcPeer(peerIsRc: bool, gidIndex: int) returns (ok: bool, ghost at: ConnectEnd)
      requires Valid()
      modifies this`qp, this`issued, this`failures
      ensures Valid()
      ensures ok <==> at.Connected?
      ensures at == NotAnRcPeer <==> !peerIsRc
      ensures at == BadGidIndex <==> peerIsRc && !(0 <= gidIndex < 256)
      ensures failures == old(failures) + Bit(at.RtrFailed? || at.RtsFailed?)
      ensures ok ==> qp == Rts
      ensures issued == old(issued) + AskedByConnect(old(qp), at)
      ensures at == NotAnRcPeer || at == BadGidIndex ==> qp == old(qp)
      ensures old(qp) == Init && old(Lawful()) ==> Lawful()
    {
      if !peerIsRc {
        return false, NotAnRcPeer;
      }
      ok := TransitionToRtr(gidIndex);
      if !ok {
        at := if 0 <= gidIndex < 256 then RtrFailed else BadGidIndex;
        return;
      }
      ghost var failed := FailByItself();
      ok := TransitionToRts();
      at := if ok then Connected(failed) else RtsFailed(failed);
    }

    /** Empties the completion queue. In RESET nothing more completes, so `cqe` polls are always
        enough. */
    method DrainCompletions() returns (ok: bool, ghost polls: nat)
      requires Valid() && qp == Reset
      modifies this`cq, this`failures, this`empties
      ensures Valid() && (ok ==> cq == [])
      ensures failures == old(failures) + Bit(!ok)
      ensures !ok ==> polls < cqe && polls <= |old(cq)| && cq == old(cq)[polls..]
    {
      polls := 0;
      var left := cqe;
      while left > 0
        invariant 0 <= left <= cqe && |cq| <= left && Valid() && failures == old(failures)
        invariant polls == cqe - left <= |old(cq)| && cq == old(cq)[polls..]
      {
        var n, _ := PollCq();
        if n < 0 {
          return false, polls;
        }
        if n == 0 {
          break;
        }
        left := left - 1;
        polls := polls + 1;
      }
      return true, polls;
    }

    /** Back to INIT through RESET, from any state, with nothing left on the queue. */
    method ResetRcConnection() returns (ok: bool, ghost at: ResetEnd)
      requires Valid()
      modifies this`qp, this`cq, this`issued, this`failures, this`empties
      ensures Valid() && (ok ==> qp == Init && cq == [])
      ensures failures == old(failures) + Bit(!ok)
      ensures old(Lawful()) ==> Lawful()
      ensures (ok <==> at == ResetWorked) && issued == old(issued) + AskedByReset(old(qp), at)
      ensures at != NotTried && (at.DrainFailed? ==> at.polls < cqe && at.polls <= |old(cq)|)
    {
      at := ResetQpFailed;
      ok := ModifyQp(Reset);
      if ok {
        ghost var polls;
        ok, polls := DrainCompletions();
        at := DrainFailed(polls);
      }
      if ok {
        ok := TransitionToInit();
        at := if ok then ResetWorked else InitFailed;
      }
    }

    /** Waits for a completion with the expected opcode. Success means one was taken from the
        queue, after only successful ones with other opcodes; a timeout means the deadline passed; it
        sleeps exactly when a poll found nothing; and a clean connection that is not connected gets none. */
    method PollCompletion(expected: Option<nat>, timeout: nat, clock: Clock, arrivals: nat)
      returns (ok: bool, ghost why: PollEnd)
      requires Valid()
      modifies this`cq, this`consumed, this`failures, this`empties, clock
      ensures Valid()
      ensures ok <==> why == Matched
      ensures clock.sleeps - old(clock.sleeps) == empties - old(empties) && clock.now >= old(clock.now)
      ensures failures == old(failures) + Bit(why == PollFailed)
      ensures qp != Rtr && qp != Rts && old(cq) == [] ==> !ok && cq == [] && consumed == old(consumed)
      ensures old(consumed) <= consumed
      ensures ok ==> |consumed| > |old(consumed)| && Matches(consumed[|consumed| - 1], expected)
      ensures forall k :: |old(consumed)| <= k < |consumed| - 1 ==>
        consumed[k].success && !Matches(consumed[k], expected)
      ensures why == ErrorCompletion ==>
        |consumed| > |old(consumed)| && !consumed[|consumed| - 1].success
      ensures why == TimedOut ==> clock.now >= old(clock.now) + timeout
    {
      var start := clock.Read();
      var deadline := start + timeout;
      var budget: nat := arrivals;
      ok := false;
      why := TimedOut;
      var now := clock.Read();
      while now < deadline
        invariant Valid() && !ok && why == TimedOut && failures == old(failures)
        invariant clock.sleeps - old(clock.sleeps) == empties - old(empties)
        invariant qp != Rtr && qp != Rts && old(cq) == [] ==> cq == [] && consumed == old(consumed)
        invariant now == clock.now >= start >= old(clock.now) && deadline == start + timeout
        invariant old(consumed) <= consumed
        invariant forall k :: |old(consumed)| <= k < |consumed| ==>
          consumed[k].success && !Matches(consumed[k], expected)
        decreases deadline - now, budget + |cq|
      {
        budget := Receive(budget);
        var n, wc := PollCq();
        if n < 0 {
          return false, PollFailed;
        }
        if n == 0 {
          clock.Sleep();
        } else {
          consumed := consumed + [wc];
          if !wc.success {
            return false, ErrorCompletion;
          }
          if expected.None? || wc.opcode == expected.value {
            return true, Matched;
          }
        }
        now := clock.Read();
      }
    }
  }

  /** A new connection in INIT with an empty queue, or null exactly when a verb fails. */
  method CreateRcConnection(verbs: Verbs, cqSize: nat) returns (c: RcConnection?, ghost at: CreateEnd)
    modifies verbs`refusals
    ensures c != null <==> at == Created
    ensures verbs.refusals == old(verbs.refusals) + Bit(c == null)
    ensures c != null ==>
      fresh(c) && c.Valid() && c.qp == Init && c.cq == [] && c.cqe == cqSize && c.issued == AskedByCreate(at)
  {
    var haveCq := verbs.Create();
    if !haveCq {
      return null, NoCq;
    }
    var haveQp := verbs.Create();
    if !haveQp {
      return null, NoQp;
    }
    var conn := new RcConnection(cqSize);
    var ok := conn.TransitionToInit();
    if !ok {
      verbs.RefuseFor(conn);
      return null, FreshInitFailed;
    }
    return conn, Created;
  }
}
