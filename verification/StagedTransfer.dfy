/** What a transfer does to memory. A server reaches only the range its token names; a staged
    registration names a host buffer, and the library copies between it and device memory. */
module StagedTransfer {
  import opened Basics
  import opened Addressing

  /** The byte at each address. */
  type Memory = nat -> byte

  function Read(mem: Memory, a: nat, n: nat): seq<byte> {
    seq(n, i requires 0 <= i => mem(a + i))
  }

  /** The server writes the bytes `w` gives, by their place in a range of `n` bytes at `a`. */
  function ServerWrites(mem: Memory, a: nat, n: nat, w: map<nat, byte>): Memory {
    (x: nat) => if a <= x < a + n && x - a in w then w[x - a] else mem(x)
  }

  /** Copies `n` bytes at `src` to `dst`. */
  function CopyTo(mem: Memory, dst: nat, src: nat, n: nat): Memory {
    (x: nat) => if dst <= x < dst + n then mem(x - dst + src) else mem(x)
  }

  // ----- Registered buffers -----

  /** A buffer the application registered at `ptr`, with its registration. */
  datatype Buffer = Buffer(ptr: uint64, reg: Registration)

  predicate Staged(b: Buffer) { b.reg.hostBuf != 0 }

  /** The registration came from the public calls, and a staging buffer is a separate allocation. */
  predicate BufferOk(b: Buffer) {
    && FromApi(b.reg, b.ptr)
    && (Staged(b) ==> b.reg.hostBuf + b.reg.size <= b.ptr || b.ptr + b.reg.size <= b.reg.hostBuf)
  }

  predicate ArgsOk(b: Buffer, size: uint64, offset: off_t) {
    CheckBufferArgs(b.ptr, Some(b.reg), size, offset) == Success
  }

  /** The same buffer as if the NIC reached it directly. */
  function Directly(b: Buffer): Buffer {
    b.(reg := DirectRegistration(b.ptr, b.reg.size, true))
  }

  /** stageToHost(): device memory to the staging buffer. */
  function StageToHost(mem: Memory, b: Buffer, size: uint64, offset: off_t): Memory
    requires ArgsOk(b, size, offset)
  {
    if !Staged(b) then mem else CopyTo(mem, b.reg.hostBuf + offset, b.ptr + offset, size)
  }

  /** stageToDevice(): the staging buffer to device memory. */
  function StageToDevice(mem: Memory, b: Buffer, size: uint64, offset: off_t): Memory
    requires ArgsOk(b, size, offset)
  {
    if !Staged(b) then mem else CopyTo(mem, b.ptr + offset, b.reg.hostBuf + offset, size)
  }

  /** The address the call's token advertises. */
  function Advertised(b: Buffer, size: uint64, offset: off_t): (a: uint64)
    requires BufferOk(b) && ArgsOk(b, size, offset)
    ensures a == b.reg.remoteAddr + offset
  {
    MintedTokenIsInside(b.reg, b.ptr, size, offset);
    BuildToken(b.reg, size, offset).value.remoteAddr
  }

  /** The bytes the server reads in a PUT: staging first, then the transfer. */
  function PutShows(mem: Memory, b: Buffer, size: uint64, offset: off_t): seq<byte>
    requires BufferOk(b) && ArgsOk(b, size, offset)
  {
    Read(StageToHost(mem, b, size, offset), Advertised(b, size, offset), size)
  }

  /** Memory after a GET in which the server wrote `w`: the transfer first, then staging. */
  function GetLeaves(mem: Memory, b: Buffer, size: uint64, offset: off_t, w: map<nat, byte>): Memory
    requires BufferOk(b) && ArgsOk(b, size, offset)
  {
    StageToDevice(ServerWrites(mem, Advertised(b, size, offset), size, w), b, size, offset)
  }

  predicate InRange(b: Buffer, size: uint64, offset: off_t, x: nat) {
    b.ptr + offset <= x < b.ptr + offset + size
  }

  /** Whether `x` is in the part of the staging buffer that the call uses. */
  predicate InStaging(b: Buffer, size: uint64, offset: off_t, x: nat) {
    Staged(b) && b.reg.hostBuf + offset <= x < b.reg.hostBuf + offset + size
  }

  /** A PUT shows the server the caller's bytes, staged or not, so staging is transparent to it. */
  lemma StagedPutIsTransparent(mem: Memory, b: Buffer, size: uint64, offset: off_t)
    requires BufferOk(b) && ArgsOk(b, size, offset)
    ensures PutShows(mem, b, size, offset) == Read(mem, b.ptr + offset, size)
    ensures BufferOk(Directly(b)) && ArgsOk(Directly(b), size, offset)
    ensures PutShows(mem, b, size, offset) == PutShows(mem, Directly(b), size, offset)
    ensures forall x :: !InStaging(b, size, offset, x) ==> StageToHost(mem, b, size, offset)(x) == mem(x)
  {
  }

  predicate WritesAll(w: map<nat, byte>, size: nat) {
    forall j :: 0 <= j < size ==> j in w
  }

  /** What a GET leaves at an address outside the staging buffer: only the requested range changes,
      and a staged GET copies every byte of the staging range, whether the server wrote it or not. */
  lemma GetEffect(mem: Memory, b: Buffer, size: uint64, offset: off_t, w: map<nat, byte>, x: nat)
    requires BufferOk(b) && ArgsOk(b, size, offset) && !InStaging(b, size, offset, x)
    ensures GetLeaves(mem, b, size, offset, w)(x) ==
      if !InRange(b, size, offset, x) then mem(x)
      else if x - (b.ptr + offset) in w then w[x - (b.ptr + offset)]
      else if Staged(b) then mem(x - b.ptr + b.reg.hostBuf)
      else mem(x)
  {
    var a := Advertised(b, size, offset);
    if Staged(b) && InRange(b, size, offset, x) {
      assert x - (b.ptr + offset) + (b.reg.hostBuf + offset) == x - b.ptr + b.reg.hostBuf;
    }
  }

  /** A staged GET leaves the application's memory, which is everything but the staging range,
      exactly as a direct one would. */
  ghost predicate GetIsTransparent(mem: Memory, b: Buffer, size: uint64, offset: off_t, w: map<nat, byte>)
    requires BufferOk(b) && ArgsOk(b, size, offset)
    requires BufferOk(Directly(b)) && ArgsOk(Directly(b), size, offset)
  {
    forall x :: !InStaging(b, size, offset, x) ==>
      GetLeaves(mem, b, size, offset, w)(x) == GetLeaves(mem, Directly(b), size, offset, w)(x)
  }

  /** The staging buffer already holds what device memory does wherever the server did not write. */
  predicate StagingAgrees(mem: Memory, b: Buffer, size: uint64, offset: off_t, w: map<nat, byte>)
    requires ArgsOk(b, size, offset)
  {
    forall j: nat :: j < size && j !in w ==> AgreesAt(mem, b, offset, j)
  }

  /** Byte j of the range is the same in the staging buffer and in device memory. */
  predicate AgreesAt(mem: Memory, b: Buffer, offset: off_t, j: nat) {
    offset >= 0 ==> mem(b.reg.hostBuf + offset + j) == mem(b.ptr + offset + j)
  }

  lemma TransparentThenAgrees(mem: Memory, b: Buffer, size: uint64, offset: off_t, w: map<nat, byte>)
    requires BufferOk(b) && ArgsOk(b, size, offset) && Staged(b)
    requires BufferOk(Directly(b)) && ArgsOk(Directly(b), size, offset)
    requires GetIsTransparent(mem, b, size, offset, w)
    ensures StagingAgrees(mem, b, size, offset, w)
  {
    forall j: nat | j < size && j !in w
      ensures AgreesAt(mem, b, offset, j)
    {
      var x := b.ptr + offset + j;
      GetEffect(mem, b, size, offset, w, x);
      GetEffect(mem, Directly(b), size, offset, w, x);
      assert x - b.ptr + b.reg.hostBuf == b.reg.hostBuf + offset + j;
    }
  }

  lemma AgreeAt(mem: Memory, b: Buffer, size: uint64, offset: off_t, w: map<nat, byte>, x: nat)
    requires BufferOk(b) && ArgsOk(b, size, offset) && Staged(b) && !InStaging(b, size, offset, x)
    requires BufferOk(Directly(b)) && ArgsOk(Directly(b), size, offset)
    requires InRange(b, size, offset, x) && x - (b.ptr + offset) !in w ==> mem(x - b.ptr + b.reg.hostBuf) == mem(x)
    ensures GetLeaves(mem, b, size, offset, w)(x) == GetLeaves(mem, Directly(b), size, offset, w)(x)
  {
    GetEffect(mem, b, size, offset, w, x);
    GetEffect(mem, Directly(b), size, offset, w, x);
  }

  lemma AgreesThenTransparent(mem: Memory, b: Buffer, size: uint64, offset: off_t, w: map<nat, byte>)
    requires BufferOk(b) && ArgsOk(b, size, offset) && Staged(b)
    requires BufferOk(Directly(b)) && ArgsOk(Directly(b), size, offset)
    requires StagingAgrees(mem, b, size, offset, w)
    ensures GetIsTransparent(mem, b, size, offset, w)
  {
    forall x: nat | !InStaging(b, size, offset, x)
      ensures GetLeaves(mem, b, size, offset, w)(x) == GetLeaves(mem, Directly(b), size, offset, w)(x)
    {
      if InRange(b, size, offset, x) && x - (b.ptr + offset) !in w {
        StaleByte(mem, b, size, offset, w, x - (b.ptr + offset));
      }
      AgreeAt(mem, b, size, offset, w, x);
    }
  }

  lemma StaleByte(mem: Memory, b: Buffer, size: uint64, offset: off_t, w: map<nat, byte>, j: nat)
    requires ArgsOk(b, size, offset) && StagingAgrees(mem, b, size, offset, w) && j < size && j !in w
    ensures var x: nat := b.ptr + offset + j; mem(x - b.ptr + b.reg.hostBuf) == mem(x)
  {
    assert AgreesAt(mem, b, offset, j);
    assert b.reg.hostBuf + offset + j == (b.ptr + offset + j) - b.ptr + b.reg.hostBuf;
  }

  /** Staging is transparent to a GET exactly when the staging buffer agrees with device memory on
      the bytes the server left out. */
  lemma StagedGetTransparentIff(mem: Memory, b: Buffer, size: uint64, offset: off_t, w: map<nat, byte>)
    requires BufferOk(b) && ArgsOk(b, size, offset) && Staged(b)
    ensures BufferOk(Directly(b)) && ArgsOk(Directly(b), size, offset)
    ensures GetIsTransparent(mem, b, size, offset, w) <==> StagingAgrees(mem, b, size, offset, w)
  {
    if GetIsTransparent(mem, b, size, offset, w) {
      TransparentThenAgrees(mem, b, size, offset, w);
    }
    if StagingAgrees(mem, b, size, offset, w) {
      AgreesThenTransparent(mem, b, size, offset, w);
    }
  }

  /** What a caller can check before the call: a staged GET is transparent whatever the server writes
      exactly when the staging range and device memory agree beforehand. */
  lemma TransparentForAnyServerIff(mem: Memory, b: Buffer, size: uint64, offset: off_t)
    requires BufferOk(b) && ArgsOk(b, size, offset) && Staged(b)
    ensures BufferOk(Directly(b)) && ArgsOk(Directly(b), size, offset)
    ensures (forall w: map<nat, byte> :: GetIsTransparent(mem, b, size, offset, w)) <==>
      StagingAgrees(mem, b, size, offset, map[])
  {
    if StagingAgrees(mem, b, size, offset, map[]) {
      forall w: map<nat, byte>
        ensures GetIsTransparent(mem, b, size, offset, w)
      {
        FewerBytesToAgree(mem, b, size, offset, w);
        AgreesThenTransparent(mem, b, size, offset, w);
      }
    } else {
      StagedGetTransparentIff(mem, b, size, offset, map[]);
      assert !GetIsTransparent(mem, b, size, offset, map[]);
    }
  }

  lemma FewerBytesToAgree(mem: Memory, b: Buffer, size: uint64, offset: off_t, w: map<nat, byte>)
    requires ArgsOk(b, size, offset) && StagingAgrees(mem, b, size, offset, map[])
    ensures StagingAgrees(mem, b, size, offset, w)
  {
    var none: map<nat, byte> := map[];
    forall j: nat | j < size && j !in w
      ensures AgreesAt(mem, b, offset, j)
    {
      assert j !in none;
    }
  }

  /** hipObjBufSync() in either direction makes them agree, so a GET right after it is transparent
      whatever the server writes. */
  lemma SyncMakesGetTransparent(mem: Memory, b: Buffer, size: uint64, offset: off_t, toHost: bool)
    requires BufferOk(b) && ArgsOk(b, size, offset) && Staged(b)
    ensures BufferOk(Directly(b)) && ArgsOk(Directly(b), size, offset)
    ensures var synced := if toHost then StageToHost(mem, b, size, offset) else StageToDevice(mem, b, size, offset);
      forall w: map<nat, byte> :: GetIsTransparent(synced, b, size, offset, w)
  {
    var synced := if toHost then StageToHost(mem, b, size, offset) else StageToDevice(mem, b, size, offset);
    SyncAgrees(mem, b, size, offset, toHost);
    TransparentForAnyServerIff(synced, b, size, offset);
  }

  lemma SyncAgrees(mem: Memory, b: Buffer, size: uint64, offset: off_t, toHost: bool)
    requires BufferOk(b) && ArgsOk(b, size, offset) && Staged(b)
    ensures var synced := if toHost then StageToHost(mem, b, size, offset) else StageToDevice(mem, b, size, offset);
      StagingAgrees(synced, b, size, offset, map[])
  {
    var synced := if toHost then StageToHost(mem, b, size, offset) else StageToDevice(mem, b, size, offset);
    forall j: nat | j < size
      ensures AgreesAt(synced, b, offset, j)
    {
      var host, dev := b.reg.hostBuf + offset, b.ptr + offset;
      assert (host + j) - host + dev == dev + j && (dev + j) - dev + host == host + j;
    }
  }

  /** A GET in which the server writes the whole advertised range is transparent. */
  lemma FullStagedGetIsTransparent(mem: Memory, b: Buffer, size: uint64, offset: off_t, w: map<nat, byte>)
    requires BufferOk(b) && ArgsOk(b, size, offset) && Staged(b) && WritesAll(w, size)
    ensures BufferOk(Directly(b)) && ArgsOk(Directly(b), size, offset)
    ensures GetIsTransparent(mem, b, size, offset, w)
  {
    StagedGetTransparentIff(mem, b, size, offset, w);
  }

  /** A server that writes less than it was asked for is not: a stale staging byte lands in device
      memory. */
  lemma ShortStagedGetIsNot() returns (mem: Memory, b: Buffer, w: map<nat, byte>)
    ensures BufferOk(b) && ArgsOk(b, 1, 0) && Staged(b)
    ensures BufferOk(Directly(b)) && ArgsOk(Directly(b), 1, 0)
    ensures !GetIsTransparent(mem, b, 1, 0, w)
  {
    mem, w := (x: nat) => if x == 16 then 1 else 2, map[];
    b := Buffer(16, StagedRegistration(32, 1));
    StagedGetTransparentIff(mem, b, 1, 0, w);
    var j: nat := 0;
    assert j !in w && !AgreesAt(mem, b, 0, j);
    assert !StagingAgrees(mem, b, 1, 0, w);
  }

  // ----- Whole calls -----

  type Failure = e: ApiError | e != Success witness InvalidValue

  /** How the transfer and the staging copy of a call went. A copy that timed out may land later. */
  datatype TransferEnd = TransferOk | TransferFailed(error: Failure)
  datatype CopyEnd = CopyOk | CopyFailed(landed: bool)

  /** hipObjGet() once it has found the buffer. `busy`: an abandoned copy of it is running. */
  function HipObjGet(mem: Memory, b: Buffer, size: uint64, offset: off_t, busy: bool, w: map<nat, byte>,
                     transfer: TransferEnd, copy: CopyEnd): (ApiError, Memory)
    requires BufferOk(b)
  {
    var err := CheckBufferArgs(b.ptr, Some(b.reg), size, offset);
    if err != Success then (err, mem)
    else if Staged(b) && busy then (BusyError, mem)
    else
      var written := ServerWrites(mem, Advertised(b, size, offset), size, w);
      if transfer.TransferFailed? then (transfer.error, written)
      else if !Staged(b) then (Success, written)
      else if copy == CopyOk then (Success, StageToDevice(written, b, size, offset))
      else (InternalError, if copy.landed then StageToDevice(written, b, size, offset) else written)
  }

  /** hipObjPut(): what the call answers, and what the server was shown if it ran that far. */
  function HipObjPut(mem: Memory, b: Buffer, size: uint64, offset: off_t, busy: bool,
                     transfer: TransferEnd, copy: CopyEnd): (ApiError, Option<seq<byte>>)
    requires BufferOk(b)
  {
    var err := CheckBufferArgs(b.ptr, Some(b.reg), size, offset);
    if err != Success then (err, None)
    else if Staged(b) && busy then (BusyError, None)
    else if Staged(b) && copy.CopyFailed? then (InternalError, None)
    else
      var shown := PutShows(mem, b, size, offset);
      (if transfer.TransferFailed? then transfer.error else Success, Some(shown))
  }

  datatype Direction = SyncToHost | SyncToDevice | NoDirection

  /** hipObjBufSync() once it has found the buffer. */
  function HipObjBufSync(mem: Memory, b: Buffer, size: uint64, offset: off_t, direction: Direction, busy: bool,
                         copy: CopyEnd): (ApiError, Memory)
    requires BufferOk(b)
  {
    var err := CheckBufferArgs(b.ptr, Some(b.reg), size, offset);
    if direction == NoDirection then (InvalidValue, mem)
    else if err != Success then (err, mem)
    else if Staged(b) && busy then (BusyError, mem)
    else
      var synced: Memory :=
        if direction == SyncToDevice then StageToDevice(mem, b, size, offset) else StageToHost(mem, b, size, offset);
      if !Staged(b) || copy == CopyOk then (Success, synced)
      else (InternalError, if copy.landed then synced else mem)
  }

  /** What a sync answers and does: it succeeds exactly when nothing goes wrong, and then the staging buffer
      agrees with device memory, by changing only the side it was asked to change. */
  lemma SyncAnswers(mem: Memory, b: Buffer, size: uint64, offset: off_t, direction: Direction, busy: bool,
                    copy: CopyEnd, x: nat)
    requires BufferOk(b)
    ensures var ok, (r, after) := ArgsOk(b, size, offset), HipObjBufSync(mem, b, size, offset, direction, busy, copy);
      && (r == Success <==> direction != NoDirection && ok && (Staged(b) ==> !busy && copy == CopyOk))
      && (direction == NoDirection || !ok ==> r == InvalidValue && after(x) == mem(x))
      && (direction != NoDirection && ok && Staged(b) && busy ==> r == BusyError && after(x) == mem(x))
      && (direction != NoDirection && ok && Staged(b) && !busy && copy != CopyOk ==> r == InternalError)
      && (direction != SyncToDevice && !InStaging(b, size, offset, x) ==> after(x) == mem(x))
      && (direction != SyncToHost && !InRange(b, size, offset, x) ==> after(x) == mem(x))
      && (r == Success && Staged(b) && ok ==> StagingAgrees(after, b, size, offset, map[]))
  {
    if ArgsOk(b, size, offset) && Staged(b) {
      SyncAgrees(mem, b, size, offset, true);
      SyncAgrees(mem, b, size, offset, false);
    }
  }

  /** What a GET answers: the first thing that goes wrong, in the order arguments, abandoned copy, transfer
      and staging copy, and success exactly when nothing does. */
  lemma GetAnswers(mem: Memory, b: Buffer, size: uint64, offset: off_t, busy: bool, w: map<nat, byte>,
                   transfer: TransferEnd, copy: CopyEnd)
    requires BufferOk(b)
    ensures var ok, r := ArgsOk(b, size, offset), HipObjGet(mem, b, size, offset, busy, w, transfer, copy).0;
      && (r == Success <==> ok && transfer == TransferOk && (Staged(b) ==> !busy && copy == CopyOk))
      && (!ok ==> r == InvalidValue)
      && (ok && Staged(b) && busy ==> r == BusyError)
      && (ok && !(Staged(b) && busy) && transfer.TransferFailed? ==> r == transfer.error)
      && (ok && Staged(b) && !busy && transfer == TransferOk && copy != CopyOk ==> r == InternalError)
  {
  }

  /** What a PUT answers: the first thing that goes wrong, in the order arguments, abandoned copy, staging
      copy and transfer, and success exactly when nothing does. */
  lemma PutAnswers(mem: Memory, b: Buffer, size: uint64, offset: off_t, busy: bool, transfer: TransferEnd,
                   copy: CopyEnd)
    requires BufferOk(b)
    ensures var ok, r := ArgsOk(b, size, offset), HipObjPut(mem, b, size, offset, busy, transfer, copy).0;
      && (r == Success <==> ok && transfer == TransferOk && (Staged(b) ==> !busy && copy == CopyOk))
      && (!ok ==> r == InvalidValue)
      && (ok && Staged(b) && busy ==> r == BusyError)
      && (ok && Staged(b) && !busy && copy != CopyOk ==> r == InternalError)
      && (ok && (Staged(b) ==> !busy && copy == CopyOk) && transfer.TransferFailed? ==> r == transfer.error)
  {
  }

  /** A PUT never shows the server anything but the caller's bytes, whatever fails. */
  lemma PutShowsOnlyTheRange(mem: Memory, b: Buffer, size: uint64, offset: off_t, busy: bool,
                             transfer: TransferEnd, copy: CopyEnd)
    requires BufferOk(b)
    ensures var shown := HipObjPut(mem, b, size, offset, busy, transfer, copy).1;
      && (shown.Some? <==> ArgsOk(b, size, offset) && (Staged(b) ==> !busy && copy == CopyOk))
      && (shown.Some? ==> ArgsOk(b, size, offset) && shown.value == Read(mem, b.ptr + offset, size))
  {
    if ArgsOk(b, size, offset) {
      StagedPutIsTransparent(mem, b, size, offset);
    }
  }

  /** Whatever fails, a GET changes nothing outside the requested range and the staging buffer; a
      staged GET that meets an abandoned copy, or whose transfer fails, leaves device memory alone; and a
      GET that succeeds after the server wrote the whole range leaves exactly the server's bytes in it. */
  lemma GetTouchesOnlyTheRange(mem: Memory, b: Buffer, size: uint64, offset: off_t, busy: bool, w: map<nat, byte>,
                               transfer: TransferEnd, copy: CopyEnd, x: nat)
    requires BufferOk(b) && !InStaging(b, size, offset, x)
    ensures var after := HipObjGet(mem, b, size, offset, busy, w, transfer, copy).1;
      && (!ArgsOk(b, size, offset) || !InRange(b, size, offset, x) ==> after(x) == mem(x))
      && (Staged(b) && (busy || transfer.TransferFailed?) ==> after(x) == mem(x))
      && (HipObjGet(mem, b, size, offset, busy, w, transfer, copy).0 == Success && WritesAll(w, size) ==>
            InRange(b, size, offset, x) ==> x - (b.ptr + offset) in w && after(x) == w[x - (b.ptr + offset)])
  {
    if ArgsOk(b, size, offset) {
      GetEffect(mem, b, size, offset, w, x);
    }
  }
}
