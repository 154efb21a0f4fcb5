/** The registered buffers, by address, as one thread runs the map's methods. */
module Buffers {
  import opened Basics
  import opened Addressing

  const MAX_ENTRIES: nat := 256

  /** A registration in a shared_ptr: `refs` is its use count. */
  class BufEntry {
    const reg: Registration
    var refs: nat
    /** Set when a staging copy may still use the staging buffer when this is destroyed. */
    var leakHostBuf: bool

    constructor (r: Registration)
      ensures reg == r && refs == 1 && !leakHostBuf
    {
      reg, refs, leakHostBuf := r, 1, false;
    }
  }

  datatype RegisterResult = Registered | AlreadyRegistered | Failed
  datatype DeregisterResult = Deregistered | NotRegistered | Busy

  /** Why an entry cannot be inserted at `key`. */
  function Refusal(keys: set<uint64>, key: uint64): Option<RegisterResult> {
    if key in keys then Some(AlreadyRegistered)
    else if |keys| >= MAX_ENTRIES then Some(Failed)
    else None
  }

  /** What the NIC and the HIP runtime answer: whether a dma-buf of the memory, or the memory itself,
      can be registered, the address of a staging buffer or 0, and whether that can be registered. */
  datatype NicAnswers = NicAnswers(dmabuf: bool, plain: bool, host: uint64, staging: bool)

  /** The registration that is made for the caller's memory, if any. */
  function Made(env: NicAnswers, strict: bool, isDevice: bool, ptr: uint64, size: uint64): Option<Registration> {
    if env.dmabuf || env.plain then Some(DirectRegistration(ptr, size, true))
    else if (strict && isDevice) || env.host == 0 || !env.staging then None
    else Some(StagedRegistration(env.host, size))
  }

  /** Every registration the public calls make is one that token building may rely on. Memory is staged
      only when the NIC reaches it in no other way, and never when direct access is required of it; a
      transfer synchronizes with the device exactly when it is not staged. */
  lemma MadeIsFromApi(env: NicAnswers, strict: bool, isDevice: bool, ptr: uint64, size: uint64)
    requires CheckRegistrationArgs(ptr, size) == Success && HostFits(env, size)
    ensures var made := Made(env, strict, isDevice, ptr, size);
      && (made.Some? ==> FromApi(made.value, ptr) && made.value.size == size)
      && (made.Some? ==> (made.value.isDmabuf <==> made.value.hostBuf == 0))
      && (made.Some? && made.value.hostBuf != 0 ==> !env.dmabuf && !env.plain && !(strict && isDevice))
      && (made.Some? <==> env.dmabuf || env.plain || (env.host != 0 && env.staging && !(strict && isDevice)))
    ensures FromApi(DirectRegistration(ptr, size, false), ptr)
  {
  }

  /** A host allocation does not wrap around the address space. */
  predicate HostFits(env: NicAnswers, size: uint64) { env.host + size <= TWO_64 }

  /** registrationError() */
  function RegistrationError(r: RegisterResult): ApiError {
    match r
    case Registered => Success
    case AlreadyRegistered => BufAlreadyRegistered
    case Failed => RdmaError
  }

  class BufferMap {
    var entries: map<uint64, BufEntry>
    const requireGpuDirect: bool

    /** Every entry came from one of the public calls, so every token minted for it is inside its
        memory region. */
    ghost predicate Valid()
      reads this, entries.Values
    {
      Structured() && forall k :: k in entries ==> FromApi(entries[k].reg, k)
    }

    ghost predicate Structured()
      reads this, entries.Values
    {
      && |entries.Keys| <= MAX_ENTRIES
      && (forall k :: k in entries ==> entries[k].refs >= 1)
      && (forall j, k :: j in entries && k in entries && entries[j] == entries[k] ==> j == k)
    }

    constructor (strict: bool)
      ensures Valid() && entries == map[] && requireGpuDirect == strict
    {
      entries, requireGpuDirect := map[], strict;
    }

    /** insert() checks again, since another thread may have registered the key since precheck(). */
    method Insert(key: uint64, entry: BufEntry) returns (r: RegisterResult)
      requires Structured() && entry.refs >= 1 && forall k :: k in entries ==> entries[k] != entry
      modifies this`entries
      ensures Structured() && (old(Valid()) && FromApi(entry.reg, key) ==> Valid())
      ensures r == AlreadyRegistered <==> key in old(entries)
      ensures r == Registered <==> key !in old(entries) && |old(entries).Keys| < 256
      ensures r == Failed <==> key !in old(entries) && |old(entries).Keys| >= 256
      ensures entries == if r == Registered then old(entries)[key := entry] else old(entries)
    {
      var refused := Refusal(entries.Keys, key);
      if refused.Some? {
        return refused.value;
      }
      assert (entries[key := entry]).Keys == entries.Keys + {key};
      entries := entries[key := entry];
      return Registered;
    }

    /** Registers [ptr, ptr + size) with the NIC directly, or through a staging buffer when the NIC
        cannot reach it, unless that is forbidden for device memory. */
    method RegisterBuffer(ptr: uint64, size: uint64, isDevice: bool, env: NicAnswers) returns (r: RegisterResult)
      requires Structured()
      modifies this`entries
      ensures Structured()
      ensures old(Valid()) && CheckRegistrationArgs(ptr, size) == Success && HostFits(env, size) ==> Valid()
      ensures r == AlreadyRegistered <==> size <= MAX_MR_SIZE && ptr in old(entries)
      ensures r == Registered <==>
        && size <= MAX_MR_SIZE && ptr !in old(entries) && |old(entries).Keys| < 256
        && (env.dmabuf || env.plain || (env.host != 0 && env.staging && !(requireGpuDirect && isDevice)))
      ensures r == Registered ==>
        && ptr in entries && entries == old(entries)[ptr := entries[ptr]]
        && fresh(entries[ptr]) && entries[ptr].refs == 1
        && Made(env, requireGpuDirect, isDevice, ptr, size) == Some(entries[ptr].reg)
      ensures r != Registered ==> entries == old(entries)
    {
      if size > MAX_MR_SIZE {
        return Failed;
      }
      var refused := Refusal(entries.Keys, ptr);
      if refused.Some? {
        return refused.value;
      }
      if env.dmabuf || env.plain {
        var entry := new BufEntry(DirectRegistration(ptr, size, true));
        r := Insert(ptr, entry);
        return;
      }
      if isDevice && requireGpuDirect {
        return Failed;
      }
      if env.host == 0 {
        return Failed;
      }
      if !env.staging {
        return Failed;
      }
      var entry := new BufEntry(StagedRegistration(env.host, size));
      r := Insert(ptr, entry);
    }

    /** Registers host memory; never staged. */
    method RegisterHostBuffer(ptr: uint64, size: uint64, env: NicAnswers) returns (r: RegisterResult)
      requires Structured()
      modifies this`entries
      ensures Structured()
      ensures old(Valid()) && CheckRegistrationArgs(ptr, size) == Success ==> Valid()
      ensures r == AlreadyRegistered <==> size <= MAX_MR_SIZE && ptr in old(entries)
      ensures r == Registered <==>
        size <= MAX_MR_SIZE && ptr !in old(entries) && |old(entries).Keys| < 256 && env.plain
      ensures r == Registered ==>
        && ptr in entries && entries == old(entries)[ptr := entries[ptr]]
        && fresh(entries[ptr]) && entries[ptr].refs == 1
        && entries[ptr].reg == DirectRegistration(ptr, size, false)
      ensures r != Registered ==> entries == old(entries)
    {
      if size > MAX_MR_SIZE {
        return Failed;
      }
      var refused := Refusal(entries.Keys, ptr);
      if refused.Some? {
        return refused.value;
      }
      if !env.plain {
        return Failed;
      }
      var entry := new BufEntry(DirectRegistration(ptr, size, false));
      r := Insert(ptr, entry);
    }

    /** hipObjBufRegister(): the argument checks, the check against the HIP allocation, and then the
        map. Whatever it registers, tokens for it are inside its memory region, and inside its
        allocation when the NIC reaches device memory directly. */
    method HipObjBufRegister(ptr: uint64, size: uint64, info: PointerInfo, env: NicAnswers) returns (r: ApiError)
      requires Valid() && HostFits(env, size)
      modifies this`entries
      ensures Valid()
      ensures CheckRegistrationArgs(ptr, size) != Success ==>
        r == CheckRegistrationArgs(ptr, size) && entries == old(entries)
      ensures CheckRegistrationArgs(ptr, size) == Success && !IsValidDeviceRange(info, ptr, size) ==>
        r == InvalidValue && entries == old(entries)
      ensures CheckRegistrationArgs(ptr, size) == Success && IsValidDeviceRange(info, ptr, size) ==>
        && (r == BufAlreadyRegistered <==> ptr in old(entries))
        && (r == Success <==>
              && ptr !in old(entries) && |old(entries).Keys| < 256
              && (env.dmabuf || env.plain
                  || (env.host != 0 && env.staging && !(requireGpuDirect && info != NotDevice))))
        && (r == Success || r == BufAlreadyRegistered || r == RdmaError)
      ensures r == Success ==>
        && ptr in entries && entries == old(entries)[ptr := entries[ptr]]
        && Made(env, requireGpuDirect, info != NotDevice, ptr, size) == Some(entries[ptr].reg)
        && (entries[ptr].reg.hostBuf == 0 && info.Device? ==>
              forall n: uint64, offset: off_t ::
                TokenInAllocation(entries[ptr].reg, ptr, info.base, info.allocSize, n, offset))
      ensures r != Success ==> entries == old(entries)
    {
      r := CheckRegistrationArgs(ptr, size);
      if r != Success {
        return;
      }
      if !IsValidDeviceRange(info, ptr, size) {
        return InvalidValue;
      }
      var result := RegisterBuffer(ptr, size, info != NotDevice, env);
      MadeIsFromApi(env, requireGpuDirect, info != NotDevice, ptr, size);
      if result == Registered && entries[ptr].reg.hostBuf == 0 && info.Device? {
        TokensStayInAllocationIff(entries[ptr].reg, ptr, info);
      }
      return RegistrationError(result);
    }

    /** hipObjBufRegisterHost(): the argument checks and then the map, with no look at the allocation. */
    method HipObjBufRegisterHost(ptr: uint64, size: uint64, env: NicAnswers) returns (r: ApiError)
      requires Valid()
      modifies this`entries
      ensures Valid()
      ensures CheckRegistrationArgs(ptr, size) != Success ==>
        r == CheckRegistrationArgs(ptr, size) && entries == old(entries)
      ensures CheckRegistrationArgs(ptr, size) == Success ==>
        && (r == BufAlreadyRegistered <==> ptr in old(entries))
        && (r == Success <==> ptr !in old(entries) && |old(entries).Keys| < 256 && env.plain)
        && (r == Success || r == BufAlreadyRegistered || r == RdmaError)
      ensures r == Success ==>
        && ptr in entries && entries == old(entries)[ptr := entries[ptr]]
        && entries[ptr].reg == DirectRegistration(ptr, size, false)
      ensures r != Success ==> entries == old(entries)
    {
      r := CheckRegistrationArgs(ptr, size);
      if r != Success {
        return;
      }
      var result := RegisterHostBuffer(ptr, size, env);
      return RegistrationError(result);
    }

    /** Every token minted for a buffer that the map holds is inside the NIC's memory region. */
    method TokenFor(ptr: uint64, size: uint64, offset: off_t) returns (token: Option<TokenRange>)
      requires Valid()
      ensures token.Some? <==> ptr in entries && 0 < size && 0 <= offset && offset + size <= entries[ptr].reg.size
      ensures token.Some? ==>
        var reg := entries[ptr].reg;
        && token.value.length == size && token.value.remoteAddr == reg.remoteAddr + offset
        && reg.mrBase <= token.value.remoteAddr && token.value.remoteAddr + size <= reg.mrBase + reg.mrSize <= TWO_64
    {
      if ptr !in entries {
        return None;
      }
      var reg := entries[ptr].reg;
      MintedTokenIsInside(reg, ptr, size, offset);
      if CheckBufferArgs(ptr, Some(reg), size, offset) != Success {
        return None;
      }
      return BuildToken(reg, size, offset);
    }

    /** Removes the entry unless something else holds it. The caller then holds the last reference. */
    method DeregisterBuffer(ptr: uint64) returns (r: DeregisterResult)
      requires Valid()
      modifies this`entries, if ptr in entries then {entries[ptr]} else {}
      ensures Valid()
      ensures r == NotRegistered <==> ptr !in old(entries)
      ensures r == Busy <==> ptr in old(entries) && old(entries[ptr].refs) > 1
      ensures r == Deregistered ==> entries == old(entries) - {ptr} && old(entries)[ptr].refs == 0
      ensures r != Deregistered ==>
        entries == old(entries) && (ptr in entries ==> entries[ptr].refs == old(entries[ptr].refs))
    {
      if ptr !in entries {
        return NotRegistered;
      }
      if entries[ptr].refs > 1 {
        return Busy;
      }
      var entry := entries[ptr];
      assert (entries - {ptr}).Keys <= entries.Keys;
      assert |(entries - {ptr}).Keys| <= |entries.Keys| by {
        assert (entries - {ptr}).Keys == entries.Keys - {ptr};
      }
      entries := entries - {ptr};
      entry.refs := entry.refs - 1;
      return Deregistered;
    }

    /** A copy of the map's reference, or null. */
    method Find(ptr: uint64) returns (e: BufEntry?)
      requires Valid()
      modifies if ptr in entries then {entries[ptr]} else {}
      ensures Valid()
      ensures ptr !in entries <==> e == null
      ensures e != null ==> e == entries[ptr] && e.refs == old(e.refs) + 1 && e.leakHostBuf == old(e.leakHostBuf)
    {
      if ptr !in entries {
        return null;
      }
      e := entries[ptr];
      e.refs := e.refs + 1;
    }
  }
}
