/** The 64-bit address arithmetic on the way from a registration to a token: argument checks,
    range checks, and the address a token advertises. Additions that the code does in uint64_t
    are written with their wrap-around; the results below say when none happens. */
module Addressing {
  import opened Basics

  const MAX_MR_SIZE: int := 4 * 1024 * 1024 * 1024

  type off_t = x: int | -0x8000_0000_0000_0000 <= x < 0x8000_0000_0000_0000

  datatype ApiError =
    | Success | InvalidValue | NotInitialized | RdmaError | S3Error | BufNotRegistered
    | BufAlreadyRegistered | SizeTooLarge | InternalError | BusyError

  function AddWrap(a: uint64, b: uint64): uint64 { (a + b) % TWO_64 }

  /** Whether [offset, offset + size) lies inside a registration, for every 64-bit input. */
  predicate RangeInRegistration(offset: off_t, size: uint64, regSize: uint64)
    ensures RangeInRegistration(offset, size, regSize) <==> 0 <= offset && offset + size <= regSize
  {
    if offset < 0 || offset > regSize then false else size <= regSize - offset
  }

  /** Accepts exactly the nonempty ranges of allowed size whose end is representable. */
  function CheckRegistrationArgs(ptr: uint64, size: uint64): (r: ApiError)
    ensures r == Success <==> ptr != 0 && 0 < size <= 0x1_0000_0000 && ptr + size < TWO_64
    ensures r == SizeTooLarge <==> ptr != 0 && size > 0x1_0000_0000
    ensures r == Success || r == SizeTooLarge || r == InvalidValue
  {
    if ptr == 0 || size == 0 then InvalidValue
    else if size > MAX_MR_SIZE then SizeTooLarge
    else if size > (TWO_64 - 1) - ptr then InvalidValue
    else Success
  }

  /** What the HIP runtime reports about a pointer. */
  datatype PointerInfo = NotDevice | DeviceUnknown | Device(base: uint64, allocSize: uint64)

  /** Device memory passes exactly when it starts in its allocation and the whole range lies inside. */
  predicate IsValidDeviceRange(info: PointerInfo, ptr: uint64, size: uint64)
    ensures IsValidDeviceRange(info, ptr, size) <==>
      match info
      case NotDevice => true
      case DeviceUnknown => false
      case Device(base, allocSize) => base <= ptr < base + allocSize && ptr + size <= base + allocSize
  {
    match info
    case NotDevice => true
    case DeviceUnknown => false
    case Device(base, allocSize) =>
      if ptr < base || ptr - base >= allocSize then false else size <= allocSize - (ptr - base)
  }

  /** A registration: the NIC's memory region, the size checked against, the advertised address,
      and the staging buffer's address, or 0 when the NIC reaches the caller's memory. */
  datatype Registration = Registration(
    mrBase: uint64, mrSize: uint64, size: uint64, remoteAddr: uint64, hostBuf: uint64, isDmabuf: bool)

  /** The NIC reaches the caller's memory at `ptr`. */
  function DirectRegistration(ptr: uint64, size: uint64, isDmabuf: bool): Registration {
    Registration(ptr, size, size, ptr, 0, isDmabuf)
  }

  /** The NIC reaches a host staging buffer at `host` instead. */
  function StagedRegistration(host: uint64, size: uint64): Registration {
    Registration(host, size, size, host, host, false)
  }

  datatype TokenRange = TokenRange(remoteAddr: uint64, length: uint64)

  /** The range a token advertises, or nothing when the range is not in the registration. */
  function BuildToken(reg: Registration, size: uint64, offset: off_t): Option<TokenRange> {
    if !RangeInRegistration(offset, size, reg.size) then None
    else
      var start: uint64 := offset;
      Some(TokenRange(AddWrap(reg.remoteAddr, start), size))
  }

  /** Checks the arguments of a call that uses part of a registered buffer. */
  function CheckBufferArgs(ptr: uint64, reg: Option<Registration>, size: uint64, offset: off_t): (r: ApiError)
    ensures r == Success <==> ptr != 0 && size != 0 && reg.Some? && 0 <= offset && offset + size <= reg.value.size
    ensures r == BufNotRegistered <==> ptr != 0 && size != 0 && offset >= 0 && reg.None?
    ensures r == Success || r == BufNotRegistered || r == InvalidValue
  {
    if ptr == 0 || size == 0 || offset < 0 then InvalidValue
    else if reg.None? then BufNotRegistered
    else if !RangeInRegistration(offset, size, reg.value.size) then InvalidValue
    else Success
  }

  /** The registrations that the two public calls make: the arguments passed the checks, and a staging
      buffer is a host allocation, which does not wrap around the address space. */
  predicate FromApi(reg: Registration, ptr: uint64) {
    && CheckRegistrationArgs(ptr, reg.size) == Success
    && (|| reg == DirectRegistration(ptr, reg.size, reg.isDmabuf)
        || (reg.hostBuf != 0 && reg.hostBuf + reg.size <= TWO_64 && reg == StagedRegistration(reg.hostBuf, reg.size)))
  }

  /** Every token the library mints, which it does only after checkBufferArgs(), names a range inside
      the memory region registered with the NIC, and no addition on the way wraps. */
  lemma MintedTokenIsInside(reg: Registration, ptr: uint64, size: uint64, offset: off_t)
    requires FromApi(reg, ptr)
    ensures CheckBufferArgs(ptr, Some(reg), size, offset) == Success <==>
      0 < size && 0 <= offset && offset + size <= reg.size
    ensures CheckBufferArgs(ptr, Some(reg), size, offset) == Success ==>
      && BuildToken(reg, size, offset).Some?
      && var token := BuildToken(reg, size, offset).value;
      && token.length == size
      && token.remoteAddr == reg.remoteAddr + offset
      && reg.mrBase <= token.remoteAddr && token.remoteAddr + token.length <= reg.mrBase + reg.mrSize <= TWO_64
  {
    if CheckBufferArgs(ptr, Some(reg), size, offset) == Success {
      assert reg.remoteAddr + offset < TWO_64;
    }
  }

  /** The token for this part of the buffer, if there is one, stays inside the allocation. */
  predicate TokenInAllocation(reg: Registration, ptr: uint64, base: uint64, allocSize: uint64, size: uint64,
                              offset: off_t)
  {
    CheckBufferArgs(ptr, Some(reg), size, offset) == Success && BuildToken(reg, size, offset).Some? ==>
      var token := BuildToken(reg, size, offset).value;
      base <= token.remoteAddr && token.remoteAddr + token.length <= base + allocSize
  }

  /** Device memory that the NIC reaches directly: every token for it stays inside its HIP allocation
      exactly when the registered range passes isValidDeviceRange(). hipObjBufRegister() makes that
      check, and hipObjBufRegisterHost() does not. */
  lemma TokensStayInAllocationIff(reg: Registration, ptr: uint64, info: PointerInfo)
    requires FromApi(reg, ptr) && reg.hostBuf == 0 && info.Device?
    ensures (forall size: uint64, offset: off_t :: TokenInAllocation(reg, ptr, info.base, info.allocSize, size, offset))
      <==> IsValidDeviceRange(info, ptr, reg.size)
  {
    if IsValidDeviceRange(info, ptr, reg.size) {
      forall size: uint64, offset: off_t
        ensures TokenInAllocation(reg, ptr, info.base, info.allocSize, size, offset)
      {
        MintedTokenIsInside(reg, ptr, size, offset);
      }
    } else {
      MintedTokenIsInside(reg, ptr, reg.size, 0);
      assert !TokenInAllocation(reg, ptr, info.base, info.allocSize, reg.size, 0);
    }
  }

  /** Device memory registered as host memory: 32 bytes in an allocation of 16 pass every check that
      hipObjBufRegisterHost() makes, and a token for the second half lies past the allocation. */
  lemma HostRegistrationCanPassItsAllocation()
    ensures var reg, info := DirectRegistration(16, 32, false), Device(16, 16);
      && FromApi(reg, 16) && !IsValidDeviceRange(info, 16, reg.size)
      && CheckBufferArgs(16, Some(reg), 16, 16) == Success
      && BuildToken(reg, 16, 16) == Some(TokenRange(32, 16))
      && !TokenInAllocation(reg, 16, info.base, info.allocSize, 16, 16)
  {
  }

  /** The check without its last test would let a buffer wrap: these arguments pass the other two,
      and a token for the whole buffer would then run past the end of the address space. */
  lemma WrapCheckIsNeeded()
    ensures exists ptr: uint64, size: uint64 ::
      && ptr != 0 && 0 < size <= MAX_MR_SIZE && CheckRegistrationArgs(ptr, size) != Success
      && BuildToken(DirectRegistration(ptr, size, true), 1, size - 1).Some?
      && BuildToken(DirectRegistration(ptr, size, true), 1, size - 1).value.remoteAddr < ptr
  {
    var ptr: uint64, size: uint64 := TWO_64 - 1, 2;
    assert BuildToken(DirectRegistration(ptr, size, true), 1, size - 1) == Some(TokenRange(0, 1));
  }
}
