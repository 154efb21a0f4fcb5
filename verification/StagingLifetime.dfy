/** The lifetime of registrations, staging buffers and staging copies in one instance, from the
    moment it is published to the end of its destructor, in every interleaving of calls, the GPU
    and shutdown.

    An entry is a registration in a shared_ptr: the table, calls, and abandoned copies each hold
    references to it, and its memory region and staging buffer go when the last one does. */
module StagingLifetime {
  import opened Basics
  import opened Addressing
  import opened Buffers

  type EntryId = nat
  type CallId = nat
  type CopyId = nat

  datatype Staging = NoStaging | Allocated | Freed | Leaked

  datatype Entry = Entry(key: uint64, staging: Staging, mr: bool, refs: nat, leak: bool)

  /** Where a staging copy is tracked. A copy whose event could not be recorded is not. */
  datatype Place = InCall(c: CallId) | Untracked | Listed | Dropping(c: CallId) | Gone

  /** What the instance's destructor learned about an abandoned copy. */
  datatype Verdict = NotAsked | WasOver | WasRunning

  datatype Copy = Copy(entry: EntryId, over: bool, place: Place, verdict: Verdict)

  /** What a registration in progress owns. */
  datatype Raw =
    | NoRaw
    | RawMr(key: uint64)
    | RawHost(key: uint64)
    | RawHostMr(key: uint64)
    | NewEntry(e: EntryId)

  /** A call in progress, which holds the instance: the entry it found or removed, the copy it is
      waiting for, whether it has room set aside in the abandoned list, its registration, and whether
      it has passed the check that no abandoned copy of its entry is running. */
  datatype Call = Call(entry: Option<EntryId>, copy: Option<CopyId>, slot: bool, raw: Raw, checked: bool)

  datatype Stage =
    | Serving(published: bool)
    | Querying(next: nat)
    | DroppingCopies
    | DroppingTable
    | Destroyed

  datatype Event = WasRegistered(key: uint64) | WasDeregistered(key: uint64)

  datatype World = World(
    entries: map<EntryId, Entry>,
    table: map<uint64, EntryId>,
    calls: map<CallId, Call>,
    copies: map<CopyId, Copy>,
    listed: seq<CopyId>,
    reserved: nat,
    stage: Stage,
    mrsMade: nat,
    mrsFreed: nat,
    hostsMade: nat,
    hostsFreed: nat,
    log: seq<Event>)

  const NewWorld := World(map[], map[], map[], map[], [], 0, Serving(true), 0, 0, 0, 0, [])
  const IdleCall := Call(None, None, false, NoRaw, false)

  /** What a call does with the table of registrations. */
  datatype TableStep =
    | BeginCall
    | EndCall
    | Find(key: uint64)
    | DropEntry
    | Remove(key: uint64)

  /** What a call does to register a buffer, outside the table's lock until it inserts. */
  datatype RegisterStep =
    | RegisterMr(key: uint64)
    | AllocateHost(key: uint64)
    | RegisterHostMr
    | AbandonRegistration
    | MakeEntry(e: EntryId)
    | Insert

  /** What a call does with staging copies and the abandoned list. */
  datatype CopyStep =
    | Check
    | Reserve
    | GiveBack
    | StartCopy(k: CopyId, recorded: bool)
    | SeeOver
    | Abandon
    | Sweep(i: nat)
    | DropSwept(k: CopyId)

  /** Shutdown, and the destructors that run once no call holds the instance. */
  datatype TeardownStep =
    | Shutdown
    | BeginTeardown
    | Query
    | EndQuery
    | DropListed
    | EndCopies
    | DropTable(key: uint64)
    | EndTable

  datatype Step =
    | OfTable(c: CallId, table: TableStep)
    | OfRegister(c: CallId, register: RegisterStep)
    | OfCopy(c: CallId, copy: CopyStep)
    | GpuFinish(k: CopyId)
    | OfTeardown(teardown: TeardownStep)

  // ----- Steps -----

  /** What deregisterBuffer() answers, under the table's lock. */
  function RemoveAnswer(w: World, key: uint64): DeregisterResult {
    if key !in w.table then NotRegistered
    else if w.table[key] in w.entries && w.entries[w.table[key]].refs > 1 then Busy
    else Deregistered
  }

  predicate HasEntry(w: World, c: CallId) {
    c in w.calls && w.calls[c].entry.Some? && w.calls[c].entry.value in w.entries
  }

  predicate WaitsForCopy(w: World, c: CallId) {
    c in w.calls && w.calls[c].copy.Some? && w.calls[c].copy.value in w.copies
  }

  predicate HasNoEntry(w: World, c: CallId) {
    c in w.calls && w.calls[c].entry.None? && w.calls[c].copy.None?
  }

  predicate CanTable(w: World, c: CallId, step: TableStep) {
    match step
    case BeginCall => w.stage == Serving(true) && c !in w.calls
    case EndCall =>
      && c in w.calls && w.calls[c] == IdleCall
      && (forall k :: k in w.copies ==> w.copies[k].place != Dropping(c))
    case Find(key) => HasNoEntry(w, c) && key in w.table && w.table[key] in w.entries
    case DropEntry => HasEntry(w, c) && w.calls[c].copy.None?
    case Remove(key) => HasNoEntry(w, c) && RemoveAnswer(w, key) == Deregistered
  }

  predicate CanRegister(w: World, c: CallId, step: RegisterStep) {
    && c in w.calls
    && match step
       case RegisterMr(_) => w.calls[c].raw == NoRaw
       case AllocateHost(_) => w.calls[c].raw == NoRaw
       case RegisterHostMr => w.calls[c].raw.RawHost?
       case AbandonRegistration =>
         w.calls[c].raw != NoRaw && (w.calls[c].raw.NewEntry? ==> w.calls[c].raw.e in w.entries)
       case MakeEntry(e) => (w.calls[c].raw.RawMr? || w.calls[c].raw.RawHostMr?) && e !in w.entries
       case Insert => w.calls[c].raw.NewEntry? && w.calls[c].raw.e in w.entries
  }

  /** An abandoned copy of entry `e` is still running. */
  predicate AbandonedRuns(w: World, e: EntryId) {
    exists k :: k in w.copies && IsAbandoned(w.copies[k], e)
  }

  predicate IsAbandoned(copy: Copy, e: EntryId) { copy.entry == e && copy.place == Listed && !copy.over }

  predicate CanCopy(w: World, c: CallId, step: CopyStep) {
    && c in w.calls
    && match step
       case Check => HasEntry(w, c) && w.calls[c].copy.None? && !AbandonedRuns(w, w.calls[c].entry.value)
       case Reserve => !w.calls[c].slot
       case GiveBack => w.calls[c].slot && w.calls[c].copy.None?
       case StartCopy(k, _) =>
         && HasEntry(w, c) && w.calls[c].checked && w.calls[c].slot && w.calls[c].copy.None? && k !in w.copies
         && w.entries[w.calls[c].entry.value].staging == Allocated
       case SeeOver => WaitsForCopy(w, c) && w.copies[w.calls[c].copy.value].over
       case Abandon =>
         WaitsForCopy(w, c) && w.calls[c].slot && w.copies[w.calls[c].copy.value].entry in w.entries
       case Sweep(i) => i < |w.listed| && w.listed[i] in w.copies && w.copies[w.listed[i]].over
       case DropSwept(k) =>
         k in w.copies && w.copies[k].place == Dropping(c) && w.copies[k].entry in w.entries
  }

  predicate CanTeardown(w: World, step: TeardownStep) {
    match step
    case Shutdown => w.stage == Serving(true)
    case BeginTeardown => w.stage == Serving(false) && w.calls == map[]
    case Query =>
      && w.stage.Querying? && w.stage.next < |w.listed| && w.listed[w.stage.next] in w.copies
      && w.copies[w.listed[w.stage.next]].entry in w.entries
    case EndQuery => w.stage == Querying(|w.listed|)
    case DropListed =>
      && w.stage == DroppingCopies && w.listed != [] && w.listed[0] in w.copies
      && w.copies[w.listed[0]].entry in w.entries
    case EndCopies => w.stage == DroppingCopies && w.listed == []
    case DropTable(key) => w.stage == DroppingTable && key in w.table && w.table[key] in w.entries
    case EndTable => w.stage == DroppingTable && w.table == map[]
  }

  predicate Enabled(w: World, step: Step) {
    match step
    case OfTable(c, s) => CanTable(w, c, s)
    case OfRegister(c, s) => CanRegister(w, c, s)
    case OfCopy(c, s) => CanCopy(w, c, s)
    case GpuFinish(k) => k in w.copies
    case OfTeardown(s) => CanTeardown(w, s)
  }

  function SetCall(w: World, c: CallId, call: Call): World { w.(calls := w.calls[c := call]) }
  function SetCopy(w: World, k: CopyId, copy: Copy): World { w.(copies := w.copies[k := copy]) }
  function SetEntry(w: World, e: EntryId, entry: Entry): World { w.(entries := w.entries[e := entry]) }

  /** The entry once a reference is dropped: the last one deregisters the memory region, and then
      frees or leaks the staging buffer. */
  function Dropped(entry: Entry): Entry {
    if entry.refs > 1 then entry.(refs := entry.refs - 1)
    else entry.(refs := 0, mr := false,
                staging := if entry.staging != Allocated then entry.staging
                           else if entry.leak then Leaked else Freed)
  }

  function DropRef(w: World, e: EntryId): World
    requires e in w.entries
  {
    var entry := w.entries[e];
    SetEntry(w, e, Dropped(entry))
      .(mrsFreed := w.mrsFreed + Bit(entry.mr && !Dropped(entry).mr),
        hostsFreed := w.hostsFreed + Bit(entry.staging == Allocated && Dropped(entry).staging == Freed))
  }

  function AddRef(w: World, e: EntryId): World
    requires e in w.entries
  {
    SetEntry(w, e, w.entries[e].(refs := w.entries[e].refs + 1))
  }

  function Erase(s: seq<CopyId>, i: nat): seq<CopyId>
    requires i < |s|
  {
    s[..i] + s[i + 1..]
  }

  function DoTable(w: World, c: CallId, step: TableStep): World
    requires CanTable(w, c, step)
  {
    match step
    case BeginCall => SetCall(w, c, IdleCall)
    case EndCall => w.(calls := w.calls - {c})
    case Find(key) => AddRef(SetCall(w, c, w.calls[c].(entry := Some(w.table[key]))), w.table[key])
    case DropEntry =>
      DropRef(SetCall(w, c, w.calls[c].(entry := None, checked := false)), w.calls[c].entry.value)
    case Remove(key) =>
      SetCall(w, c, w.calls[c].(entry := Some(w.table[key])))
        .(table := w.table - {key}, log := w.log + [WasDeregistered(key)])
  }

  function DoRegister(w: World, c: CallId, step: RegisterStep): World
    requires CanRegister(w, c, step)
  {
    match step
    case RegisterMr(key) =>
      SetCall(w, c, w.calls[c].(raw := RawMr(key))).(mrsMade := w.mrsMade + 1)
    case AllocateHost(key) =>
      SetCall(w, c, w.calls[c].(raw := RawHost(key))).(hostsMade := w.hostsMade + 1)
    case RegisterHostMr =>
      SetCall(w, c, w.calls[c].(raw := RawHostMr(w.calls[c].raw.key))).(mrsMade := w.mrsMade + 1)
    case AbandonRegistration =>
      var w1 := SetCall(w, c, w.calls[c].(raw := NoRaw));
      (match w.calls[c].raw
       case NoRaw => w1
       case RawMr(_) => w1.(mrsFreed := w.mrsFreed + 1)
       case RawHost(_) => w1.(hostsFreed := w.hostsFreed + 1)
       case RawHostMr(_) => w1.(mrsFreed := w.mrsFreed + 1, hostsFreed := w.hostsFreed + 1)
       case NewEntry(e) => DropRef(w1, e))
    case MakeEntry(e) =>
      var raw := w.calls[c].raw;
      SetEntry(SetCall(w, c, w.calls[c].(raw := NewEntry(e))), e,
               Entry(raw.key, if raw.RawMr? then NoStaging else Allocated, true, 1, false))
    case Insert =>
      var e := w.calls[c].raw.e;
      var key := w.entries[e].key;
      if Refusal(w.table.Keys, key).Some? then w
      else SetCall(w, c, w.calls[c].(raw := NoRaw))
             .(table := w.table[key := e], log := w.log + [WasRegistered(key)])
  }

  function DoCopy(w: World, c: CallId, step: CopyStep): World
    requires CanCopy(w, c, step)
  {
    match step
    case Check => SetCall(w, c, w.calls[c].(checked := true))
    case Reserve => SetCall(w, c, w.calls[c].(slot := true)).(reserved := w.reserved + 1)
    case GiveBack => SetCall(w, c, w.calls[c].(slot := false)).(reserved := Pred(w.reserved))
    case StartCopy(k, recorded) =>
      var e := w.calls[c].entry.value;
      if recorded then
        SetCall(SetCopy(w, k, Copy(e, false, InCall(c), NotAsked)), c, w.calls[c].(copy := Some(k)))
      else SetCopy(w, k, Copy(e, false, Untracked, NotAsked))
    case SeeOver =>
      var k := w.calls[c].copy.value;
      SetCall(SetCopy(w, k, w.copies[k].(place := Gone)), c, w.calls[c].(copy := None))
    case Abandon =>
      var k := w.calls[c].copy.value;
      var call := w.calls[c].(copy := None, slot := false, checked := false);
      AddRef(SetCall(SetCopy(w, k, w.copies[k].(place := Listed)), c, call), w.copies[k].entry)
        .(listed := w.listed + [k], reserved := Pred(w.reserved))
    case Sweep(i) =>
      var k := w.listed[i];
      SetCopy(w, k, w.copies[k].(place := Dropping(c))).(listed := Erase(w.listed, i))
    case DropSwept(k) => DropRef(SetCopy(w, k, w.copies[k].(place := Gone)), w.copies[k].entry)
  }

  function DoGpu(w: World, k: CopyId): World
    requires k in w.copies
  {
    SetCopy(w, k, w.copies[k].(over := true))
  }

  function DoTeardown(w: World, step: TeardownStep): World
    requires CanTeardown(w, step)
  {
    match step
    case Shutdown => w.(stage := Serving(false))
    case BeginTeardown => w.(stage := Querying(0))
    case Query =>
      var k := w.listed[w.stage.next];
      var e := w.copies[k].entry;
      var w1 := w.(stage := Querying(w.stage.next + 1));
      if w.copies[k].over then SetCopy(w1, k, w.copies[k].(verdict := WasOver))
      else SetEntry(SetCopy(w1, k, w.copies[k].(verdict := WasRunning)), e, w.entries[e].(leak := true))
    case EndQuery => w.(stage := DroppingCopies)
    case DropListed =>
      var k := w.listed[0];
      DropRef(SetCopy(w, k, w.copies[k].(place := Gone)), w.copies[k].entry).(listed := w.listed[1..])
    case EndCopies => w.(stage := DroppingTable)
    case DropTable(key) => DropRef(w.(table := w.table - {key}), w.table[key])
    case EndTable => w.(stage := Destroyed)
  }

  function Apply(w: World, step: Step): World
    requires Enabled(w, step)
  {
    match step
    case OfTable(c, s) => DoTable(w, c, s)
    case OfRegister(c, s) => DoRegister(w, c, s)
    case OfCopy(c, s) => DoCopy(w, c, s)
    case GpuFinish(k) => DoGpu(w, k)
    case OfTeardown(s) => DoTeardown(w, s)
  }

  // ----- What every step keeps -----

  function HoldsEntry(e: EntryId): Call -> bool { (c: Call) => c.entry == Some(e) }
  function MadeEntry(e: EntryId): Call -> bool { (c: Call) => c.raw == NewEntry(e) }
  function KeepsEntry(e: EntryId): Copy -> bool {
    (k: Copy) => k.entry == e && (k.place.Listed? || k.place.Dropping?)
  }
  function IsEntry(e: EntryId): EntryId -> bool { (x: EntryId) => x == e }

  predicate HasSlot(c: Call) { c.slot }
  predicate RawHasMr(c: Call) { c.raw.RawMr? || c.raw.RawHostMr? }
  predicate RawHasHost(c: Call) { c.raw.RawHost? || c.raw.RawHostMr? }
  predicate HasMr(e: Entry) { e.mr }
  predicate HasHost(e: Entry) { e.staging == Allocated || e.staging == Leaked }

  /** The references to entry `e`: the table's, the calls', and the abandoned copies'. */
  ghost function References(w: World, e: EntryId): nat {
    MapCount(w.table, IsEntry(e)) + MapCount(w.calls, HoldsEntry(e)) + MapCount(w.calls, MadeEntry(e))
    + MapCount(w.copies, KeepsEntry(e))
  }

  /** The use count of every entry is the number of references to it. */
  ghost predicate RefsOk(w: World) {
    forall e :: e in w.entries ==> w.entries[e].refs == References(w, e)
  }

  predicate EntryOk(e: Entry) {
    && (e.refs > 0 <==> e.mr)
    && (e.refs > 0 ==> e.staging == NoStaging || e.staging == Allocated)
    && (e.refs == 0 ==> e.staging != Allocated)
    && (e.leak ==> e.staging != NoStaging && e.staging != Freed)
    && (e.staging == Leaked ==> e.leak)
  }

  predicate CallOk(w: World, c: CallId, call: Call) {
    && (call.entry.Some? ==> call.entry.value in w.entries)
    && (call.raw.NewEntry? ==> call.raw.e in w.entries)
    && (call.checked ==> call.entry.Some?)
    && (call.copy.Some? ==>
          && call.checked && call.slot && call.entry.Some? && call.copy.value in w.copies
          && w.copies[call.copy.value].entry == call.entry.value
          && w.copies[call.copy.value].place == InCall(c))
  }

  predicate CopyOk(w: World, k: CopyId, copy: Copy) {
    && copy.entry in w.entries && w.entries[copy.entry].staging != NoStaging
    && (copy.place.InCall? ==>
          copy.place.c in w.calls && w.calls[copy.place.c].copy == Some(k))
    && (copy.place == Listed <==> k in w.listed)
    && (copy.place.Dropping? ==> copy.over && copy.place.c in w.calls)
    && (copy.place == Gone ==> copy.over || copy.verdict == WasRunning)
    && (copy.verdict == WasRunning ==> w.entries[copy.entry].leak)
  }

  ghost predicate KeysOk(w: World) {
    forall key :: key in w.table ==> w.table[key] in w.entries && w.entries[w.table[key]].key == key
  }
  ghost predicate EntriesOk(w: World) { forall e :: e in w.entries ==> EntryOk(w.entries[e]) }
  ghost predicate CallsOk(w: World) { forall c :: c in w.calls ==> CallOk(w, c, w.calls[c]) }
  ghost predicate CopiesOk(w: World) { forall k :: k in w.copies ==> CopyOk(w, k, w.copies[k]) }
  ghost predicate ListOk(w: World) {
    (forall i :: 0 <= i < |w.listed| ==> w.listed[i] in w.copies) && NoDuplicates(w.listed)
  }

  ghost predicate LinksOk(w: World) {
    KeysOk(w) && EntriesOk(w) && CallsOk(w) && CopiesOk(w) && ListOk(w)
  }

  /** The calls are over once teardown begins; leaks are decided while it queries the copies. */
  ghost predicate StageOk(w: World) {
    && (!w.stage.Serving? ==> w.calls == map[])
    && (w.stage.Serving? ==> forall k :: k in w.copies ==> w.copies[k].verdict == NotAsked)
    && (w.stage.Querying? ==>
          && w.stage.next <= |w.listed|
          && (forall i :: 0 <= i < |w.listed| ==>
                w.listed[i] in w.copies && (i < w.stage.next <==> w.copies[w.listed[i]].verdict != NotAsked)))
    && (w.stage == DroppingCopies ==>
          forall i :: 0 <= i < |w.listed| ==> w.listed[i] in w.copies && w.copies[w.listed[i]].verdict != NotAsked)
    && (w.stage == DroppingTable || w.stage == Destroyed ==> w.listed == [])
    && (w.stage == Destroyed ==> w.table == map[])
  }

  ghost predicate VerdictsOk(w: World) {
    && (forall k :: k in w.copies && w.copies[k].verdict == WasOver ==> w.copies[k].over)
    && (forall e :: e in w.entries && w.entries[e].leak ==> LeakJustified(w, e))
  }

  ghost predicate LeakJustified(w: World, e: EntryId) {
    exists k :: k in w.copies && w.copies[k].entry == e && w.copies[k].verdict == WasRunning
  }

  /** An address that is not in the table was deregistered after it was last registered. */
  ghost predicate Closed(log: seq<Event>, i: nat, key: uint64) {
    exists m :: i < m < |log| && log[m] == WasDeregistered(key)
  }

  ghost predicate LogOk(w: World) {
    && |w.table.Keys| <= MAX_ENTRIES
    && (w.stage.Serving? ==>
          forall i, key :: 0 <= i < |w.log| && w.log[i] == WasRegistered(key) && key !in w.table ==>
            Closed(w.log, i, key))
    && (forall i, j :: (0 <= i < j < |w.log| && w.log[i].WasRegistered? && w.log[j] == w.log[i]) ==>
          ClosedBefore(w.log, i, j, w.log[i].key))
  }

  ghost predicate ClosedBefore(log: seq<Event>, i: nat, j: nat, key: uint64) {
    exists m :: i < m < j && m < |log| && log[m] == WasDeregistered(key)
  }

  /** What was made is freed, or owned by an entry or a registration in progress, or leaked. */
  ghost predicate ResourcesOk(w: World) {
    && w.reserved == MapCount(w.calls, HasSlot)
    && w.mrsMade == w.mrsFreed + MapCount(w.entries, HasMr) + MapCount(w.calls, RawHasMr)
    && w.hostsMade == w.hostsFreed + MapCount(w.entries, HasHost) + MapCount(w.calls, RawHasHost)
  }

  ghost predicate Inv(w: World) {
    RefsOk(w) && LinksOk(w) && StageOk(w) && VerdictsOk(w) && LogOk(w) && ResourcesOk(w)
  }

  // ----- Proofs: reference counts -----

  /** `w'` is `w` but for one call, one copy and one key. */
  predicate Changes(w: World, w': World, c: CallId, k: CopyId, key: uint64) {
    && w'.calls - {c} == w.calls - {c}
    && w'.copies - {k} == w.copies - {k}
    && w'.table - {key} == w.table - {key}
  }

  /** The references that one call, one copy and one key hold. */
  function ByCall(w: World, c: CallId, e: EntryId): nat {
    if c in w.calls then Bit(w.calls[c].entry == Some(e)) + Bit(w.calls[c].raw == NewEntry(e)) else 0
  }
  predicate Keeps(copy: Copy, e: EntryId) { copy.entry == e && (copy.place.Listed? || copy.place.Dropping?) }
  function ByCopy(w: World, k: CopyId, e: EntryId): nat { Bit(k in w.copies && Keeps(w.copies[k], e)) }
  function ByKey(w: World, key: uint64, e: EntryId): nat { Bit(key in w.table && w.table[key] == e) }
  function RefsOf(w: World, e: EntryId): nat { if e in w.entries then w.entries[e].refs else 0 }

  lemma ReferencesMove(w: World, w': World, c: CallId, k: CopyId, key: uint64, e: EntryId)
    requires Changes(w, w', c, k, key)
    ensures References(w', e) - ByCall(w', c, e) - ByCopy(w', k, e) - ByKey(w', key, e)
         == References(w, e) - ByCall(w, c, e) - ByCopy(w, k, e) - ByKey(w, key, e)
    ensures ByCall(w, c, e) + ByCopy(w, k, e) + ByKey(w, key, e) <= References(w, e)
  {
    CallReferencesMove(w, w', c, e);
    MapCountRemove(w.copies, k, KeepsEntry(e));
    MapCountRemove(w'.copies, k, KeepsEntry(e));
    MapCountRemove(w.table, key, IsEntry(e));
    MapCountRemove(w'.table, key, IsEntry(e));
  }

  ghost function CallReferences(w: World, e: EntryId): nat {
    MapCount(w.calls, HoldsEntry(e)) + MapCount(w.calls, MadeEntry(e))
  }

  lemma CallReferencesMove(w: World, w': World, c: CallId, e: EntryId)
    requires w'.calls - {c} == w.calls - {c}
    ensures CallReferences(w', e) - ByCall(w', c, e) == CallReferences(w, e) - ByCall(w, c, e)
    ensures ByCall(w, c, e) <= CallReferences(w, e)
  {
    MapCountRemove(w.calls, c, HoldsEntry(e));
    MapCountRemove(w'.calls, c, HoldsEntry(e));
    MapCountRemove(w.calls, c, MadeEntry(e));
    MapCountRemove(w'.calls, c, MadeEntry(e));
  }

  /** A step moves the use count exactly as it moves the references. */
  predicate RefsMove(w: World, w': World, c: CallId, k: CopyId, key: uint64, e: EntryId) {
    ByCall(w, c, e) + ByCopy(w, k, e) + ByKey(w, key, e) <= RefsOf(w, e) ==>
      RefsOf(w', e) - ByCall(w', c, e) - ByCopy(w', k, e) - ByKey(w', key, e)
      == RefsOf(w, e) - ByCall(w, c, e) - ByCopy(w, k, e) - ByKey(w, key, e)
  }

  function TableKey(step: TableStep): uint64 { if step.Remove? then step.key else 0 }

  lemma TableMoves(w: World, c: CallId, step: TableStep, e: EntryId)
    requires CanTable(w, c, step)
    ensures RefsMove(w, DoTable(w, c, step), c, 0, TableKey(step), e)
    ensures Changes(w, DoTable(w, c, step), c, 0, TableKey(step))
  {
  }

  function RegisterKey(w: World, c: CallId, step: RegisterStep): uint64
    requires CanRegister(w, c, step)
  {
    if step.Insert? then w.entries[w.calls[c].raw.e].key else 0
  }

  lemma RegisterMoves(w: World, c: CallId, step: RegisterStep, e: EntryId)
    requires CanRegister(w, c, step)
    ensures RefsMove(w, DoRegister(w, c, step), c, 0, RegisterKey(w, c, step), e)
  {
  }

  lemma RegisterChanges(w: World, c: CallId, step: RegisterStep)
    requires CanRegister(w, c, step)
    ensures Changes(w, DoRegister(w, c, step), c, 0, RegisterKey(w, c, step))
  {
    if step.Insert? { InsertChanges(w, c); } else { MakingChanges(w, c, step); }
  }

  lemma InsertChanges(w: World, c: CallId)
    requires CanRegister(w, c, Insert)
    ensures Changes(w, DoRegister(w, c, Insert), c, 0, w.entries[w.calls[c].raw.e].key)
  {
  }

  lemma MakingChanges(w: World, c: CallId, step: RegisterStep)
    requires CanRegister(w, c, step) && !step.Insert?
    ensures Changes(w, DoRegister(w, c, step), c, 0, 0)
  {
    var w' := DoRegister(w, c, step);
    assert w'.calls == w.calls[c := w'.calls[c]] && w'.copies == w.copies && w'.table == w.table;
  }

  function CopyOf(w: World, c: CallId, step: CopyStep): CopyId
    requires CanCopy(w, c, step)
  {
    match step
    case StartCopy(k, _) => k
    case SeeOver => w.calls[c].copy.value
    case Abandon => w.calls[c].copy.value
    case Sweep(i) => w.listed[i]
    case DropSwept(k) => k
    case _ => 0
  }

  lemma CopyMoves(w: World, c: CallId, step: CopyStep, e: EntryId)
    requires CanCopy(w, c, step) && CallOk(w, c, w.calls[c])
    requires step.Sweep? ==> w.copies[w.listed[step.i]].place == Listed
    ensures RefsMove(w, DoCopy(w, c, step), c, CopyOf(w, c, step), 0, e)
  {
  }

  lemma CopyChanges(w: World, c: CallId, step: CopyStep)
    requires CanCopy(w, c, step)
    ensures Changes(w, DoCopy(w, c, step), c, CopyOf(w, c, step), 0)
  {
  }

  function TornCopy(w: World, step: TeardownStep): CopyId
    requires CanTeardown(w, step)
  {
    if step.Query? then w.listed[w.stage.next] else if step.DropListed? then w.listed[0] else 0
  }

  function TornKey(step: TeardownStep): uint64 { if step.DropTable? then step.key else 0 }

  lemma TeardownMoves(w: World, step: TeardownStep, e: EntryId)
    requires CanTeardown(w, step)
    requires step.Query? || step.DropListed? ==> w.copies[TornCopy(w, step)].place == Listed
    ensures RefsMove(w, DoTeardown(w, step), 0, TornCopy(w, step), TornKey(step), e)
  {
  }

  lemma TeardownChanges(w: World, step: TeardownStep)
    requires CanTeardown(w, step)
    ensures Changes(w, DoTeardown(w, step), 0, TornCopy(w, step), TornKey(step))
  {
  }

  lemma NobodyRefers(w: World, e: EntryId)
    requires LinksOk(w) && e !in w.entries
    ensures References(w, e) == 0
  {
    forall c | c in w.calls
      ensures !HoldsEntry(e)(w.calls[c]) && !MadeEntry(e)(w.calls[c])
    {
      assert CallOk(w, c, w.calls[c]);
    }
    forall k | k in w.copies
      ensures !KeepsEntry(e)(w.copies[k])
    {
      assert CopyOk(w, k, w.copies[k]);
    }
    MapCountZero(w.table, IsEntry(e));
    MapCountZero(w.calls, HoldsEntry(e));
    MapCountZero(w.calls, MadeEntry(e));
    MapCountZero(w.copies, KeepsEntry(e));
  }

  lemma RefsFollow(w: World, w': World, c: CallId, k: CopyId, key: uint64, e: EntryId)
    requires RefsOk(w) && LinksOk(w) && RefsMove(w, w', c, k, key, e) && Changes(w, w', c, k, key)
    ensures RefsOf(w', e) == References(w', e)
  {
    if e !in w.entries { NobodyRefers(w, e); }
    ReferencesMove(w, w', c, k, key, e);
  }

  lemma ListedOk(w: World, i: nat)
    requires LinksOk(w) && i < |w.listed|
    ensures w.listed[i] in w.copies && w.copies[w.listed[i]].place == Listed
  {
    assert CopyOk(w, w.listed[i], w.copies[w.listed[i]]);
  }

  lemma TableRefs(w: World, c: CallId, step: TableStep, e: EntryId)
    requires RefsOk(w) && LinksOk(w) && CanTable(w, c, step)
    ensures RefsOf(DoTable(w, c, step), e) == References(DoTable(w, c, step), e)
  {
    TableMoves(w, c, step, e);
    RefsFollow(w, DoTable(w, c, step), c, 0, TableKey(step), e);
  }

  lemma RegisterRefs(w: World, c: CallId, step: RegisterStep, e: EntryId)
    requires RefsOk(w) && LinksOk(w) && CanRegister(w, c, step)
    ensures RefsOf(DoRegister(w, c, step), e) == References(DoRegister(w, c, step), e)
  {
    RegisterMoves(w, c, step, e);
    RegisterChanges(w, c, step);
    RefsFollow(w, DoRegister(w, c, step), c, 0, RegisterKey(w, c, step), e);
  }

  lemma CopyRefs(w: World, c: CallId, step: CopyStep, e: EntryId)
    requires RefsOk(w) && LinksOk(w) && CanCopy(w, c, step)
    ensures RefsOf(DoCopy(w, c, step), e) == References(DoCopy(w, c, step), e)
  {
    if step.Sweep? { ListedOk(w, step.i); }
    CopyMoves(w, c, step, e);
    CopyChanges(w, c, step);
    RefsFollow(w, DoCopy(w, c, step), c, CopyOf(w, c, step), 0, e);
  }

  lemma TeardownRefs(w: World, step: TeardownStep, e: EntryId)
    requires RefsOk(w) && LinksOk(w) && CanTeardown(w, step)
    ensures RefsOf(DoTeardown(w, step), e) == References(DoTeardown(w, step), e)
  {
    if step.Query? { ListedOk(w, w.stage.next); }
    if step.DropListed? { ListedOk(w, 0); }
    TeardownMoves(w, step, e);
    TeardownChanges(w, step);
    RefsFollow(w, DoTeardown(w, step), 0, TornCopy(w, step), TornKey(step), e);
  }

  lemma GpuMoves(w: World, k: CopyId, e: EntryId)
    requires k in w.copies
    ensures RefsMove(w, DoGpu(w, k), 0, k, 0, e) && Changes(w, DoGpu(w, k), 0, k, 0)
  {
  }

  lemma GpuRefs(w: World, k: CopyId, e: EntryId)
    requires RefsOk(w) && LinksOk(w) && k in w.copies
    ensures RefsOf(DoGpu(w, k), e) == References(DoGpu(w, k), e)
  {
    GpuMoves(w, k, e);
    RefsFollow(w, DoGpu(w, k), 0, k, 0, e);
  }

  lemma RefsKept(w: World, step: Step)
    requires RefsOk(w) && LinksOk(w) && Enabled(w, step)
    ensures RefsOk(Apply(w, step))
  {
    forall e | e in Apply(w, step).entries
      ensures Apply(w, step).entries[e].refs == References(Apply(w, step), e)
    {
      match step
      case OfTable(c, s) => TableRefs(w, c, s, e);
      case OfRegister(c, s) => RegisterRefs(w, c, s, e);
      case OfCopy(c, s) => CopyRefs(w, c, s, e);
      case GpuFinish(k) => GpuRefs(w, k, e);
      case OfTeardown(s) => TeardownRefs(w, s, e);
    }
  }

  // ----- Proofs: links -----

  lemma KeyCounts(w: World, key: uint64)
    requires RefsOk(w) && KeysOk(w) && key in w.table
    ensures w.entries[w.table[key]].refs > 0
  {
    MapCountPositive(w.table, key, IsEntry(w.table[key]));
  }

  lemma CallCounts(w: World, c: CallId)
    requires RefsOk(w) && CallsOk(w) && c in w.calls
    ensures w.calls[c].entry.Some? ==> w.calls[c].entry.value in w.entries && w.entries[w.calls[c].entry.value].refs > 0
  {
    assert CallOk(w, c, w.calls[c]);
    if w.calls[c].entry.Some? {
      MapCountPositive(w.calls, c, HoldsEntry(w.calls[c].entry.value));
    }
  }

  lemma CopyCounts(w: World, k: CopyId)
    requires RefsOk(w) && CopiesOk(w) && k in w.copies
    ensures w.copies[k].entry in w.entries
    ensures w.copies[k].place == Listed || w.copies[k].place.Dropping? ==> w.entries[w.copies[k].entry].refs > 0
  {
    assert CopyOk(w, k, w.copies[k]);
    if w.copies[k].place == Listed || w.copies[k].place.Dropping? {
      MapCountPositive(w.copies, k, KeepsEntry(w.copies[k].entry));
    }
  }

  /** Entries are never forgotten, and keep their key, whether they are staged, and their leak. */
  predicate Grows(w: World, w': World) {
    forall e :: e in w.entries ==>
      && e in w'.entries && w'.entries[e].key == w.entries[e].key
      && (w.entries[e].staging == NoStaging <==> w'.entries[e].staging == NoStaging)
      && (w.entries[e].leak ==> w'.entries[e].leak)
  }

  predicate SameCall(w: World, w': World, c: CallId) {
    c in w.calls && c in w'.calls && w'.calls[c] == w.calls[c]
  }
  predicate SameCopy(w: World, w': World, k: CopyId) {
    k in w.copies && k in w'.copies && w'.copies[k] == w.copies[k] && (k in w.listed <==> k in w'.listed)
  }

  /** Everything but the call `c` and the copy `k` keeps its links. */
  ghost predicate LinksFollow(w: World, w': World, c: CallId, k: CopyId) {
    && Grows(w, w')
    && (forall x :: x in w.copies && x != k ==> (x in w.listed <==> x in w'.listed))
    && (c in w'.calls && (!SameCall(w, w', c) || (w.calls[c].copy == Some(k) && !SameCopy(w, w', k))) ==>
          CallOk(w', c, w'.calls[c]))
    && (k in w'.copies && !SameCopy(w, w', k) ==> CopyOk(w', k, w'.copies[k]))
    && (k in w.copies && w.copies[k].place.InCall? ==> w.copies[k].place.c == c || SameCopy(w, w', k))
    && (c in w.calls && w.calls[c].copy.Some? && !SameCall(w, w', c) ==>
          (w.calls[c].copy.value == k && !SameCopy(w, w', k)) || (c in w'.calls && w'.calls[c].copy == w.calls[c].copy))
    && (c in w.calls && c !in w'.calls ==>
          forall x :: x in w.copies ==> w.copies[x].place != Dropping(c) && w.copies[x].place != InCall(c))
  }

  lemma CallFollows(w: World, w': World, c: CallId, k: CopyId, key: uint64, x: CallId)
    requires CallsOk(w) && CopiesOk(w) && Changes(w, w', c, k, key) && LinksFollow(w, w', c, k)
    requires x in w'.calls
    ensures CallOk(w', x, w'.calls[x])
  {
    if x != c || SameCall(w, w', c) {
      if x != c { assert x in w.calls - {c} && (w'.calls - {c})[x] == (w.calls - {c})[x]; }
      assert CallOk(w, x, w.calls[x]);
      if w.calls[x].copy.Some? {
        var y := w.calls[x].copy.value;
        if y != k { assert y in w.copies - {k} && (w'.copies - {k})[y] == (w.copies - {k})[y]; }
      }
    }
  }

  lemma CopyFollows(w: World, w': World, c: CallId, k: CopyId, key: uint64, x: CopyId)
    requires CallsOk(w) && CopiesOk(w) && Changes(w, w', c, k, key) && LinksFollow(w, w', c, k)
    requires x in w'.copies
    ensures CopyOk(w', x, w'.copies[x])
  {
    if x != k || SameCopy(w, w', k) {
      if x != k { assert x in w'.copies - {k} && (w'.copies - {k})[x] == (w.copies - {k})[x]; }
      assert CopyOk(w, x, w.copies[x]);
      var place := w.copies[x].place;
      if (place.InCall? || place.Dropping?) && place.c != c {
        assert place.c in w.calls - {c} && (w'.calls - {c})[place.c] == (w.calls - {c})[place.c];
      }
    }
  }

  lemma OthersKeepLinks(w: World, w': World, c: CallId, k: CopyId, key: uint64)
    requires CallsOk(w) && CopiesOk(w) && Changes(w, w', c, k, key) && LinksFollow(w, w', c, k)
    ensures CallsOk(w') && CopiesOk(w')
  {
    forall x | x in w'.calls
      ensures CallOk(w', x, w'.calls[x])
    {
      CallFollows(w, w', c, k, key, x);
    }
    forall x | x in w'.copies
      ensures CopyOk(w', x, w'.copies[x])
    {
      CopyFollows(w, w', c, k, key, x);
    }
  }

  lemma TableFollows(w: World, c: CallId, step: TableStep)
    requires CanTable(w, c, step) && KeysOk(w) && (c in w.calls ==> CallOk(w, c, w.calls[c]))
    requires step.EndCall? ==> CopiesOk(w)
    ensures LinksFollow(w, DoTable(w, c, step), c, 0)
  {
    if step.EndCall? {
      forall x | x in w.copies
        ensures w.copies[x].place != InCall(c)
      {
        assert CopyOk(w, x, w.copies[x]);
      }
    }
  }

  lemma TableRest(w: World, c: CallId, step: TableStep)
    requires KeysOk(w) && EntriesOk(w) && ListOk(w) && CanTable(w, c, step)
    requires step.Find? ==> w.entries[w.table[step.key]].refs > 0
    ensures KeysOk(DoTable(w, c, step)) && EntriesOk(DoTable(w, c, step)) && ListOk(DoTable(w, c, step))
  {
  }

  lemma TableLinks(w: World, c: CallId, step: TableStep)
    requires RefsOk(w) && LinksOk(w) && CanTable(w, c, step)
    ensures LinksOk(DoTable(w, c, step))
  {
    TableFollows(w, c, step);
    if step.Find? { KeyCounts(w, step.key); }
    TableRest(w, c, step);
    TableMoves(w, c, step, 0);
    OthersKeepLinks(w, DoTable(w, c, step), c, 0, TableKey(step));
  }

  lemma RegisterGrows(w: World, c: CallId, step: RegisterStep)
    requires CanRegister(w, c, step)
    ensures Grows(w, DoRegister(w, c, step))
  {
  }

  lemma RegisterCallOk(w: World, c: CallId, step: RegisterStep)
    requires CanRegister(w, c, step) && CallOk(w, c, w.calls[c])
    ensures c in DoRegister(w, c, step).calls && CallOk(DoRegister(w, c, step), c, DoRegister(w, c, step).calls[c])
    ensures DoRegister(w, c, step).calls[c].copy == w.calls[c].copy
    ensures DoRegister(w, c, step).copies == w.copies && DoRegister(w, c, step).listed == w.listed
  {
  }

  lemma RegisterFollows(w: World, c: CallId, step: RegisterStep)
    requires CanRegister(w, c, step) && CallOk(w, c, w.calls[c])
    ensures LinksFollow(w, DoRegister(w, c, step), c, 0)
  {
    RegisterGrows(w, c, step);
    RegisterCallOk(w, c, step);
  }

  lemma RegisterRest(w: World, c: CallId, step: RegisterStep)
    requires KeysOk(w) && EntriesOk(w) && ListOk(w) && CanRegister(w, c, step)
    ensures KeysOk(DoRegister(w, c, step)) && EntriesOk(DoRegister(w, c, step)) && ListOk(DoRegister(w, c, step))
  {
  }

  lemma RegisterLinks(w: World, c: CallId, step: RegisterStep)
    requires LinksOk(w) && CanRegister(w, c, step)
    ensures LinksOk(DoRegister(w, c, step))
  {
    assert CallOk(w, c, w.calls[c]);
    RegisterFollows(w, c, step);
    RegisterRest(w, c, step);
    RegisterChanges(w, c, step);
    OthersKeepLinks(w, DoRegister(w, c, step), c, 0, RegisterKey(w, c, step));
  }

  lemma Erased(s: seq<CopyId>, i: nat)
    requires i < |s| && NoDuplicates(s)
    ensures NoDuplicates(Erase(s, i))
    ensures forall x :: x in Erase(s, i) <==> x in s && x != s[i]
  {
    var t := Erase(s, i);
    forall x | x in s && x != s[i]
      ensures x in t
    {
      var j :| 0 <= j < |s| && s[j] == x;
      assert x == if j < i then t[j] else t[j - 1];
    }
  }

  lemma CopyFollowsStep(w: World, c: CallId, step: CopyStep)
    requires CanCopy(w, c, step) && CallOk(w, c, w.calls[c])
    requires CopyOf(w, c, step) in w.copies ==> CopyOk(w, CopyOf(w, c, step), w.copies[CopyOf(w, c, step)])
    requires step.StartCopy? ==> step.k !in w.listed
    requires step.Sweep? ==> NoDuplicates(w.listed)
    ensures LinksFollow(w, DoCopy(w, c, step), c, CopyOf(w, c, step))
  {
    if step.Sweep? {
      Erased(w.listed, step.i);
      SweepFollows(w, c, step.i);
    } else if step.Abandon? {
      AbandonFollows(w, c);
    } else if step.StartCopy? {
      StartFollows(w, c, step.k, step.recorded);
    } else if step.DropSwept? {
      DropSweptFollows(w, c, step.k);
    }
  }

  lemma StartFollows(w: World, c: CallId, k: CopyId, recorded: bool)
    requires CanCopy(w, c, StartCopy(k, recorded)) && CallOk(w, c, w.calls[c]) && k !in w.listed
    ensures LinksFollow(w, DoCopy(w, c, StartCopy(k, recorded)), c, k)
  {
  }

  lemma DropSweptFollows(w: World, c: CallId, k: CopyId)
    requires CanCopy(w, c, DropSwept(k)) && CallOk(w, c, w.calls[c]) && CopyOk(w, k, w.copies[k])
    ensures LinksFollow(w, DoCopy(w, c, DropSwept(k)), c, k)
  {
  }

  lemma AbandonFollows(w: World, c: CallId)
    requires CanCopy(w, c, Abandon) && CallOk(w, c, w.calls[c])
    requires CopyOk(w, w.calls[c].copy.value, w.copies[w.calls[c].copy.value])
    ensures LinksFollow(w, DoCopy(w, c, Abandon), c, w.calls[c].copy.value)
  {
  }

  lemma SweepFollows(w: World, c: CallId, i: nat)
    requires CanCopy(w, c, Sweep(i)) && CallOk(w, c, w.calls[c]) && CopyOk(w, w.listed[i], w.copies[w.listed[i]])
    requires forall x :: x in Erase(w.listed, i) <==> x in w.listed && x != w.listed[i]
    ensures LinksFollow(w, DoCopy(w, c, Sweep(i)), c, w.listed[i])
  {
  }

  lemma CopyRest(w: World, c: CallId, step: CopyStep)
    requires KeysOk(w) && EntriesOk(w) && ListOk(w) && CanCopy(w, c, step)
    requires step.Abandon? ==>
      w.calls[c].copy.value !in w.listed && w.entries[w.copies[w.calls[c].copy.value].entry].refs > 0
    ensures KeysOk(DoCopy(w, c, step)) && EntriesOk(DoCopy(w, c, step)) && ListOk(DoCopy(w, c, step))
  {
    if step.Sweep? { Erased(w.listed, step.i); }
  }

  lemma CopyLinks(w: World, c: CallId, step: CopyStep)
    requires RefsOk(w) && LinksOk(w) && CanCopy(w, c, step)
    ensures LinksOk(DoCopy(w, c, step))
  {
    assert CallOk(w, c, w.calls[c]);
    CopyFollowsStep(w, c, step);
    CallCounts(w, c);
    if step.Abandon? { assert CopyOk(w, w.calls[c].copy.value, w.copies[w.calls[c].copy.value]); }
    CopyRest(w, c, step);
    CopyChanges(w, c, step);
    OthersKeepLinks(w, DoCopy(w, c, step), c, CopyOf(w, c, step), 0);
  }

  lemma GpuLinks(w: World, k: CopyId)
    requires LinksOk(w) && k in w.copies
    ensures LinksOk(DoGpu(w, k))
  {
    assert CopyOk(w, k, w.copies[k]);
    var place := w.copies[k].place;
    var c := if place.InCall? then place.c else 0;
    if c in w.calls { assert CallOk(w, c, w.calls[c]); }
    GpuMoves(w, k, 0);
    OthersKeepLinks(w, DoGpu(w, k), c, k, 0);
  }

  lemma TeardownFollows(w: World, step: TeardownStep)
    requires CanTeardown(w, step) && (step.Query? || step.DropListed? ==> w.calls == map[])
    requires 0 in w.calls ==> CallOk(w, 0, w.calls[0])
    requires TornCopy(w, step) in w.copies ==> CopyOk(w, TornCopy(w, step), w.copies[TornCopy(w, step)])
    requires step.DropListed? ==>
      NoDuplicates(w.listed) && (w.copies[w.listed[0]].over || w.copies[w.listed[0]].verdict == WasRunning)
    ensures LinksFollow(w, DoTeardown(w, step), 0, TornCopy(w, step))
  {
    if step.DropListed? {
      DropListedFollows(w);
    } else if step.Query? {
      QueryFollows(w);
    } else {
      RestFollows(w, step);
    }
  }

  lemma RestFollows(w: World, step: TeardownStep)
    requires CanTeardown(w, step) && !step.DropListed? && !step.Query?
    requires 0 in w.calls ==> CallOk(w, 0, w.calls[0])
    ensures LinksFollow(w, DoTeardown(w, step), 0, 0)
  {
    var w' := DoTeardown(w, step);
    assert w'.calls == w.calls && w'.copies == w.copies && w'.listed == w.listed && Grows(w, w');
  }

  lemma QueryFollows(w: World)
    requires CanTeardown(w, Query) && w.calls == map[]
    requires CopyOk(w, w.listed[w.stage.next], w.copies[w.listed[w.stage.next]])
    ensures LinksFollow(w, DoTeardown(w, Query), 0, w.listed[w.stage.next])
  {
  }

  lemma DropListedFollows(w: World)
    requires CanTeardown(w, DropListed) && w.calls == map[] && NoDuplicates(w.listed)
    requires CopyOk(w, w.listed[0], w.copies[w.listed[0]])
    requires w.copies[w.listed[0]].over || w.copies[w.listed[0]].verdict == WasRunning
    ensures LinksFollow(w, DoTeardown(w, DropListed), 0, w.listed[0])
  {
    Erased(w.listed, 0);
    assert Erase(w.listed, 0) == w.listed[1..];
  }

  lemma TeardownRest(w: World, step: TeardownStep)
    requires KeysOk(w) && EntriesOk(w) && ListOk(w) && CanTeardown(w, step)
    requires step.Query? ==> w.entries[w.copies[TornCopy(w, step)].entry].staging == Allocated
    ensures KeysOk(DoTeardown(w, step)) && EntriesOk(DoTeardown(w, step)) && ListOk(DoTeardown(w, step))
  {
  }

  lemma TeardownLinks(w: World, step: TeardownStep)
    requires RefsOk(w) && LinksOk(w) && StageOk(w) && VerdictsOk(w) && CanTeardown(w, step)
    ensures LinksOk(DoTeardown(w, step))
  {
    if TornCopy(w, step) in w.copies { assert CopyOk(w, TornCopy(w, step), w.copies[TornCopy(w, step)]); }
    if 0 in w.calls { assert CallOk(w, 0, w.calls[0]); }
    TeardownFollows(w, step);
    if step.Query? {
      CopyCounts(w, TornCopy(w, step));
      assert EntryOk(w.entries[w.copies[TornCopy(w, step)].entry]);
    }
    TeardownRest(w, step);
    TeardownChanges(w, step);
    OthersKeepLinks(w, DoTeardown(w, step), 0, TornCopy(w, step), TornKey(step));
  }

  lemma LinksKept(w: World, step: Step)
    requires Inv(w) && Enabled(w, step)
    ensures LinksOk(Apply(w, step))
  {
    match step
    case OfTable(c, s) => TableLinks(w, c, s);
    case OfRegister(c, s) => RegisterLinks(w, c, s);
    case OfCopy(c, s) => CopyLinks(w, c, s);
    case GpuFinish(k) => GpuLinks(w, k);
    case OfTeardown(s) => TeardownLinks(w, s);
  }

  // ----- Proofs: stages and verdicts -----

  lemma StageKept(w: World, step: Step)
    requires StageOk(w) && ListOk(w) && Enabled(w, step)
    ensures StageOk(Apply(w, step))
  {
    match step
    case OfTable(c, s) => TableStage(w, c, s);
    case OfRegister(c, s) => RegisterStage(w, c, s);
    case OfCopy(c, s) => CopyStage(w, c, s);
    case GpuFinish(k) => GpuStage(w, k);
    case OfTeardown(s) => TeardownStage(w, s);
  }

  lemma TableStage(w: World, c: CallId, step: TableStep)
    requires StageOk(w) && CanTable(w, c, step)
    ensures StageOk(DoTable(w, c, step))
  {
  }

  lemma RegisterStage(w: World, c: CallId, step: RegisterStep)
    requires StageOk(w) && CanRegister(w, c, step)
    ensures StageOk(DoRegister(w, c, step))
  {
  }

  lemma CopyStage(w: World, c: CallId, step: CopyStep)
    requires StageOk(w) && CanCopy(w, c, step)
    ensures StageOk(DoCopy(w, c, step))
  {
    assert w.stage.Serving?;
  }

  lemma GpuStage(w: World, k: CopyId)
    requires StageOk(w) && k in w.copies
    ensures StageOk(DoGpu(w, k))
  {
  }

  lemma TeardownStage(w: World, step: TeardownStep)
    requires StageOk(w) && ListOk(w) && CanTeardown(w, step)
    ensures StageOk(DoTeardown(w, step))
  {
    if step.DropListed? {
      assert forall i :: 0 <= i < |w.listed[1..]| ==> w.listed[1..][i] == w.listed[i + 1];
    }
  }

  /** Copies keep their entry and verdict, and what is over stays over. */
  predicate CopiesGrow(w: World, w': World) {
    forall k :: k in w.copies ==>
      && k in w'.copies && w'.copies[k].entry == w.copies[k].entry && w'.copies[k].verdict == w.copies[k].verdict
      && (w.copies[k].over ==> w'.copies[k].over)
  }

  predicate NoNewVerdicts(w: World, w': World) {
    && CopiesGrow(w, w')
    && (forall k :: k in w'.copies && k !in w.copies ==> w'.copies[k].verdict == NotAsked)
    && (forall e :: e in w'.entries && w'.entries[e].leak ==> e in w.entries && w.entries[e].leak)
  }

  lemma VerdictsFollow(w: World, w': World)
    requires VerdictsOk(w) && NoNewVerdicts(w, w')
    ensures VerdictsOk(w')
  {
    forall e | e in w'.entries && w'.entries[e].leak
      ensures LeakJustified(w', e)
    {
      assert LeakJustified(w, e);
      var k :| k in w.copies && w.copies[k].entry == e && w.copies[k].verdict == WasRunning;
      assert k in w'.copies && w'.copies[k].entry == e;
    }
  }

  lemma QueryVerdicts(w: World)
    requires VerdictsOk(w) && StageOk(w) && CanTeardown(w, Query)
    ensures VerdictsOk(DoTeardown(w, Query))
  {
    var w' := DoTeardown(w, Query);
    var q := w.listed[w.stage.next];
    forall e | e in w'.entries && w'.entries[e].leak
      ensures LeakJustified(w', e)
    {
      if !w.copies[q].over && e == w.copies[q].entry {
        assert w'.copies[q].entry == e && w'.copies[q].verdict == WasRunning;
      } else {
        assert LeakJustified(w, e);
        var k :| k in w.copies && w.copies[k].entry == e && w.copies[k].verdict == WasRunning;
        assert k != q;
        assert k in w'.copies && w'.copies[k].entry == e;
      }
    }
  }

  lemma TeardownVerdicts(w: World, step: TeardownStep)
    requires VerdictsOk(w) && StageOk(w) && CanTeardown(w, step)
    ensures VerdictsOk(DoTeardown(w, step))
  {
    if step.Query? { QueryVerdicts(w); } else { VerdictsFollow(w, DoTeardown(w, step)); }
  }

  lemma CopyVerdicts(w: World, c: CallId, step: CopyStep)
    requires VerdictsOk(w) && CanCopy(w, c, step)
    ensures VerdictsOk(DoCopy(w, c, step))
  {
    NoNewVerdictsInCopy(w, c, step);
    VerdictsFollow(w, DoCopy(w, c, step));
  }

  lemma NoNewVerdictsInCopy(w: World, c: CallId, step: CopyStep)
    requires CanCopy(w, c, step)
    ensures NoNewVerdicts(w, DoCopy(w, c, step))
  {
  }

  lemma TableVerdicts(w: World, c: CallId, step: TableStep)
    requires VerdictsOk(w) && CanTable(w, c, step)
    ensures VerdictsOk(DoTable(w, c, step))
  {
    VerdictsFollow(w, DoTable(w, c, step));
  }

  lemma RegisterVerdicts(w: World, c: CallId, step: RegisterStep)
    requires VerdictsOk(w) && CanRegister(w, c, step)
    ensures VerdictsOk(DoRegister(w, c, step))
  {
    VerdictsFollow(w, DoRegister(w, c, step));
  }

  lemma VerdictsKept(w: World, step: Step)
    requires VerdictsOk(w) && StageOk(w) && Enabled(w, step)
    ensures VerdictsOk(Apply(w, step))
  {
    match step
    case OfTable(c, s) => TableVerdicts(w, c, s);
    case OfRegister(c, s) => RegisterVerdicts(w, c, s);
    case OfCopy(c, s) => CopyVerdicts(w, c, s);
    case GpuFinish(k) => VerdictsFollow(w, DoGpu(w, k));
    case OfTeardown(s) => TeardownVerdicts(w, s);
  }

  // ----- Proofs: the log of registrations -----

  lemma LogSame(w: World, w': World)
    requires LogOk(w) && w'.log == w.log && w'.table.Keys <= w.table.Keys
    requires w'.stage.Serving? ==> w.stage.Serving? && w'.table.Keys == w.table.Keys
    ensures LogOk(w')
  {
    assert |w'.table.Keys| <= |w.table.Keys| by { SubsetSize(w'.table.Keys, w.table.Keys); }
  }

  lemma SubsetSize(a: set<uint64>, b: set<uint64>)
    requires a <= b
    ensures |a| <= |b|
  {
    assert b == a + (b - a);
  }

  /** Removing an address closes its registration. */
  lemma LogRemove(w: World, w': World, key: uint64)
    requires LogOk(w) && w.stage.Serving? && w'.stage == w.stage
    requires w'.table == w.table - {key} && w'.log == w.log + [WasDeregistered(key)]
    ensures LogOk(w')
  {
    SubsetSize(w'.table.Keys, w.table.Keys);
    var n := |w.log|;
    forall i, k | 0 <= i < |w'.log| && w'.log[i] == WasRegistered(k) && k !in w'.table
      ensures Closed(w'.log, i, k)
    {
      if k == key {
        assert w'.log[n] == WasDeregistered(k);
      } else {
        assert Closed(w.log, i, k);
        var m :| i < m < |w.log| && w.log[m] == WasDeregistered(k);
        assert w'.log[m] == WasDeregistered(k);
      }
    }
    forall i, j | 0 <= i < j < |w'.log| && w'.log[i].WasRegistered? && w'.log[j] == w'.log[i]
      ensures ClosedBefore(w'.log, i, j, w'.log[i].key)
    {
      assert ClosedBefore(w.log, i, j, w.log[i].key);
      var m :| i < m < j && m < |w.log| && w.log[m] == WasDeregistered(w.log[i].key);
      assert w'.log[m] == w.log[m];
    }
  }

  /** Inserting an address that is not in the table finds its earlier registrations closed. */
  lemma LogInsert(w: World, w': World, key: uint64, e: EntryId)
    requires LogOk(w) && w.stage.Serving? && w'.stage == w.stage && Refusal(w.table.Keys, key).None?
    requires w'.table == w.table[key := e] && w'.log == w.log + [WasRegistered(key)]
    ensures LogOk(w')
  {
    assert w'.table.Keys == w.table.Keys + {key};
    var n := |w.log|;
    forall i, k | 0 <= i < |w'.log| && w'.log[i] == WasRegistered(k) && k !in w'.table
      ensures Closed(w'.log, i, k)
    {
      assert i < n && Closed(w.log, i, k);
      var m :| i < m < |w.log| && w.log[m] == WasDeregistered(k);
      assert w'.log[m] == WasDeregistered(k);
    }
    forall i, j | 0 <= i < j < |w'.log| && w'.log[i].WasRegistered? && w'.log[j] == w'.log[i]
      ensures ClosedBefore(w'.log, i, j, w'.log[i].key)
    {
      if j == n {
        assert Closed(w.log, i, key);
        var m :| i < m < |w.log| && w.log[m] == WasDeregistered(key);
        assert w'.log[m] == w.log[m];
      } else {
        assert ClosedBefore(w.log, i, j, w.log[i].key);
        var m :| i < m < j && m < |w.log| && w.log[m] == WasDeregistered(w.log[i].key);
        assert w'.log[m] == w.log[m];
      }
    }
  }

  lemma LogKept(w: World, step: Step)
    requires LogOk(w) && StageOk(w) && Enabled(w, step)
    ensures LogOk(Apply(w, step))
  {
    match step
    case OfTable(c, s) =>
      if s.Remove? { LogRemove(w, DoTable(w, c, s), s.key); } else { LogSame(w, DoTable(w, c, s)); }
    case OfRegister(c, s) => RegisterLog(w, c, s);
    case OfCopy(c, s) => CopyLog(w, c, s);
    case GpuFinish(k) => LogSame(w, DoGpu(w, k));
    case OfTeardown(s) => TeardownLog(w, s);
  }

  lemma CopyLog(w: World, c: CallId, step: CopyStep)
    requires LogOk(w) && CanCopy(w, c, step)
    ensures LogOk(DoCopy(w, c, step))
  {
    LogSame(w, DoCopy(w, c, step));
  }

  lemma TeardownLog(w: World, step: TeardownStep)
    requires LogOk(w) && CanTeardown(w, step)
    ensures LogOk(DoTeardown(w, step))
  {
    LogSame(w, DoTeardown(w, step));
  }

  lemma RegisterLog(w: World, c: CallId, step: RegisterStep)
    requires LogOk(w) && StageOk(w) && CanRegister(w, c, step)
    ensures LogOk(DoRegister(w, c, step))
  {
    var w' := DoRegister(w, c, step);
    if step.Insert? && w'.log != w.log {
      var e := w.calls[c].raw.e;
      LogInsert(w, w', w.entries[e].key, e);
    } else {
      LogSame(w, w');
    }
  }

  // ----- Proofs: memory regions and staging buffers -----

  predicate CallBit(w: World, c: CallId, f: Call -> bool) { c in w.calls && f(w.calls[c]) }
  predicate EntryBit(w: World, e: EntryId, f: Entry -> bool) { e in w.entries && f(w.entries[e]) }

  predicate OneEntry(w: World, w': World, c: CallId, e: EntryId) {
    w'.calls - {c} == w.calls - {c} && w'.entries - {e} == w.entries - {e}
  }

  /** The counters move with the one call and the one entry that change. */
  predicate ResourcesMove(w: World, w': World, c: CallId, e: EntryId) {
    && (w.reserved >= Bit(CallBit(w, c, HasSlot)) ==>
          w'.reserved - Bit(CallBit(w', c, HasSlot)) == w.reserved - Bit(CallBit(w, c, HasSlot)))
    && w'.mrsMade - w'.mrsFreed - Bit(CallBit(w', c, RawHasMr)) - Bit(EntryBit(w', e, HasMr))
       == w.mrsMade - w.mrsFreed - Bit(CallBit(w, c, RawHasMr)) - Bit(EntryBit(w, e, HasMr))
    && w'.hostsMade - w'.hostsFreed - Bit(CallBit(w', c, RawHasHost)) - Bit(EntryBit(w', e, HasHost))
       == w.hostsMade - w.hostsFreed - Bit(CallBit(w, c, RawHasHost)) - Bit(EntryBit(w, e, HasHost))
  }

  lemma ResourcesFollow(w: World, w': World, c: CallId, e: EntryId)
    requires ResourcesOk(w) && OneEntry(w, w', c, e) && ResourcesMove(w, w', c, e)
    ensures ResourcesOk(w')
  {
    MapCountRemove(w.calls, c, HasSlot);
    MapCountRemove(w'.calls, c, HasSlot);
    MapCountRemove(w.calls, c, RawHasMr);
    MapCountRemove(w'.calls, c, RawHasMr);
    MapCountRemove(w.calls, c, RawHasHost);
    MapCountRemove(w'.calls, c, RawHasHost);
    MapCountRemove(w.entries, e, HasMr);
    MapCountRemove(w'.entries, e, HasMr);
    MapCountRemove(w.entries, e, HasHost);
    MapCountRemove(w'.entries, e, HasHost);
  }

  function TableEntry(w: World, c: CallId, step: TableStep): EntryId
    requires CanTable(w, c, step)
  {
    if step.Find? then w.table[step.key] else if step.DropEntry? then w.calls[c].entry.value else 0
  }

  lemma TableResources(w: World, c: CallId, step: TableStep)
    requires CanTable(w, c, step)
    requires TableEntry(w, c, step) in w.entries ==> EntryOk(w.entries[TableEntry(w, c, step)])
    ensures ResourcesMove(w, DoTable(w, c, step), c, TableEntry(w, c, step))
  {
  }

  lemma TableOneEntry(w: World, c: CallId, step: TableStep)
    requires CanTable(w, c, step)
    ensures OneEntry(w, DoTable(w, c, step), c, TableEntry(w, c, step))
  {
  }

  function RegisterEntry(w: World, c: CallId, step: RegisterStep): EntryId
    requires CanRegister(w, c, step)
  {
    if step.MakeEntry? then step.e else if w.calls[c].raw.NewEntry? then w.calls[c].raw.e else 0
  }

  lemma AbandonResources(w: World, c: CallId)
    requires CanRegister(w, c, AbandonRegistration)
    requires w.calls[c].raw.NewEntry? ==> EntryOk(w.entries[w.calls[c].raw.e])
    ensures ResourcesMove(w, DoRegister(w, c, AbandonRegistration), c, RegisterEntry(w, c, AbandonRegistration))
  {
  }

  lemma MakingResources(w: World, c: CallId, step: RegisterStep)
    requires CanRegister(w, c, step) && !step.AbandonRegistration?
    ensures ResourcesMove(w, DoRegister(w, c, step), c, RegisterEntry(w, c, step))
  {
  }

  lemma RegisterResources(w: World, c: CallId, step: RegisterStep)
    requires CanRegister(w, c, step)
    requires RegisterEntry(w, c, step) in w.entries ==> EntryOk(w.entries[RegisterEntry(w, c, step)])
    ensures ResourcesMove(w, DoRegister(w, c, step), c, RegisterEntry(w, c, step))
  {
    if step.AbandonRegistration? { AbandonResources(w, c); } else { MakingResources(w, c, step); }
  }

  lemma RegisterOneEntry(w: World, c: CallId, step: RegisterStep)
    requires CanRegister(w, c, step)
    ensures OneEntry(w, DoRegister(w, c, step), c, RegisterEntry(w, c, step))
  {
    var w' := DoRegister(w, c, step);
    assert w'.calls - {c} == w.calls - {c};
  }

  function CopyEntry(w: World, c: CallId, step: CopyStep): EntryId
    requires CanCopy(w, c, step)
  {
    if step.Abandon? then w.copies[w.calls[c].copy.value].entry
    else if step.DropSwept? then w.copies[step.k].entry else 0
  }

  lemma CopyResources(w: World, c: CallId, step: CopyStep)
    requires CanCopy(w, c, step) && (CopyEntry(w, c, step) in w.entries ==> EntryOk(w.entries[CopyEntry(w, c, step)]))
    ensures ResourcesMove(w, DoCopy(w, c, step), c, CopyEntry(w, c, step))
  {
    if step.DropSwept? {
      SweptResources(w, c, step.k);
    } else if step.Reserve? || step.GiveBack? || step.Abandon? {
      SlotResources(w, c, step);
    } else {
      TrackResources(w, c, step);
    }
  }

  lemma SlotResources(w: World, c: CallId, step: CopyStep)
    requires CanCopy(w, c, step) && (step.Reserve? || step.GiveBack? || step.Abandon?)
    ensures ResourcesMove(w, DoCopy(w, c, step), c, CopyEntry(w, c, step))
  {
  }

  lemma TrackResources(w: World, c: CallId, step: CopyStep)
    requires CanCopy(w, c, step) && (step.Check? || step.StartCopy? || step.SeeOver? || step.Sweep?)
    ensures ResourcesMove(w, DoCopy(w, c, step), c, CopyEntry(w, c, step))
  {
  }

  lemma SweptResources(w: World, c: CallId, k: CopyId)
    requires CanCopy(w, c, DropSwept(k)) && EntryOk(w.entries[w.copies[k].entry])
    ensures ResourcesMove(w, DoCopy(w, c, DropSwept(k)), c, w.copies[k].entry)
  {
  }

  lemma CopyOneEntry(w: World, c: CallId, step: CopyStep)
    requires CanCopy(w, c, step)
    ensures OneEntry(w, DoCopy(w, c, step), c, CopyEntry(w, c, step))
  {
  }

  function TornEntry(w: World, step: TeardownStep): EntryId
    requires CanTeardown(w, step)
  {
    if step.Query? || step.DropListed? then w.copies[TornCopy(w, step)].entry
    else if step.DropTable? then w.table[step.key] else 0
  }

  lemma TeardownResources(w: World, step: TeardownStep)
    requires CanTeardown(w, step) && (TornEntry(w, step) in w.entries ==> EntryOk(w.entries[TornEntry(w, step)]))
    ensures ResourcesMove(w, DoTeardown(w, step), 0, TornEntry(w, step))
  {
    if step.DropListed? {
      DropListedResources(w);
    } else if step.DropTable? {
      DropTableResources(w, step.key);
    } else if step.Query? {
      QueryResources(w);
    }
  }

  lemma DropListedResources(w: World)
    requires CanTeardown(w, DropListed) && EntryOk(w.entries[w.copies[w.listed[0]].entry])
    ensures ResourcesMove(w, DoTeardown(w, DropListed), 0, w.copies[w.listed[0]].entry)
  {
  }

  lemma DropTableResources(w: World, key: uint64)
    requires CanTeardown(w, DropTable(key)) && EntryOk(w.entries[w.table[key]])
    ensures ResourcesMove(w, DoTeardown(w, DropTable(key)), 0, w.table[key])
  {
  }

  lemma QueryResources(w: World)
    requires CanTeardown(w, Query)
    ensures ResourcesMove(w, DoTeardown(w, Query), 0, w.copies[w.listed[w.stage.next]].entry)
  {
  }

  lemma TeardownOneEntry(w: World, step: TeardownStep)
    requires CanTeardown(w, step)
    ensures OneEntry(w, DoTeardown(w, step), 0, TornEntry(w, step))
  {
  }

  lemma ResourcesKept(w: World, step: Step)
    requires ResourcesOk(w) && EntriesOk(w) && Enabled(w, step)
    ensures ResourcesOk(Apply(w, step))
  {
    match step
    case OfTable(c, s) =>
      TableResources(w, c, s);
      TableOneEntry(w, c, s);
      ResourcesFollow(w, DoTable(w, c, s), c, TableEntry(w, c, s));
    case OfRegister(c, s) =>
      RegisterResources(w, c, s);
      RegisterOneEntry(w, c, s);
      ResourcesFollow(w, DoRegister(w, c, s), c, RegisterEntry(w, c, s));
    case OfCopy(c, s) =>
      CopyResources(w, c, s);
      CopyOneEntry(w, c, s);
      ResourcesFollow(w, DoCopy(w, c, s), c, CopyEntry(w, c, s));
    case GpuFinish(k) => ResourcesFollow(w, DoGpu(w, k), 0, 0);
    case OfTeardown(s) =>
      TeardownResources(w, s);
      TeardownOneEntry(w, s);
      ResourcesFollow(w, DoTeardown(w, s), 0, TornEntry(w, s));
  }

  lemma StepKeepsInv(w: World, step: Step)
    requires Inv(w) && Enabled(w, step)
    ensures Inv(Apply(w, step))
  {
    RefsKept(w, step);
    LinksKept(w, step);
    StageKept(w, step);
    VerdictsKept(w, step);
    LogKept(w, step);
    ResourcesKept(w, step);
  }
}
