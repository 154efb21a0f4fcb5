/** stageCopyWithDeadline(): an asynchronous copy polled to a deadline. */
module StageCopy {
  import opened Basics
  import opened Buffers
  import opened Transport
  import opened AbandonedList

  datatype StageEnd = Copied | StageFailed | GaveUp

  /** What the HIP runtime answers: whether it creates the event, starts the copy and records the
      event, and, once the copy is over, whether it succeeded. */
  datatype HipAnswers = HipAnswers(event: bool, start: bool, record: bool, success: bool)

  /** The copy was started and its event recorded. */
  predicate Recorded(hip: HipAnswers) { hip.event && hip.start && hip.record }

  /** Copies through `entry`'s staging buffer, tracked by event `done`, for at most `timeout` ms after
      it starts to wait. However it ends, a copy that was recorded is over or has been handed to the
      abandoned list together with a reference to its registration, and the room set aside for that
      is never left over. A copy that is over already is never given up, and it asks before it sleeps. */
  method StageCopyWithDeadline(list: AbandonedCopies, entry: BufEntry, done: Event, gpu: Gpu, clock: Clock,
                               timeout: nat, hip: HipAnswers)
    returns (r: StageEnd)
    requires list.Valid() && entry.refs > 0 && forall c :: c in list.copies ==> c.done != done
    modifies list, gpu, clock, entry`refs
    ensures list.Valid() && list.slots == old(list.slots)
    ensures !Recorded(hip) ==> r == StageFailed
    ensures Recorded(hip) && r != GaveUp ==> done in gpu.over && r == if hip.success then Copied else StageFailed
    ensures done in old(gpu.over) ==> r != GaveUp
    ensures Recorded(hip) ==> gpu.queries - old(gpu.queries) == clock.sleeps - old(clock.sleeps) + 1
    ensures r == GaveUp ==>
      && list.copies == old(list.copies) + [Copy(entry, done)] && entry.refs == old(entry.refs) + 1
      && clock.now >= old(clock.now) + timeout
    ensures r != GaveUp ==> list.copies == old(list.copies) && entry.refs == old(entry.refs)
  {
    var slot := list.Reserve();
    if !hip.event {
      list.GiveBack(slot);
      return StageFailed;
    }
    if !hip.start || !hip.record {
      list.GiveBack(slot);
      return StageFailed;
    }
    var start := clock.Read();
    var deadline := start + timeout;
    var now := start;
    while true
      invariant list.Valid() && list.slots == old(list.slots) + {slot} && fresh(slot)
      invariant list.copies == old(list.copies) && entry.refs == old(entry.refs) && old(gpu.over) <= gpu.over
      invariant gpu.queries - old(gpu.queries) == clock.sleeps - old(clock.sleeps)
      invariant old(clock.now) <= start <= now <= clock.now && deadline == start + timeout
      decreases deadline + 1 - now
    {
      var over := gpu.IsOver(done);
      if over {
        list.GiveBack(slot);
        return if hip.success then Copied else StageFailed;
      }
      now := clock.Read();
      if now >= deadline {
        entry.refs := entry.refs + 1;
        list.Add(slot, done, entry);
        return GaveUp;
      }
      clock.Sleep();
      now := clock.now;
    }
  }

  /** checkNoAbandonedCopy(): a call may use a staging buffer only when none of its abandoned copies
      is still in the list; one that is refused leaves the copies that are running where they are. */
  method CheckNoAbandonedCopy(list: AbandonedCopies, entry: BufEntry, gpu: Gpu) returns (busy: bool)
    requires list.Valid()
    modifies list`copies, gpu
    ensures list.Valid() && old(gpu.over) <= gpu.over
    ensures entry.reg.hostBuf == 0 ==> !busy && list.copies == old(list.copies)
    ensures entry.reg.hostBuf != 0 && !busy ==> forall c :: c in list.copies ==> c.entry != entry
    ensures entry.reg.hostBuf != 0 && !busy ==>
      forall c :: c in old(list.copies) && c.entry == entry ==> c.done in gpu.over
    ensures forall c :: c in old(list.copies) && c.done !in gpu.over ==> c in list.copies
    ensures forall c :: c in list.copies ==> c in old(list.copies)
    ensures busy ==> exists c :: c in list.copies && c.entry == entry && c.done !in old(gpu.over)
    ensures (forall c :: c in old(list.copies) && c.entry == entry ==> c.done in old(gpu.over)) ==> !busy
  {
    if entry.reg.hostBuf == 0 {
      return false;
    }
    ghost var before := list.copies;
    var running, released, over := list.Release(entry, gpu);
    forall c | c in before && c.done !in gpu.over
      ensures c in list.copies
    {
      var i :| 0 <= i < |before| && before[i] == c;
      EachGoes(before, entry, over, i);
    }
    forall c | c in list.copies
      ensures c in before
    {
      KeptAndGone(before, entry, over);
      assert c in multiset(Kept(before, entry, over));
      assert c in multiset(before);
    }
    if running {
      ghost var i :| 0 <= i < |before| && Concerns(before[i], entry) && !over[i];
      EachGoes(before, entry, over, i);
    }
    return running;
  }
}
