/** Staging copies that timed out, each with the event that tracks it and the registration whose
    staging buffer it uses. */
module AbandonedList {
  import opened Basics
  import opened Buffers

  type Event = nat

  /** The GPU finishes copies whenever it gets to them: once over, an event stays over. */
  class Gpu {
    var over: set<Event>
    /** How many times it was asked. */
    ghost var queries: nat

    /** Whether the copy that `e` tracks is over. A query that fails also means over. */
    method IsOver(e: Event) returns (r: bool)
      modifies this
      ensures old(over) <= over && queries == old(queries) + 1
      ensures r <==> e in over
    {
      var finished: set<Event> := *;
      over, queries := over + finished, queries + 1;
      r := e in over;
    }
  }

  datatype Copy = Copy(entry: BufEntry, done: Event)

  /** Room in the list for one copy. */
  class Slot {
    /** Null once add() has used the room, or it has been moved from. */
    var list: AbandonedCopies?

    constructor (l: AbandonedCopies?)
      ensures list == l
    {
      list := l;
    }
  }

  /** Each copy has an event of its own. */
  predicate DistinctEvents(cs: seq<Copy>) {
    forall i, j :: 0 <= i < j < |cs| ==> cs[i].done != cs[j].done
  }

  predicate Concerns(c: Copy, entry: BufEntry?) {
    entry == null || c.entry == entry
  }

  /** The copies that stay when each one's event answered `over`. */
  function Kept(cs: seq<Copy>, entry: BufEntry?, over: seq<bool>): seq<Copy>
    requires |over| == |cs|
  {
    if cs == [] then []
    else
      var last := |cs| - 1;
      Kept(cs[..last], entry, over[..last])
      + (if Concerns(cs[last], entry) && over[last] then [] else [cs[last]])
  }

  function Gone(cs: seq<Copy>, entry: BufEntry?, over: seq<bool>): seq<Copy>
    requires |over| == |cs|
  {
    if cs == [] then []
    else
      var last := |cs| - 1;
      Gone(cs[..last], entry, over[..last])
      + (if Concerns(cs[last], entry) && over[last] then [cs[last]] else [])
  }

  /** The two parts are the list: nothing is lost, doubled or made up. */
  lemma {:induction false} KeptAndGone(cs: seq<Copy>, entry: BufEntry?, over: seq<bool>)
    requires |over| == |cs|
    ensures multiset(Kept(cs, entry, over)) + multiset(Gone(cs, entry, over)) == multiset(cs)
  {
    if cs == [] {
    } else {
      var last := |cs| - 1;
      KeptAndGone(cs[..last], entry, over[..last]);
      assert cs == cs[..last] + [cs[last]];
      var kept, gone := Kept(cs[..last], entry, over[..last]), Gone(cs[..last], entry, over[..last]);
      if Concerns(cs[last], entry) && over[last] {
        assert Kept(cs, entry, over) == kept;
        OneMore(cs[..last], kept, gone, cs[last]);
      } else {
        assert Gone(cs, entry, over) == gone;
        OneMore(cs[..last], kept, gone, cs[last]);
      }
    }
  }

  lemma OneMore(cs: seq<Copy>, kept: seq<Copy>, gone: seq<Copy>, c: Copy)
    requires multiset(kept) + multiset(gone) == multiset(cs)
    ensures multiset(kept + [c]) + multiset(gone) == multiset(cs + [c])
    ensures multiset(kept) + multiset(gone + [c]) == multiset(cs + [c])
  {
  }

  /** Where each copy ends up: it leaves if it concerns the entry and is over, and stays if not. */
  lemma {:induction false} EachGoes(cs: seq<Copy>, entry: BufEntry?, over: seq<bool>, i: nat)
    requires |over| == |cs| && i < |cs|
    ensures if Concerns(cs[i], entry) && over[i] then cs[i] in Gone(cs, entry, over)
            else cs[i] in Kept(cs, entry, over)
  {
    var last := |cs| - 1;
    if i == last {
    } else {
      EachGoes(cs[..last], entry, over[..last], i);
    }
  }

  /** Exactly the copies that concern the entry and are over leave, and exactly the others stay. An
      event tracks one copy, so the copies are distinct. */
  lemma WhoStays(cs: seq<Copy>, entry: BufEntry?, over: seq<bool>, i: nat)
    requires |over| == |cs| && i < |cs| && DistinctEvents(cs)
    ensures cs[i] in Gone(cs, entry, over) <==> Concerns(cs[i], entry) && over[i]
    ensures cs[i] in Kept(cs, entry, over) <==> !(Concerns(cs[i], entry) && over[i])
  {
    EachGoes(cs, entry, over, i);
    KeptAndGone(cs, entry, over);
    DistinctOnce(cs, i);
    assert multiset(cs)[cs[i]] == 1;
    assert cs[i] in Gone(cs, entry, over) ==> multiset(Gone(cs, entry, over))[cs[i]] >= 1;
    assert cs[i] in Kept(cs, entry, over) ==> multiset(Kept(cs, entry, over))[cs[i]] >= 1;
  }

  lemma DistinctOnce(cs: seq<Copy>, i: nat)
    requires i < |cs| && DistinctEvents(cs)
    ensures multiset(cs)[cs[i]] == 1
  {
    assert cs == cs[..i] + [cs[i]] + cs[i + 1..];
    assert cs[i] !in cs[..i] && cs[i] !in cs[i + 1..];
  }

  /** Every copy that concerns `entry` answered that it is over. */
  predicate AllOver(cs: seq<Copy>, entry: BufEntry?, over: seq<bool>)
    requires |over| == |cs|
  {
    forall i :: 0 <= i < |cs| && Concerns(cs[i], entry) ==> over[i]
  }

  /** The answers fit a GPU that finished `before` before the first and `after` by the last. */
  ghost predicate Answers(cs: seq<Copy>, entry: BufEntry?, over: seq<bool>, before: set<Event>, after: set<Event>)
    requires |over| <= |cs|
  {
    forall i :: 0 <= i < |over| && Concerns(cs[i], entry) ==>
      (over[i] ==> cs[i].done in after) && (cs[i].done in before ==> over[i])
  }

  /** When every copy that concerns `entry` is over, none of them stays. */
  lemma {:induction false} NoneKept(cs: seq<Copy>, entry: BufEntry?, over: seq<bool>)
    requires |over| == |cs|
    requires AllOver(cs, entry, over)
    ensures forall c :: c in Kept(cs, entry, over) ==> !Concerns(c, entry)
  {
    if cs == [] {
    } else {
      NoneKept(cs[..|cs| - 1], entry, over[..|cs| - 1]);
    }
  }

  /** Every copy concerns a call that names no entry. */
  lemma SomeIsConcerned(cs: seq<Copy>)
    requires cs != []
    ensures exists c :: c in cs && Concerns(c, null)
  {
    assert cs[0] in cs && Concerns(cs[0], null);
  }

  lemma SplitNext(cs: seq<Copy>, entry: BufEntry?, over: seq<bool>, n: nat, v: bool)
    requires n < |cs| && |over| == n
    ensures Kept(cs[..n + 1], entry, over + [v]) ==
      Kept(cs[..n], entry, over) + (if Concerns(cs[n], entry) && v then [] else [cs[n]])
    ensures Gone(cs[..n + 1], entry, over + [v]) ==
      Gone(cs[..n], entry, over) + (if Concerns(cs[n], entry) && v then [cs[n]] else [])
  {
    assert cs[..n + 1][..n] == cs[..n] && (over + [v])[..n] == over;
  }

  lemma AllOverNext(cs: seq<Copy>, entry: BufEntry?, over: seq<bool>, n: nat, v: bool)
    requires n < |cs| && |over| == n
    ensures AllOver(cs[..n + 1], entry, over + [v]) <==>
      AllOver(cs[..n], entry, over) && (Concerns(cs[n], entry) ==> v)
  {
    var more, answers := cs[..n + 1], over + [v];
    assert forall i :: 0 <= i < n ==> more[i] == cs[..n][i] && answers[i] == over[i];
    assert more[n] == cs[n] && answers[n] == v;
  }

  lemma AnswersNext(cs: seq<Copy>, entry: BufEntry?, over: seq<bool>, before: set<Event>, mid: set<Event>,
                    after: set<Event>, v: bool)
    requires |over| < |cs| && before <= mid <= after && Answers(cs, entry, over, before, mid)
    requires Concerns(cs[|over|], entry) ==> (v ==> cs[|over|].done in after) && (cs[|over|].done in mid ==> v)
    ensures Answers(cs, entry, over + [v], before, after)
  {
  }

  lemma Splice(cs: seq<Copy>, kept: seq<Copy>, orig: seq<Copy>, n: nat)
    requires n <= |orig| && cs == kept + orig[n..] && |kept| < |cs|
    ensures n < |orig| && cs[|kept|] == orig[n]
    ensures cs[..|kept|] + cs[|kept| + 1..] == kept + orig[n + 1..]
    ensures cs == kept + [orig[n]] + orig[n + 1..]
  {
  }

  /** Where release() is once it has looked at the first |over| copies. */
  ghost predicate Partway(orig: seq<Copy>, entry: BufEntry?, over: seq<bool>, cs: seq<Copy>, i: nat,
                          released: seq<Copy>, running: bool)
  {
    && |over| <= |orig|
    && i == |Kept(orig[..|over|], entry, over)|
    && cs == Kept(orig[..|over|], entry, over) + orig[|over|..]
    && released == Gone(orig[..|over|], entry, over)
    && (running <==> !AllOver(orig[..|over|], entry, over))
  }

  lemma PartwayNext(orig: seq<Copy>, entry: BufEntry?, over: seq<bool>, cs: seq<Copy>, i: nat,
                    released: seq<Copy>, running: bool, v: bool)
    requires Partway(orig, entry, over, cs, i, released, running) && i < |cs|
    requires v ==> Concerns(cs[i], entry)
    ensures |over| < |orig| && cs[i] == orig[|over|]
    ensures v ==> Partway(orig, entry, over + [v], cs[..i] + cs[i + 1..], i, released + [cs[i]], running)
    ensures !v ==> Partway(orig, entry, over + [v], cs, i + 1, released, running || Concerns(cs[i], entry))
  {
    Splice(cs, Kept(orig[..|over|], entry, over), orig, |over|);
    SplitNext(orig, entry, over, |over|, v);
    AllOverNext(orig, entry, over, |over|, v);
  }

  function Max(a: nat, b: nat): nat { if a < b then b else a }

  class AbandonedCopies {
    var copies: seq<Copy>
    var reserved: nat
    var capacity: nat
    /** The slots set aside and neither used nor given back. */
    ghost var slots: set<Slot>
    /** The most copies and slots there have ever been at once. */
    ghost var peak: nat
    /** The elements that all reallocations together have moved. */
    ghost var moved: nat

    ghost predicate Valid()
      reads this, slots
    {
      && reserved == |slots|
      && (forall s :: s in slots ==> s.list == this)
      && DistinctEvents(copies)
      && |copies| + reserved <= capacity
      && |copies| + reserved <= peak
      && 2 * capacity <= 3 * peak
      && moved <= 3 * capacity
    }

    constructor ()
      ensures Valid() && copies == [] && slots == {} && capacity == 0
    {
      copies, reserved, capacity, slots, peak, moved := [], 0, 0, {}, 0, 0;
    }

    /** Sets aside room for a copy about to start, growing by at least half when it must. */
    method Reserve() returns (slot: Slot)
      requires Valid()
      modifies this
      ensures Valid() && fresh(slot) && slots == old(slots) + {slot}
      ensures copies == old(copies)
      ensures |old(copies)| + old(reserved) + 1 <= old(capacity) ==> capacity == old(capacity) && moved == old(moved)
    {
      var needed := |copies| + reserved + 1;
      if needed > capacity {
        moved := moved + |copies|;
        capacity := Max(needed, capacity + capacity / 2);
      }
      reserved := reserved + 1;
      slot := new Slot(this);
      slots := slots + {slot};
      peak := Max(peak, |copies| + reserved);
    }

    /** Takes over a copy that timed out. There is always room, so nothing is reallocated. */
    method Add(slot: Slot, done: Event, entry: BufEntry)
      requires Valid() && slot in slots && forall c :: c in copies ==> c.done != done
      modifies this`copies, this`reserved, this`slots, slot
      ensures Valid() && slots == old(slots) - {slot} && slot.list == null
      ensures copies == old(copies) + [Copy(entry, done)]
      ensures |copies| <= capacity
    {
      copies := copies + [Copy(entry, done)];
      reserved := reserved - 1;
      slots := slots - {slot};
      slot.list := null;
    }

    /** A slot's destructor gives the room back, unless it was used or moved from. */
    method GiveBack(slot: Slot)
      requires Valid() && (slot in slots || slot.list == null)
      modifies this`reserved, this`slots
      ensures Valid() && slots == old(slots) - {slot}
    {
      if slot.list != null {
        reserved := reserved - 1;
        slots := slots - {slot};
      }
    }

    /** Moving a slot hands the room over. */
    method MoveSlot(slot: Slot) returns (to: Slot)
      requires Valid() && slot in slots
      modifies this`slots, slot
      ensures Valid() && fresh(to) && slots == old(slots) - {slot} + {to} && slot.list == null
    {
      to := new Slot(this);
      slot.list := null;
      slots := slots - {slot} + {to};
    }

    /** Looks at the copy at `i`, and erases it if it concerns `entry` and is over. */
    method Visit(i: nat, entry: BufEntry?, gpu: Gpu) returns (gone: bool)
      requires Valid() && i < |copies|
      modifies this`copies, gpu
      ensures Valid() && old(gpu.over) <= gpu.over
      ensures gone ==> Concerns(old(copies)[i], entry) && old(copies)[i].done in gpu.over
      ensures Concerns(old(copies)[i], entry) && old(copies)[i].done in old(gpu.over) ==> gone
      ensures copies == if gone then old(copies)[..i] + old(copies)[i + 1..] else old(copies)
    {
      if !Concerns(copies[i], entry) {
        return false;
      }
      gone := gpu.IsOver(copies[i].done);
      if gone {
        copies := copies[..i] + copies[i + 1..];
      }
    }

    /** Looks at the next copy on the way through the list. */
    method ReleaseNext(entry: BufEntry?, gpu: Gpu, ghost orig: seq<Copy>, ghost over: seq<bool>, i: nat,
                       released: seq<Copy>, running: bool, ghost before: set<Event>)
      returns (running': bool, released': seq<Copy>, ghost over': seq<bool>, i': nat)
      requires Valid() && i < |copies| && before <= gpu.over
      requires Partway(orig, entry, over, copies, i, released, running) && Answers(orig, entry, over, before, gpu.over)
      modifies this`copies, gpu
      ensures Valid() && old(gpu.over) <= gpu.over && |over'| == |over| + 1 <= |orig| && |copies| <= old(|copies|)
      ensures Partway(orig, entry, over', copies, i', released', running')
      ensures Answers(orig, entry, over', before, gpu.over)
    {
      var c := copies[i];
      ghost var seen, was := gpu.over, copies;
      var v := Visit(i, entry, gpu);
      PartwayNext(orig, entry, over, was, i, released, running, v);
      AnswersNext(orig, entry, over, before, seen, gpu.over, v);
      over' := over + [v];
      if v {
        running', released', i' := running, released + [c], i;
      } else {
        running', released', i' := running || Concerns(c, entry), released, i + 1;
      }
    }

    /** Releases the copies of `entry`, or of every registration when it is null, that are over.
        `over` is what each copy's event answered, at some moment during the call. */
    method Release(entry: BufEntry?, gpu: Gpu)
      returns (stillRunning: bool, released: seq<Copy>, ghost over: seq<bool>)
      requires Valid()
      modifies this`copies, gpu
      ensures Valid() && old(gpu.over) <= gpu.over
      ensures |over| == |old(copies)|
      ensures copies == Kept(old(copies), entry, over)
      ensures released == Gone(old(copies), entry, over)
      ensures Answers(old(copies), entry, over, old(gpu.over), gpu.over)
      ensures stillRunning <==> !AllOver(old(copies), entry, over)
      ensures !stillRunning ==> forall c :: c in copies ==> !Concerns(c, entry)
      ensures entry == null && !stillRunning ==> copies == []
    {
      ghost var orig := copies;
      released, stillRunning, over := [], false, [];
      var i: nat := 0;
      while i < |copies|
        invariant Valid() && old(gpu.over) <= gpu.over && |copies| <= |orig|
        invariant Partway(orig, entry, over, copies, i, released, stillRunning)
        invariant Answers(orig, entry, over, old(gpu.over), gpu.over)
        decreases |orig| - |over|
      {
        stillRunning, released, over, i := ReleaseNext(entry, gpu, orig, over, i, released, stillRunning,
          old(gpu.over));
      }
      assert orig[..|over|] == orig;
      if !stillRunning {
        NoneKept(orig, entry, over);
        if entry == null && copies != [] { SomeIsConcerned(copies); }
      }
    }

    /** The destructor: a copy that is not over leaks its staging buffer. */
    method Destroy(gpu: Gpu) returns (ghost over: seq<bool>)
      requires Valid()
      modifies gpu, set c | c in copies :: c.entry
      ensures old(gpu.over) <= gpu.over && |over| == |copies|
      ensures forall k :: 0 <= k < |copies| ==>
        && (over[k] ==> copies[k].done in gpu.over)
        && (copies[k].done in old(gpu.over) ==> over[k])
      ensures forall k :: 0 <= k < |copies| ==>
        (copies[k].entry.leakHostBuf <==>
         || old(copies[k].entry.leakHostBuf)
         || exists j :: 0 <= j < |copies| && copies[j].entry == copies[k].entry && !over[j])
    {
      over := [];
      for n := 0 to |copies|
        invariant |over| == n && old(gpu.over) <= gpu.over
        invariant forall k :: 0 <= k < n ==>
          && (over[k] ==> copies[k].done in gpu.over)
          && (copies[k].done in old(gpu.over) ==> over[k])
        invariant forall k :: 0 <= k < |copies| ==>
          (copies[k].entry.leakHostBuf <==>
           old(copies[k].entry.leakHostBuf) || exists j :: 0 <= j < n && copies[j].entry == copies[k].entry && !over[j])
      {
        var v := gpu.IsOver(copies[n].done);
        if !v {
          copies[n].entry.leakHostBuf := true;
        }
        over := over + [v];
      }
    }
  }
}
