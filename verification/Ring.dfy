/** The frame ring: the writer's private slot policy, and the reader's claim and release. */
module Ring {
  import opened Prelude

  const ABI_MAX_RING_SLOTS: u32 := 8

  // The shared state word of a slot.
  const FREE: u32 := 0
  const WRITING: u32 := 1
  const PUBLISHED: u32 := 2
  const READING: u32 := 3

  datatype Slot = Free | Writing | Published(sequence: nat) | Reading

  datatype WriterSlot = WriterSlot(index: nat, overwrote: Option<nat>)

  /** The value of the writer's policy. */
  datatype Policy = Policy(
    slots: seq<Slot>, nextSequence: nat, generation: nat, framesPublished: nat, framesDropped: nat)

  function SlotCount(requested: u32): (n: nat)
    ensures 2 <= n <= ABI_MAX_RING_SLOTS
    ensures 2 <= requested <= ABI_MAX_RING_SLOTS ==> n == requested
  {
    if requested < 2 then 2 else if requested > ABI_MAX_RING_SLOTS then ABI_MAX_RING_SLOTS else requested
  }

  function NewPolicy(slotCount: u32): Policy { Policy(seq(SlotCount(slotCount), i => Free), 1, 1, 0, 0) }

  /** The first free slot from k on. */
  function FirstFree(slots: seq<Slot>, k: nat): (r: Option<nat>)
    requires k <= |slots|
    ensures r.Some? ==> k <= r.value < |slots| && slots[r.value].Free?
    ensures r.Some? ==> forall i :: k <= i < r.value ==> !slots[i].Free?
    ensures r.None? ==> forall i :: k <= i < |slots| ==> !slots[i].Free?
    decreases |slots| - k
  {
    if k == |slots| then None else if slots[k].Free? then Some(k) else FirstFree(slots, k + 1)
  }

  /** The published slot with the smallest sequence among the first k; the first of equals. */
  function OldestAmong(slots: seq<Slot>, k: nat): (r: Option<nat>)
    requires k <= |slots|
    ensures r.Some? ==> r.value < k && slots[r.value].Published?
    ensures r.Some? ==> forall i :: 0 <= i < k && slots[i].Published? ==>
                          slots[r.value].sequence <= slots[i].sequence
    ensures r.None? ==> forall i :: 0 <= i < k ==> !slots[i].Published?
  {
    if k == 0 then None
    else
      var r := OldestAmong(slots, k - 1);
      if !slots[k - 1].Published? then r
      else if r.None? || slots[k - 1].sequence < slots[r.value].sequence then Some(k - 1)
      else r
  }

  function Acquired(p: Policy): (Policy, Option<WriterSlot>) {
    match FirstFree(p.slots, 0)
    case Some(i) => (p.(slots := p.slots[i := Writing]), Some(WriterSlot(i, None)))
    case None =>
      match OldestAmong(p.slots, |p.slots|)
      case Some(i) =>
        (p.(slots := p.slots[i := Writing], framesDropped := p.framesDropped + 1),
         Some(WriterSlot(i, Some(p.slots[i].sequence))))
      case None => (p.(framesDropped := p.framesDropped + 1), None)
  }

  function Aborted(p: Policy, i: nat): Policy
    requires i < |p.slots|
  {
    p.(slots := p.slots[i := Free], framesDropped := p.framesDropped + 1)
  }

  function PublishedAt(p: Policy, i: nat): Policy
    requires i < |p.slots|
  {
    p.(slots := p.slots[i := Published(p.nextSequence)],
       nextSequence := p.nextSequence + 1, framesPublished := p.framesPublished + 1)
  }

  /** What the writer believes of a slot once it has seen the shared state. */
  function Absorbed(slot: Slot, shared: u32): Slot {
    if slot.Published? && shared == READING then Reading
    else if slot.Published? && shared == FREE then Free
    else if slot.Reading? && shared == FREE then Free
    else if slot.Free? && shared == READING then Reading
    else slot
  }

  function Reconciled(p: Policy, i: nat, shared: u32): Policy
    requires i < |p.slots|
  {
    p.(slots := p.slots[i := Absorbed(p.slots[i], shared)])
  }

  function Rebuilt(p: Policy): Policy {
    p.(slots := seq(|p.slots|, i => Free), generation := p.generation + 1)
  }

  class RingPolicy {
    const slots: array<Slot>
    var nextSequence: nat
    var generation: nat
    var framesPublished: nat
    var framesDropped: nat

    function Value(): Policy
      reads this, slots
    {
      Policy(slots[..], nextSequence, generation, framesPublished, framesDropped)
    }

    constructor (slotCount: u32)
      ensures fresh(slots) && Value() == NewPolicy(slotCount)
    {
      slots := new Slot[SlotCount(slotCount)](i => Free);
      nextSequence, generation, framesPublished, framesDropped := 1, 1, 0, 0;
    }

    /** A free slot first; else the oldest published frame gives way; else the frame is dropped. */
    method WriterAcquire() returns (r: Option<WriterSlot>)
      modifies this, slots
      ensures (Value(), r) == Acquired(old(Value()))
    {
      for i := 0 to slots.Length
        invariant FirstFree(slots[..], 0) == FirstFree(slots[..], i)
      {
        if slots[i].Free? {
          slots[i] := Writing;
          return Some(WriterSlot(i, None));
        }
      }
      var oldest: Option<nat> := None;
      for i := 0 to slots.Length
        invariant oldest == OldestAmong(slots[..], i)
      {
        if slots[i].Published? && (oldest.None? || slots[i].sequence < slots[oldest.value].sequence) {
          oldest := Some(i);
        }
      }
      framesDropped := framesDropped + 1;
      if oldest.None? { return None; }
      var sequence := slots[oldest.value].sequence;
      slots[oldest.value] := Writing;
      return Some(WriterSlot(oldest.value, Some(sequence)));
    }

    method WriterAbort(index: nat)
      requires index < slots.Length
      modifies this, slots
      ensures Value() == Aborted(old(Value()), index)
    {
      slots[index] := Free;
      framesDropped := framesDropped + 1;
    }

    method Publish(index: nat) returns (sequence: nat)
      requires index < slots.Length
      modifies this, slots
      ensures Value() == PublishedAt(old(Value()), index) && sequence == old(nextSequence)
    {
      sequence := nextSequence;
      nextSequence := nextSequence + 1;
      framesPublished := framesPublished + 1;
      slots[index] := Published(sequence);
    }

    method ReconcileShared(index: nat, shared: u32)
      requires index < slots.Length
      modifies slots
      ensures Value() == Reconciled(old(Value()), index, shared)
    {
      slots[index] := Absorbed(slots[index], shared);
    }

    method Rebuild() returns (generation': nat)
      modifies this, slots
      ensures Value() == Rebuilt(old(Value())) && generation' == generation
    {
      ghost var before := Value();
      for i := 0 to slots.Length
        invariant forall j :: 0 <= j < i ==> slots[j] == Free
        modifies slots
      {
        slots[i] := Free;
      }
      assert slots[..] == Rebuilt(before).slots;
      generation := generation + 1;
      generation' := generation;
    }
  }

  /** Acquiring never picks a slot the reader holds, and drops a frame only when it must. */
  lemma AcquireMeaning(p: Policy)
    ensures var (p', r) := Acquired(p);
            && |p'.slots| == |p.slots| && p'.nextSequence == p.nextSequence
            && (r.None? <==> forall i :: 0 <= i < |p.slots| ==> p.slots[i].Writing? || p.slots[i].Reading?)
            && (r.Some? ==>
                  && r.value.index < |p.slots|
                  && (r.value.overwrote.None? <==> p.slots[r.value.index].Free?)
                  && (r.value.overwrote.Some? ==>
                        && p.slots[r.value.index] == Published(r.value.overwrote.value)
                        && (forall i :: 0 <= i < |p.slots| ==> !p.slots[i].Free?)
                        && (forall i :: 0 <= i < |p.slots| && p.slots[i].Published? ==>
                              r.value.overwrote.value <= p.slots[i].sequence))
                  && p'.slots == p.slots[r.value.index := Writing])
            && p'.framesDropped ==
               p.framesDropped + if r.None? || r.value.overwrote.Some? then 1 else 0
  {
    var free := FirstFree(p.slots, 0);
    if free.None? { var oldest := OldestAmong(p.slots, |p.slots|); }
  }

  // ----- the reader's side, with no writer step in between -----

  /** One slot of the shared section. */
  datatype Meta = Meta(state: u32, sequence: nat, presentQpc: nat, fence: nat)

  /** The published slot with the largest sequence among the first k; the first of equals. */
  function NewestAmong(slots: seq<Meta>, k: nat): (r: Option<nat>)
    requires k <= |slots|
    ensures r.Some? ==> r.value < k && slots[r.value].state == PUBLISHED
    ensures r.Some? ==> forall i :: 0 <= i < k && slots[i].state == PUBLISHED ==>
                          slots[i].sequence <= slots[r.value].sequence
    ensures r.None? ==> forall i :: 0 <= i < k ==> slots[i].state != PUBLISHED
  {
    if k == 0 then None
    else
      var r := NewestAmong(slots, k - 1);
      if slots[k - 1].state != PUBLISHED then r
      else if r.None? || slots[r.value].sequence < slots[k - 1].sequence then Some(k - 1)
      else r
  }

  datatype ClaimedFrame = ClaimedFrame(index: nat, sequence: nat, presentQpc: nat, generation: nat, fence: nat)

  class RingView {
    const slots: array<Meta>
    var generation: nat

    constructor (slotCount: nat, generation: nat)
      ensures fresh(slots) && slots.Length == slotCount && this.generation == generation
    {
      slots := new Meta[slotCount](i => Meta(FREE, 0, 0, 0));
      this.generation := generation;
    }

    method CompareExchange(index: nat, expected: u32, desired: u32) returns (ok: bool)
      requires index < slots.Length
      modifies slots
      ensures ok <==> old(slots[index].state) == expected
      ensures slots[..] == if ok then old(slots[..])[index := old(slots[index]).(state := desired)] else old(slots[..])
    {
      ok := slots[index].state == expected;
      if ok { slots[index] := slots[index].(state := desired); }
    }

    /** With the writer idle the newest published frame is claimed, and None means nothing is published. */
    method ClaimLatest() returns (frame: Option<ClaimedFrame>)
      modifies slots
      ensures var newest := NewestAmong(old(slots[..]), slots.Length);
              match newest
              case None => frame == None && slots[..] == old(slots[..])
              case Some(i) =>
                && slots[..] == old(slots[..])[i := old(slots[i]).(state := READING)]
                && frame == Some(ClaimedFrame(i, slots[i].sequence, slots[i].presentQpc, generation, slots[i].fence))
    {
      for attempt := 0 to slots.Length + 1
        invariant slots[..] == old(slots[..])
        invariant attempt == 0
      {
        var newest: Option<nat> := None;
        for index := 0 to slots.Length
          invariant newest == NewestAmong(slots[..], index)
        {
          var meta := slots[index];
          if meta.state == PUBLISHED && (newest.None? || slots[newest.value].sequence < meta.sequence) {
            newest := Some(index);
          }
        }
        if newest.None? { return None; }
        var taken := CompareExchange(newest.value, PUBLISHED, READING);
        if taken {
          var meta := slots[newest.value];
          return Some(ClaimedFrame(newest.value, meta.sequence, meta.presentQpc, generation, meta.fence));
        }
      }
      return None;
    }

    method Release(index: nat)
      requires index < slots.Length
      modifies slots
      ensures slots[..] == if old(slots[index]).state == READING
                           then old(slots[..])[index := old(slots[index]).(state := FREE)] else old(slots[..])
    {
      var _ := CompareExchange(index, READING, FREE);
    }
  }
}
