/** What holds in every run of the ring. */
module RingProtocolTheorems {
  import opened Prelude
  import opened Ring
  import opened RingProtocol
  import opened RingProtocolProofs
  import opened RingClaimProofs
  import opened Counting

  /**
   The writer's policy simulates the shared slots. For a slot it is not working on, Free means FREE or
   READING, Published(s) means the slot carries sequence s and is PUBLISHED, READING or FREE, Reading
   means READING or FREE; and a slot the writer has not taken is never WRITING.
   */
  lemma PolicySimulatesSharedSlots(states: seq<State>, actions: seq<Action>, n: nat, i: nat)
    requires IsRun(states, actions) && n < |states| && i < |states[n].slots| == |states[n].policy.slots|
    requires !states[n].disabled && !Resetting(states[n].writer) && !Busy(states[n].writer, i)
    ensures Agrees(states[n].policy.slots[i], states[n].slots[i])
  {
    RunsKeepInv(states, actions, n);
    assert SlotAt(states[n], i);
  }

  /** So the take of a slot the policy chose as free always succeeds, and a take is lost only when the
      frame to overwrite has meanwhile been claimed. */
  lemma FreeTakeNeverFails(states: seq<State>, actions: seq<Action>, n: nat)
    requires IsRun(states, actions) && n < |states| && states[n].writer.Take?
    ensures var st, i := states[n], states[n].writer.index;
            && i < |st.slots| == |st.policy.slots|
            && (st.writer.overwrote.None? ==> TakenOrLost(st, i, None).writer == Copy(i))
            && (st.writer.overwrote.Some? && TakenOrLost(st, i, st.writer.overwrote).writer.Rest? ==>
                  st.slots[i].state == READING || st.slots[i].state == FREE)
  {
    RunsKeepInv(states, actions, n);
    TakeIsLostOnlyToAClaim(states[n]);
  }

  /**
   A frame is refused only when, slot by slot, the reader was holding the slot at the moment the writer looked
   at it for this frame: a slot that was free, or published, or has been given back, is always taken.
   */
  lemma RefusedOnlyWhenHeld(states: seq<State>, actions: seq<Action>, n: nat)
    requires IsRun(states, actions) && n < |actions| && states[n + 1].refused > states[n].refused
    ensures forall k: nat :: k < |states[n].slots| ==> HeldWhenLookedAt(states, n, k)
  {
    RunsKeepInv(states, actions, n);
    assert Follows(states, actions, n);
    RefusalIsAChoice(states[n], actions[n]);
    AcquireMeaning(states[n].policy);
    forall k: nat | k < |states[n].slots| ensures HeldWhenLookedAt(states, n, k) {
      var j := EveryLookIsTold(states, actions, n, k);
      assert SeenAt(states, j, n, k);
      assert states[n].policy.slots[k].Reading?;
    }
  }

  // ----- claims -----

  /**
   What a client can check: it has seen the header's generation at some moment m up to the
   compare-exchange at k, and the generation its claim read last is still that one. Then sequence,
   timestamp and fence are those of one publish, no older than the one scanned, whatever rebuilds ran
   in the meantime.
   */
  lemma ClaimIsOnePublish(states: seq<State>, actions: seq<Action>, m: nat, k: nat, n: nat)
    requires IsRun(states, actions) && m <= k && ClaimedAt(states, k, n) && states[n].reader.Holding?
    requires states[n].reader.c.generation == states[m].generation
    ensures OfOnePublish(states[n].log, states[n].reader.c)
    ensures var c := states[n].reader.c; c.fence == 0 || c.fence == c.sequence
  {
    RunsKeepFullInv(states, actions, n);
    GenerationsOnlyGrow(states, actions, m, k);
    ClaimRemembers(states, actions, k, n);
  }

  /**
   With no rebuild under way or begun since the compare-exchange, a claim moreover still holds its slot:
   the slot is READING, shows exactly what the claim read, and the generation is the current one.
   */
  lemma ClaimHoldsItsSlot(states: seq<State>, actions: seq<Action>, k: nat, n: nat)
    requires IsRun(states, actions) && ClaimedAt(states, k, n) && states[n].reader.Holding?
    requires !Resetting(states[k].writer) && NoRebuild(actions, k, n)
    ensures var st, c := states[n], states[n].reader.c;
            && OfOnePublish(st.log, c) && c.generation == st.generation
            && c.index < |st.slots|
            && st.slots[c.index] == Meta(READING, c.sequence, c.presentQpc, c.fence)
  {
    RunsKeepInv(states, actions, n);
    ClaimStaysFresh(states, actions, k, n);
    assert SlotAt(states[n], states[n].reader.c.index);
  }

  /** While a claim stands, no step but its release and a rebuild's resets touches the claimed slot. */
  lemma ClaimedSlotIsLeftAlone(st: State, a: Action, i: nat)
    requires Inv(st) && Enabled(st, a) && i < |st.slots| && st.slots[i].state == READING
    ensures Next(st, a).slots[i] == st.slots[i]
            || (a.Release? && Holds(st.reader, i))
            || (a.WriterStep? && st.writer.Reset? && st.writer.k == i)
  {
    assert SlotAt(st, i);
  }

  // ----- accounting -----

  /**
   Every frame the writer set out to publish is accounted for once, and so is every frame published.
   The dropped count is what it counts: refused and aborted frames, overwritten ones, and takes lost to
   the reader twice each, although the frame to be overwritten was delivered; a frame given up on an
   error exit is in none of its terms. In the middle of a write each is off by the frame in hand.
   */
  lemma FrameAccounting(states: seq<State>, actions: seq<Action>, n: nat)
    requires IsRun(states, actions) && n < |states|
    ensures var st := states[n];
            && st.offered ==
               st.policy.framesPublished + st.refused + st.aborted + st.lost + st.exited
               + One(Undecided(st.writer))
            && st.policy.framesPublished ==
               st.claimed + st.overwritten + st.cleared + CountPublished(st.slots) + One(Storing(st.writer))
            && st.policy.framesDropped ==
               st.refused + st.aborted + st.overwritten + 2 * st.lost
               + One(st.writer.Take? && st.writer.overwrote.Some?)
  {
    RunsKeepFullInv(states, actions, n);
  }

  /**
   Published sequences are exactly 1, 2, 3, ... across drops, aborts and rebuilds: whenever a slot turns
   PUBLISHED, its sequence is the number of times any slot has, and its fence is 0 or that number.
   */
  lemma SequencesAreConsecutive(states: seq<State>, actions: seq<Action>, n: nat, i: nat)
    requires IsRun(states, actions) && n + 1 < |states|
    requires i < |states[n].slots| == |states[n + 1].slots| && TurnsPublished(states[n], states[n + 1], i)
    ensures var m := states[n + 1].slots[i];
            && m.sequence == Publications(states, n + 1) == Publications(states, n) + 1
            && (m.fence == 0 || m.fence == m.sequence)
  {
    RunsKeepInv(states, actions, n);
    RunsKeepInv(states, actions, n + 1);
    assert Follows(states, actions, n);
    PublishesAt(states[n], actions[n], i);
    var st' := PublishesExactly(states[n], actions[n]);
    PublicationsAreLogged(states, actions, n);
    assert SlotAt(states[n], i);
    assert SlotAt(states[n + 1], i);
  }

  // ----- freshness -----

  lemma UniqueNewest(st: State, i: nat)
    requires Inv(st) && NewestAt(st, i)
    ensures NewestAmong(st.slots, |st.slots|).Some?
    ensures st.slots[NewestAmong(st.slots, |st.slots|).value].sequence == |st.log|
  {
    var r := NewestAmong(st.slots, |st.slots|);
    assert SlotAt(st, r.value);
  }

  /**
   If every take since the last rebuild that succeeded ended in a publish, then outside a write the
   newest published frame is still there to be claimed, or it has been claimed.
   */
  lemma NewestFrameIsNotLost(states: seq<State>, actions: seq<Action>, n: nat)
    requires IsRun(states, actions) && n < |states|
    requires states[n].clean && !states[n].disabled && OutsideWrite(states[n].writer)
    ensures var st := states[n];
            || |st.log| == st.base                     // nothing published since the rebuild
            || st.lastClaimed == |st.log|              // the newest frame was claimed
            || (NewestAmong(st.slots, |st.slots|).Some?
                && st.slots[NewestAmong(st.slots, |st.slots|).value].sequence == |st.log|)
  {
    RunsKeepInv(states, actions, n);
    if i :| NewestAt(states[n], i) { UniqueNewest(states[n], i); }
  }

  /**
   A claim during which nobody else takes a step is over within 2n + 6 of its own on n slots. It comes back
   with nothing exactly when no slot is PUBLISHED, else with the newest published frame, which is its now.
   */
  lemma QuietClaimTakesTheNewest(states: seq<State>, actions: seq<Action>, i: nat, j: nat)
    requires IsRun(states, actions) && UndisturbedClaim(actions, i, j)
    ensures j - i - 1 <= 2 * |states[i].slots| + 6
    ensures j - i - 1 == 2 * |states[i].slots| + 6 ==> states[j].reader.Away? || states[j].reader.Holding?
    ensures var st, newest := states[i], NewestAmong(states[i].slots, |states[i].slots|);
            && (states[j].reader.Away? ==> newest.None?)
            && (states[j].reader.Holding? ==>
                  var c := states[j].reader.c;
                  && newest == Some(c.index)
                  && st.slots[c.index] == Meta(PUBLISHED, c.sequence, c.presentQpc, c.fence)
                  && c.generation == st.generation
                  && states[j].slots == SetState(st.slots, c.index, READING))
  {
    QuietClaimRuns(states, actions, i, j);
  }

  /** So, outside a write, a clean ring's newest frame is what such a claim brings, unless it was claimed
      before. */
  lemma QuietClaimTakesTheNewestFrame(states: seq<State>, actions: seq<Action>, i: nat, j: nat)
    requires IsRun(states, actions) && UndisturbedClaim(actions, i, j)
    requires states[i].clean && !states[i].disabled && OutsideWrite(states[i].writer)
    requires |states[i].log| > states[i].base && states[i].lastClaimed < |states[i].log|
    ensures !states[j].reader.Away?
    ensures states[j].reader.Holding? ==> states[j].reader.c.sequence == |states[i].log|
  {
    NewestFrameIsNotLost(states, actions, i);
    QuietClaimRuns(states, actions, i, j);
  }

  /** The reader found no frame in slot s when it looked at it in the scan it is ending at step n. */
  ghost predicate FoundEmpty(states: seq<State>, n: nat, s: nat) {
    exists x: nat :: FoundNothing(states, x, n, s)
  }

  /**
   A claim comes back with nothing for one of two reasons only, whatever the writer does: its last scan found
   each slot, when it looked at it, without a published frame; or it lost the race for its frame once more
   often than there are slots.
   */
  lemma ClaimGivesUpOnlyBeaten(states: seq<State>, actions: seq<Action>, i: nat, n: nat)
    requires IsRun(states, actions) && Claiming(states, actions, i, n) && n < |actions| && states[n + 1].reader.Away?
    ensures || (forall s: nat :: s < |states[n].slots| ==> FoundEmpty(states, n, s))
            || Count(LostRaces(states, actions), i, n + 1) == |states[n].slots| + 1
  {
    assert Follows(states, actions, n);
    RacesAreCounted(states, actions, i, n);
    OnlyTheReaderLeaves(states[n], actions[n]);
    if states[n].reader.LookState? {
      forall s: nat | s < |states[n].slots| ensures FoundEmpty(states, n, s) {
        var x := EmptyScan(states, actions, n, s);
        assert FoundNothing(states, x, n, s);
      }
    }
  }

  lemma OnlyTheReaderLeaves(st: State, a: Action)
    requires Sized(st) && Enabled(st, a) && Seeking(st.reader) && Next(st, a).reader.Away?
    ensures a.ReaderStep?
    ensures || (st.reader.LookState? && st.reader.k == |st.slots| && st.reader.best.None?)
            || (LosesRace(st, a) && st.reader.tries >= |st.slots|)
  {
    if a.WriterStep? { WriterLeavesTheReader(st, a.outcome); }
  }
}
