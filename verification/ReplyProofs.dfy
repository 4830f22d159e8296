/** What the replies say, told from the request and the table. */
module ReplyProofs {
  import opened Prelude
  import opened Modes
  import opened Identity
  import opened ModePush
  import opened Persist
  import opened Session
  import opened SessionProofs
  import opened Permanent
  import opened Dispatch
  import opened DispatchProofs

  // ----- UPDATE_MODES -----

  /** The request as validated, if it gets that far. */
  function Understood(dev: Device, s: u64, specs: seq<ModeSpec>, count: u32): Result<seq<Mode>>
    requires s in dev.table.monitors && dev.table.monitors[s].modes != [] && count <= |specs|
  {
    Requested(dev.table.monitors[s], specs[..count], dev.cfg.caps)
  }

  /** A request that never gets to a selection counts nothing, and is told what is offered now. */
  lemma RefusedUpdateReply(dev: Device, handshaken: bool, s: u64, specs: seq<ModeSpec>, count: u32, token: nat)
    requires s in dev.table.monitors ==> dev.table.monitors[s].modes != []
    requires || !handshaken || count == 0 || count > 4 || count > |specs| || s !in dev.table.monitors
             || Understood(dev, s, specs, count).Err?
    ensures var (dev', reply, effects) := AfterUpdate(dev, handshaken, s, specs, count, token);
            && effects == [] && reply.requested == count
            && reply.accepted == 0 && reply.rejected == 0 && reply.firstRejected.None?
            && !reply.partial && !reply.pending && !reply.blocked && reply.blockingModeIdx.None?
            && reply.modeCount == (if s in dev.table.monitors then |dev.table.monitors[s].targetModes| else 0)
            && (!handshaken ==> reply.result == -10)
            && (handshaken && (count == 0 || count > 4 || count > |specs|) ==> reply.result == -3)
            && (handshaken && 0 < count <= 4 && count <= |specs| && s !in dev.table.monitors ==> reply.result == -8)
            && (handshaken && 0 < count <= 4 && count <= |specs| && s in dev.table.monitors ==>
                  reply.result == Code(Understood(dev, s, specs, count).error) && reply.result < 0)
  {
  }

  /** The refusal the session remembers answers this list. */
  predicate Remembers(m: Monitor, want: seq<Mode>, token: nat) {
    want != [] && m.blocked.Some? && m.blocked.value.token == token && m.blocked.value.targets == want
  }

  /** An understood request is answered from its selection. */
  lemma UnderstoodIsAnswered(dev: Device, s: u64, specs: seq<ModeSpec>, count: u32, token: nat)
    returns (m': Monitor, u: ModeUpdate)
    requires s in dev.table.monitors && dev.table.monitors[s].modes != []
    requires 0 < count <= 4 && count <= |specs| && Understood(dev, s, specs, count).Ok?
    ensures var m, requested := dev.table.monitors[s], Understood(dev, s, specs, count).value;
            (m', u) == Answered(WithoutStaleBlock(m, token), Selection(m.modes, requested), dev.table.updateSeq + 1)
    ensures AfterUpdate(dev, true, s, specs, count, token) ==
            (dev.(table := Replaced(dev.table, s, m', u.queued.Some?)), UpdateReply(u, count),
             if u.queued.Some? then [PushModes(s, u.queued.value, u.targets)] else [])
  {
    var m, requested := dev.table.monitors[s], Understood(dev, s, specs, count).value;
    var answer := Answered(WithoutStaleBlock(m, token), Selection(m.modes, requested), dev.table.updateSeq + 1);
    m', u := answer.0, answer.1;
  }

  /** What a selection comes to, in the words of the reply. */
  lemma AnswerInWords(m: Monitor, sel: TargetSelection, token: nat, next: nat, count: nat)
    ensures var (m', u) := Answered(WithoutStaleBlock(m, token), sel, next);
            var reply, want := UpdateReply(u, count), sel.targets;
            && reply.requested == count && reply.accepted == sel.accepted && reply.rejected == sel.rejected
            && reply.firstRejected == sel.firstRejected && (reply.partial <==> sel.rejected > 0)
            && (u.queued.Some? <==> want != [] && want != m.TargetBase() && !Remembers(m, want, token))
            && (u.queued.Some? ==> u.queued.value == next && u.targets == want)
            && reply.modeCount == (if want != [] && !Remembers(m, want, token) then |want| else |m.targetModes|)
            && (reply.pending <==> m'.pendingTargets.Some?)
            && (reply.blocked <==> Remembers(m, want, token))
            && reply.blockingModeIdx == (if Remembers(m, want, token) then Some(m.blocked.value.supersetIdx) else None)
            && reply.result == (if Remembers(m, want, token) then -14 else if want == [] then -3 else 0)
  {
  }

  /** An understood request selects among as many distinct modes as it has entries. */
  lemma UnderstoodSelects(dev: Device, s: u64, specs: seq<ModeSpec>, count: u32)
    requires s in dev.table.monitors && dev.table.monitors[s].modes != []
    requires 0 < count <= 4 && count <= |specs| && Understood(dev, s, specs, count).Ok?
    ensures var m, requested := dev.table.monitors[s], Understood(dev, s, specs, count).value;
            var sel := Selection(m.modes, requested);
            && |requested| == count && Distinct(requested) && |sel.targets| == sel.accepted
            && sel.accepted == |OnOffer(m.modes, requested, count)|
            && sel.rejected == |LeftOut(m.modes, requested, count)|
  {
    var m, requested := dev.table.monitors[s], Understood(dev, s, specs, count).value;
    ValidListExactly(specs[..count], count, m.modes[0].bitDepth.AsRaw(), if m.modes[0].hdr then 1 else 0, dev.cfg.caps);
    SelectionMeaning(m.modes, requested);
  }

  /**
   An understood request counts the entries the monitor was created with and those it was not, and names the
   first of these.
   */
  lemma AnsweredUpdateCounts(dev: Device, s: u64, specs: seq<ModeSpec>, count: u32, token: nat)
    requires s in dev.table.monitors && dev.table.monitors[s].modes != []
    requires 0 < count <= 4 && count <= |specs| && Understood(dev, s, specs, count).Ok?
    ensures var reply := AfterUpdate(dev, true, s, specs, count, token).1;
            var m, requested := dev.table.monitors[s], Understood(dev, s, specs, count).value;
            && |requested| == count == reply.requested
            && reply.accepted == |OnOffer(m.modes, requested, count)|
            && reply.rejected == |LeftOut(m.modes, requested, count)|
            && (reply.firstRejected.None? <==> forall i :: 0 <= i < count ==> requested[i] in m.modes)
            && (reply.firstRejected.Some? ==>
                  var k := reply.firstRejected.value;
                  k < count && requested[k] !in m.modes && forall i :: 0 <= i < k ==> requested[i] in m.modes)
            && (reply.partial <==> reply.firstRejected.Some?)
  {
    var m', u := UnderstoodIsAnswered(dev, s, specs, count, token);
    var m, requested := dev.table.monitors[s], Understood(dev, s, specs, count).value;
    UnderstoodSelects(dev, s, specs, count);
    AnswerInWords(m, Selection(m.modes, requested), token, dev.table.updateSeq + 1, count);
    SelectionMeaning(m.modes, requested);
  }

  /**
   And it says what becomes of it: whether a push is queued, and of what; whether one is pending; the mode in
   the way, if the session remembers a refusal of this very list. The mode count is of the list the reply
   is about: the selection when it is queued or on its way already, else the list in force. The result is
   0, or that the committed mode is in the way, or that nothing asked for can be had.
   */
  lemma AnsweredUpdateReply(dev: Device, s: u64, specs: seq<ModeSpec>, count: u32, token: nat)
    requires s in dev.table.monitors && dev.table.monitors[s].modes != []
    requires 0 < count <= 4 && count <= |specs| && Understood(dev, s, specs, count).Ok?
    ensures var (dev', reply, effects) := AfterUpdate(dev, true, s, specs, count, token);
            var m, requested := dev.table.monitors[s], Understood(dev, s, specs, count).value;
            var want := Selection(m.modes, requested).targets;
            && s in dev'.table.monitors
            && (effects != [] <==> want != [] && want != m.TargetBase() && !Remembers(m, want, token))
            && (effects != [] ==> effects == [PushModes(s, dev'.table.updateSeq, want)])
            && reply.modeCount ==
               (if want != [] && !Remembers(m, want, token) then reply.accepted else |m.targetModes|)
            && (reply.pending <==> dev'.table.monitors[s].pendingTargets.Some?)
            && (reply.blocked <==> Remembers(m, want, token))
            && reply.blockingModeIdx == (if Remembers(m, want, token) then Some(m.blocked.value.supersetIdx) else None)
            && reply.result == (if Remembers(m, want, token) then -14 else if want == [] then -3 else 0)
  {
    var m', u := UnderstoodIsAnswered(dev, s, specs, count, token);
    var m, requested := dev.table.monitors[s], Understood(dev, s, specs, count).value;
    UnderstoodSelects(dev, s, specs, count);
    AnswerInWords(m, Selection(m.modes, requested), token, dev.table.updateSeq + 1, count);
  }

  // ----- a client asks for modes the monitor was created with -----

  function SpecsOf(modes: seq<Mode>): (r: seq<ModeSpec>)
    ensures |r| == |modes| && forall i :: 0 <= i < |r| ==> r[i] == modes[i].Spec()
  {
    seq(|modes|, i requires 0 <= i < |modes| => modes[i].Spec())
  }

  /** One depth and range for all, supported by the driver, every mode in the envelope. */
  ghost predicate OneKind(modes: seq<Mode>, caps: Caps) {
    && modes != []
    && forall m :: m in modes ==>
         && InEnvelope(m.Spec()) && DepthSupported(m.bitDepth, m.hdr, caps)
         && m.bitDepth == modes[0].bitDepth && m.hdr == modes[0].hdr
  }

  /** A created monitor's modes are of one kind, the kind it was asked for. */
  lemma CreatedModesAreOfOneKind(t: Table, nowMs: nat, req: CreateRequest, caps: Caps, select: u64 -> Result<u64>,
                                 preferred: u64)
    requires CreatedTrusted(t, nowMs, req, caps, select, preferred).1.Ok?
    ensures var m := CreatedTrusted(t, nowMs, req, caps, select, preferred).1.value;
            && OneKind(m.modes, caps) && |m.modes| == req.modeCount <= |req.modes|
            && (forall i :: 0 <= i < |m.modes| ==> m.modes[i].Spec() == req.modes[i])
            && m.modes[0].bitDepth.AsRaw() == req.bitDepth && req.hdr == (if m.modes[0].hdr then 1 else 0)
  {
    ValidListExactly(req.modes, req.modeCount, req.bitDepth, req.hdr, caps);
    var modes := CreatedTrusted(t, nowMs, req, caps, select, preferred).1.value.modes;
    forall m | m in modes
      ensures InEnvelope(m.Spec()) && DepthSupported(m.bitDepth, m.hdr, caps)
      ensures m.bitDepth.AsRaw() == req.bitDepth && req.hdr == (if m.hdr then 1 else 0)
    {
      var i :| 0 <= i < |modes| && modes[i] == m;
      assert Validate(req.modes[i], req.bitDepth, req.hdr, caps) == Ok(m);
    }
    forall m | m in modes ensures m.bitDepth == modes[0].bitDepth && m.hdr == modes[0].hdr {
      assert modes[0] in modes;
      assert BitDepthFromRaw(req.bitDepth) == Some(m.bitDepth) && BitDepthFromRaw(req.bitDepth) == Some(modes[0].bitDepth);
    }
  }

  /** The specs of any list of its modes, none twice, are understood as exactly that list, and taken whole. */
  lemma OwnModesAreUnderstood(m: Monitor, targets: seq<Mode>, caps: Caps)
    requires OneKind(m.modes, caps) && targets != [] && |targets| <= MAX_MODES_PER_MONITOR
    requires Distinct(targets) && Within(targets, m.modes)
    ensures Requested(m, SpecsOf(targets), caps) == Ok(targets)
    ensures Selection(m.modes, targets).targets == targets
  {
    var specs, depth, hdr := SpecsOf(targets), m.modes[0].bitDepth.AsRaw(), if m.modes[0].hdr then 1 else 0;
    forall i | 0 <= i < |targets| ensures Validate(specs[i], depth, hdr, caps) == Ok(targets[i]) {
      assert targets[i] in targets;
      assert BitDepthFromRaw(depth) == Some(m.modes[0].bitDepth);
    }
    forall i, j | 0 <= i < j < |targets| ensures specs[i] != specs[j] {
      assert targets[i] in targets && targets[j] in targets;
    }
    assert specs[..|specs|] == specs;
    ValidListExactly(specs, |specs|, depth, hdr, caps);
    assert ValidList(specs, |specs|, depth, hdr, caps).value == targets;
    SelectionMeaning(m.modes, targets);
  }

  // ----- CREATE_MONITOR and DESTROY_MONITOR -----

  predicate ReservedId(req: CreateRequest) {
    req.displayId >= EPHEMERAL_DISPLAY_ID_BASE || IsPermanentDisplayId(req.displayId)
  }

  /** A create is answered 0 exactly when it goes through. Reply, plug and table then agree on identity,
      connector and ring slots; a refusal carries nothing. */
  lemma CreateReplyMeaning(dev: Device, handshaken: bool, nowMs: nat, req: CreateRequest, select: u64 -> Result<u64>)
    requires DeviceInv(dev)
    ensures var (dev', reply, effects) := AfterCreate(dev, handshaken, nowMs, req, select);
            && (reply.result == 0 <==>
                  handshaken && !ReservedId(req) && Admits(dev.table, req, dev.cfg.caps, select, dev.preferredAdapter))
            && (reply.result == 0 ==>
                  && req.sessionId in dev'.table.monitors
                  && var m := dev'.table.monitors[req.sessionId];
                     && reply.displayId == m.displayId == req.Identity() && reply.connectorIndex == m.connectorIndex
                     && 2 <= reply.ringSlots <= 8
                     && (2 <= dev.cfg.ringSlots <= 8 ==> reply.ringSlots == dev.cfg.ringSlots)
                     && effects == [PlugMonitor(req.sessionId, m.displayId, m.connectorIndex, m.modes, m.targetModes,
                                                m.adapterLuid, reply.ringSlots), PersistEffect(dev')])
            && (reply.result != 0 ==> reply == CreateReply(reply.result, 0, 0, 0) && effects == [] && dev' == dev)
  {
    if handshaken && !ReservedId(req) {
      CreateFailsCleanly(dev.table, nowMs, req, dev.cfg.caps, select, dev.preferredAdapter);
      if Admits(dev.table, req, dev.cfg.caps, select, dev.preferredAdapter) {
        var m := AdmittedIsMade(dev.table, nowMs, req, dev.cfg.caps, select, dev.preferredAdapter);
      }
    }
  }

  /** What a refused create is told, on the wire. */
  lemma RefusedCreateCode(dev: Device, handshaken: bool, nowMs: nat, req: CreateRequest, select: u64 -> Result<u64>)
    requires DeviceInv(dev)
    ensures var code := AfterCreate(dev, handshaken, nowMs, req, select).1.result;
            var known, full, inUse :=
              req.sessionId in dev.table.monitors, |dev.table.monitors| >= dev.cfg.TableCap(),
              req.Identity() in Live(dev.table.monitors);
            && (!handshaken ==> code == -10)
            && (handshaken && ReservedId(req) ==> code == -11)
            && (handshaken && !ReservedId(req) && req.sessionId == 0 ==> code == -3)
            && (handshaken && !ReservedId(req) && req.sessionId != 0 && known ==> code == -7)
            && (handshaken && !ReservedId(req) && req.sessionId != 0 && !known && full ==> code == -2)
            && (handshaken && !ReservedId(req) && req.sessionId != 0 && !known && !full && inUse ==> code == -11)
  {
    if handshaken && !ReservedId(req) {
      CreateFailsCleanly(dev.table, nowMs, req, dev.cfg.caps, select, dev.preferredAdapter);
      CreateIsToldWhy(dev.table, nowMs, req, dev.cfg.caps, select, dev.preferredAdapter);
    }
  }

  lemma DestroyReplyMeaning(dev: Device, handshaken: bool, s: u64)
    ensures var (dev', code, effects) := AfterDestroy(dev, handshaken, s);
            && code == (if !handshaken then -10 else if s in dev.table.monitors then 0 else -8)
            && (code != 0 ==> dev' == dev && effects == [])
            && (code == 0 ==> dev'.table.monitors == dev.table.monitors - {s}
                              && effects == [UnplugMonitor(s), PersistEffect(dev')])
  {
  }

  // ----- SET_PERMANENT_POOL -----

  lemma CodesAreNegative(e: Error)
    ensures Code(e) < 0
  {
  }

  /** The loop stops at the first member that is refused, and reports why. */
  ghost predicate StoppedAt(create: (Table, u32) -> (Table, Result<Monitor>), t: Table, k: u32, end: u32, result: int) {
    if k == end then result == 0
    else k < end && create(t, k).1.Err? && result == Code(create(t, k).1.error)
  }

  lemma {:induction false} CreateMembersReport(create: (Table, u32) -> (Table, Result<Monitor>), slots: u32, t: Table,
                                               from: u32, end: u32)
    requires CreatesProperly(create) && TableInv(t) && from <= end
    ensures var (t', result, n, _) := AfterCreateMembers(create, slots, t, from, end, from);
            StoppedAt(create, t', n, end, result)
    decreases end - from
  {
    if from < end {
      var t' := FirstAdds(create, t, from);
      assert CreatesAt(create, t, from);
      if create(t, from).1.Ok? { CreateMembersReport(create, slots, t', from + 1, end); }
    }
  }

  /** Creating member k on the device's table fails with this code. */
  ghost predicate FailsAs(dev: Device, nowMs: nat, desired: PoolConfig, select: u64 -> Result<u64>, k: u32, code: int) {
    var r := CreatedTrusted(dev.table, nowMs, MemberRequest(desired, k), dev.cfg.caps, select, dev.preferredAdapter).1;
    r.Err? && code == Code(r.error)
  }

  /** The create loop as a whole, whatever count it starts from. */
  lemma CreateLoopReports(create: (Table, u32) -> (Table, Result<Monitor>), slots: u32, t: Table, from: u32, end: u32,
                          start: u32) returns (k: u32)
    requires CreatesProperly(create) && TableInv(t) && from < end
    ensures var (t', result, n, _) := AfterCreateMembers(create, slots, t, from, end, start);
            && from <= k <= end && StoppedAt(create, t', k, end, result)
            && n == (if k == from then start else k)
  {
    var t' := FirstAdds(create, t, from);
    assert CreatesAt(create, t, from);
    if create(t, from).1.Ok? {
      CreateMembersReport(create, slots, t', from + 1, end);
      CreateMembersAdds(create, slots, t', from + 1, end);
      k := AfterCreateMembers(create, slots, t', from + 1, end, from + 1).2;
    } else {
      k := from;
    }
  }

  lemma GrowthReports(dev: Device, nowMs: nat, desired: PoolConfig, select: u64 -> Result<u64>, t: Table, from: u32)
    requires TableInv(t) && from < desired.count
    ensures var create := Creator(dev.cfg, dev.preferredAdapter, nowMs, desired, select);
            var (t', code, n, _) := AfterCreateMembers(create, dev.cfg.RingSlots(), t, from, desired.count, 0);
            && n <= desired.count && (code == 0 <==> n == desired.count)
            && (code != 0 ==> exists k: u32 ::
                  k < desired.count && FailsAs(dev.(table := t'), nowMs, desired, select, k, code))
  {
    var create := Creator(dev.cfg, dev.preferredAdapter, nowMs, desired, select);
    CreatorIsProper(dev.cfg, dev.preferredAdapter, nowMs, desired, select);
    var k := CreateLoopReports(create, dev.cfg.RingSlots(), t, from, desired.count, 0);
    var (t', code, n, _) := AfterCreateMembers(create, dev.cfg.RingSlots(), t, from, desired.count, 0);
    if k < desired.count {
      CodesAreNegative(create(t', k).1.error);
      assert FailsAs(dev.(table := t'), nowMs, desired, select, k, code);
    }
  }

  lemma ApplyPoolReports(dev: Device, nowMs: nat, desired: PoolConfig, select: u64 -> Result<u64>)
    requires DeviceInv(dev) && desired.Valid()
    ensures var (dev', code, _) := AfterApplyPool(dev, nowMs, desired, select);
            && (code == 0 <==> dev'.pool == desired)
            && (code != 0 ==> exists k: u32 :: k < desired.count && FailsAs(dev', nowMs, desired, select, k, code))
  {
    var p := Reconcile(dev.pool, desired);
    DestroyMembersMirror(dev.table, p.destroyFrom, p.destroyTo);
    var t := AfterDestroyMembers(dev.table, p.destroyFrom, p.destroyTo).0;
    if p.createFrom < p.createTo {
      GrowthReports(dev, nowMs, desired, select, t, p.createFrom);
      var (dev', code, _) := AfterApplyPool(dev, nowMs, desired, select);
      if code != 0 {
        var k: u32 :| k < desired.count && FailsAs(dev.(table := dev'.table), nowMs, desired, select, k, code);
        assert FailsAs(dev', nowMs, desired, select, k, code);
      }
    }
  }

  /**
   A pool request is answered 0 exactly when the pool recorded is the pool asked for; else the code is that
   of the first member that could not be created, whose create would fail just so again.
   */
  lemma PoolReplyMeaning(dev: Device, handshaken: bool, nowMs: nat, desired: PoolConfig, select: u64 -> Result<u64>)
    requires DeviceInv(dev) && desired.Valid()
    ensures var (dev', code, _) := AfterSetPool(dev, handshaken, nowMs, desired, select);
            && (!handshaken ==> code == -10)
            && (handshaken && !ValidPool(desired, dev.cfg.caps, dev.cfg.TableCap()) ==> code == -12)
            && (handshaken && ValidPool(desired, dev.cfg.caps, dev.cfg.TableCap()) ==>
                  && (code == 0 <==> dev'.pool == desired)
                  && (code != 0 ==> exists k: u32 :: k < desired.count && FailsAs(dev', nowMs, desired, select, k, code)))
  {
    if handshaken && ValidPool(desired, dev.cfg.caps, dev.cfg.TableCap()) {
      ApplyPoolReports(dev, nowMs, desired, select);
    }
  }
}
