/** Mode validation and the selection of the target list an UPDATE_MODES request publishes. */
module Modes {
  import opened Prelude

  const MIN_WIDTH: u32 := 320
  const MAX_WIDTH: u32 := 7680
  const MIN_HEIGHT: u32 := 200
  const MAX_HEIGHT: u32 := 4320
  const MIN_REFRESH_MILLIHZ: u32 := 1
  const MAX_MODES_PER_MONITOR: nat := 4

  datatype BitDepth = Sdr8 | Sdr10 | Hdr10 | Hdr12
  {
    function AsRaw(): u32 {
      match this
      case Sdr8 => 8
      case Sdr10 => 10
      case Hdr10 => 110
      case Hdr12 => 112
    }
  }

  function BitDepthFromRaw(raw: u32): (r: Option<BitDepth>)
    ensures forall d: BitDepth :: r == Some(d) <==> raw == d.AsRaw()
  {
    if raw == 8 then Some(Sdr8)
    else if raw == 10 then Some(Sdr10)
    else if raw == 110 then Some(Hdr10)
    else if raw == 112 then Some(Hdr12)
    else None
  }

  /** The capability bits mode validation looks at. */
  datatype Caps = Caps(hdr10: bool, hdr12: bool, sdr10: bool)

  datatype ModeSpec = ModeSpec(width: u32, height: u32, refreshMillihz: u32)

  datatype Mode = Mode(width: u32, height: u32, refreshMillihz: u32, bitDepth: BitDepth, hdr: bool)
  {
    function Spec(): ModeSpec { ModeSpec(width, height, refreshMillihz) }
  }

  predicate InEnvelope(s: ModeSpec) {
    && MIN_WIDTH <= s.width <= MAX_WIDTH
    && MIN_HEIGHT <= s.height <= MAX_HEIGHT
    && MIN_REFRESH_MILLIHZ <= s.refreshMillihz
    && s.width % 2 == 0
    && s.height % 2 == 0
  }

  /** Dynamic range and depth agree and the driver reported the capability. */
  predicate DepthSupported(depth: BitDepth, hdr: bool, caps: Caps) {
    match depth
    case Sdr8 => !hdr
    case Sdr10 => !hdr && caps.sdr10
    case Hdr10 => hdr && caps.hdr10
    case Hdr12 => hdr && caps.hdr10 && caps.hdr12
  }

  /** The only way a Mode comes about. */
  function Validate(s: ModeSpec, depthRaw: u32, hdrRaw: u32, caps: Caps): (r: Result<Mode>)
    ensures r.Ok? ==>
              && r.value.Spec() == s && InEnvelope(s)
              && r.value.bitDepth.AsRaw() == depthRaw
              && hdrRaw == (if r.value.hdr then 1 else 0)
              && DepthSupported(r.value.bitDepth, r.value.hdr, caps)
    ensures r.Err? ==>
              !InEnvelope(s) || forall d: BitDepth, h: bool ::
                d.AsRaw() == depthRaw && hdrRaw == (if h then 1 else 0) ==> !DepthSupported(d, h, caps)
  {
    if !InEnvelope(s) then Err(BadMode)
    else
      match BitDepthFromRaw(depthRaw)
      case None => Err(BadBitDepth)
      case Some(depth) =>
        if hdrRaw > 1 then Err(BadMode)
        else
          var hdr := hdrRaw == 1;
          if DepthSupported(depth, hdr, caps) then Ok(Mode(s.width, s.height, s.refreshMillihz, depth, hdr))
          else if hdr && (depth.Hdr10? || depth.Hdr12?) then Err(HdrUnsupported)
          else Err(BadBitDepth)
  }

  // ----- validate_list -----

  /** The validated first k entries, or the error of the first entry that is bad or a repeat. */
  function ValidPrefix(specs: seq<ModeSpec>, k: nat, depthRaw: u32, hdrRaw: u32, caps: Caps): Result<seq<Mode>>
    requires k <= |specs|
  {
    if k == 0 then Ok([])
    else
      match ValidPrefix(specs, k - 1, depthRaw, hdrRaw, caps)
      case Err(e) => Err(e)
      case Ok(out) =>
        match Validate(specs[k - 1], depthRaw, hdrRaw, caps)
        case Err(e) => Err(e)
        case Ok(mode) => if mode in out then Err(BadMode) else Ok(out + [mode])
  }

  function ValidList(specs: seq<ModeSpec>, count: nat, depthRaw: u32, hdrRaw: u32, caps: Caps): Result<seq<Mode>> {
    if count == 0 || count > MAX_MODES_PER_MONITOR || count > |specs| then Err(BadMode)
    else ValidPrefix(specs, count, depthRaw, hdrRaw, caps)
  }

  method ValidateList(specs: seq<ModeSpec>, count: nat, depthRaw: u32, hdrRaw: u32, caps: Caps)
    returns (r: Result<seq<Mode>>)
    ensures r == ValidList(specs, count, depthRaw, hdrRaw, caps)
  {
    if count == 0 || count > MAX_MODES_PER_MONITOR || count > |specs| { return Err(BadMode); }
    var out: seq<Mode> := [];
    var k := 0;
    while k < count
      invariant 0 <= k <= count
      invariant ValidPrefix(specs, k, depthRaw, hdrRaw, caps) == Ok(out)
    {
      var v := Validate(specs[k], depthRaw, hdrRaw, caps);
      if v.Err? || v.value in out {
        PrefixErrorStands(specs, k + 1, count, depthRaw, hdrRaw, caps);
        return Err(if v.Err? then v.error else BadMode);
      }
      out := out + [v.value];
      k := k + 1;
    }
    return Ok(out);
  }

  lemma {:induction false} PrefixErrorStands(specs: seq<ModeSpec>, k: nat, n: nat, depthRaw: u32, hdrRaw: u32, caps: Caps)
    requires k <= n <= |specs| && ValidPrefix(specs, k, depthRaw, hdrRaw, caps).Err?
    ensures ValidPrefix(specs, n, depthRaw, hdrRaw, caps) == ValidPrefix(specs, k, depthRaw, hdrRaw, caps)
  {
    if k < n { PrefixErrorStands(specs, k, n - 1, depthRaw, hdrRaw, caps); }
  }

  ghost predicate Distinct<T>(s: seq<T>) { forall i, j :: 0 <= i < j < |s| ==> s[i] != s[j] }

  lemma DistinctGrows<T>(s: seq<T>, x: T)
    ensures Distinct(s + [x]) <==> Distinct(s) && x !in s
  {
    var t := s + [x];
    if Distinct(t) {
      forall i, j | 0 <= i < j < |s| ensures s[i] != s[j] { assert t[i] != t[j]; }
      forall i | 0 <= i < |s| ensures s[i] != x { assert t[i] != t[|s|]; }
    }
  }

  /** Every mode of the list is the mode the spec at its place validates to. */
  ghost predicate Validates(specs: seq<ModeSpec>, out: seq<Mode>, depthRaw: u32, hdrRaw: u32, caps: Caps) {
    && |out| <= |specs|
    && forall i :: 0 <= i < |out| ==> Validate(specs[i], depthRaw, hdrRaw, caps) == Ok(out[i])
  }

  lemma {:induction false} ValidPrefixExactly(specs: seq<ModeSpec>, k: nat, depthRaw: u32, hdrRaw: u32, caps: Caps)
    requires k <= |specs|
    ensures var r := ValidPrefix(specs, k, depthRaw, hdrRaw, caps);
            && (r.Ok? ==> |r.value| == k && Distinct(r.value) && Validates(specs, r.value, depthRaw, hdrRaw, caps))
            && (r.Ok? <==> && (forall i :: 0 <= i < k ==> Validate(specs[i], depthRaw, hdrRaw, caps).Ok?)
                           && Distinct(specs[..k]))
  {
    if k > 0 {
      ValidPrefixExactly(specs, k - 1, depthRaw, hdrRaw, caps);
      var p := ValidPrefix(specs, k - 1, depthRaw, hdrRaw, caps);
      var v := Validate(specs[k - 1], depthRaw, hdrRaw, caps);
      assert specs[..k] == specs[..k - 1] + [specs[k - 1]];
      DistinctGrows(specs[..k - 1], specs[k - 1]);
      if p.Ok? && v.Ok? {
        SameSpecSameMode(specs, p.value, k - 1, depthRaw, hdrRaw, caps);
        DistinctGrows(p.value, v.value);
      }
    }
  }

  lemma SameSpecSameMode(specs: seq<ModeSpec>, out: seq<Mode>, k: nat, depthRaw: u32, hdrRaw: u32, caps: Caps)
    requires k < |specs| && |out| == k && Validates(specs, out, depthRaw, hdrRaw, caps)
    requires Validate(specs[k], depthRaw, hdrRaw, caps).Ok?
    ensures Validate(specs[k], depthRaw, hdrRaw, caps).value in out <==> specs[k] in specs[..k]
  {
    var m := Validate(specs[k], depthRaw, hdrRaw, caps).value;
    if m in out {
      var i :| 0 <= i < k && out[i] == m;
      assert specs[..k][i] == m.Spec();
    }
    if specs[k] in specs[..k] {
      var i :| 0 <= i < k && specs[..k][i] == specs[k];
      assert out[i] == m;
    }
  }

  /** A list is accepted exactly when it has 1 to 4 entries, each valid, none twice. */
  lemma ValidListExactly(specs: seq<ModeSpec>, count: nat, depthRaw: u32, hdrRaw: u32, caps: Caps)
    ensures var r := ValidList(specs, count, depthRaw, hdrRaw, caps);
            && (r.Ok? ==> |r.value| == count && Distinct(r.value) && Validates(specs, r.value, depthRaw, hdrRaw, caps))
            && (r.Ok? <==> && 1 <= count <= MAX_MODES_PER_MONITOR && count <= |specs|
                           && (forall i :: 0 <= i < count ==> Validate(specs[i], depthRaw, hdrRaw, caps).Ok?)
                           && Distinct(specs[..count]))
  {
    if count <= |specs| { ValidPrefixExactly(specs, count, depthRaw, hdrRaw, caps); }
  }

  // ----- select_targets -----

  datatype TargetSelection = TargetSelection(
    targets: seq<Mode>, accepted: nat, rejected: nat, firstRejected: Option<nat>)

  /** The selection over the first k requested entries. */
  function SelectFirst(supported: seq<Mode>, requested: seq<Mode>, k: nat): TargetSelection
    requires k <= |requested|
  {
    if k == 0 then TargetSelection([], 0, 0, None)
    else
      var s := SelectFirst(supported, requested, k - 1);
      var mode := requested[k - 1];
      if mode !in supported then
        s.(rejected := s.rejected + 1,
           firstRejected := if s.firstRejected.None? then Some(k - 1) else s.firstRejected)
      else
        s.(accepted := s.accepted + 1,
           targets := if mode in s.targets then s.targets else s.targets + [mode])
  }

  function Selection(supported: seq<Mode>, requested: seq<Mode>): TargetSelection {
    SelectFirst(supported, requested, |requested|)
  }

  method SelectTargets(supported: seq<Mode>, requested: seq<Mode>) returns (s: TargetSelection)
    ensures s == Selection(supported, requested)
  {
    var targets: seq<Mode> := [];
    var accepted, rejected := 0, 0;
    var firstRejected: Option<nat> := None;
    for i := 0 to |requested|
      invariant SelectFirst(supported, requested, i) ==
                TargetSelection(targets, accepted, rejected, firstRejected)
    {
      var mode := requested[i];
      if mode !in supported {
        rejected := rejected + 1;
        if firstRejected.None? { firstRejected := Some(i); }
        continue;
      }
      if mode !in targets { targets := targets + [mode]; }
      accepted := accepted + 1;
    }
    return TargetSelection(targets, accepted, rejected, firstRejected);
  }

  /** The entries among the first k that the monitor was created with, and those it was not. */
  ghost function OnOffer(supported: seq<Mode>, requested: seq<Mode>, k: nat): set<nat>
    requires k <= |requested|
  {
    set i: nat | i < k && requested[i] in supported
  }

  ghost function LeftOut(supported: seq<Mode>, requested: seq<Mode>, k: nat): set<nat>
    requires k <= |requested|
  {
    set i: nat | i < k && requested[i] !in supported
  }

  /** Where an entry first stands. */
  ghost function FirstAt(s: seq<Mode>, mode: Mode): (i: nat)
    requires mode in s
    ensures i < |s| && s[i] == mode && forall j :: 0 <= j < i ==> s[j] != mode
  {
    if s[0] == mode then 0 else 1 + FirstAt(s[1..], mode)
  }

  /** The list keeps the order of the request. */
  ghost predicate InOrderOf(targets: seq<Mode>, requested: seq<Mode>) {
    && (forall m :: m in targets ==> m in requested)
    && forall i, j :: 0 <= i < j < |targets| ==> FirstAt(requested, targets[i]) < FirstAt(requested, targets[j])
  }

  /** One entry more is offered or left out. */
  lemma OneMoreEntry(supported: seq<Mode>, requested: seq<Mode>, k: nat)
    requires 0 < k <= |requested|
    ensures OnOffer(supported, requested, k) ==
            OnOffer(supported, requested, k - 1) + (if requested[k - 1] in supported then {k - 1} else {})
    ensures LeftOut(supported, requested, k) ==
            LeftOut(supported, requested, k - 1) + (if requested[k - 1] in supported then {} else {k - 1})
  {
  }

  lemma {:induction false} SelectFirstCounts(supported: seq<Mode>, requested: seq<Mode>, k: nat)
    requires k <= |requested|
    ensures var s := SelectFirst(supported, requested, k);
            && s.accepted + s.rejected == k
            && s.accepted == |OnOffer(supported, requested, k)| && s.rejected == |LeftOut(supported, requested, k)|
            && (s.firstRejected.None? <==> forall i :: 0 <= i < k ==> requested[i] in supported)
            && (s.rejected == 0 <==> s.firstRejected.None?)
            && (s.firstRejected.Some? ==>
                  && s.firstRejected.value < k
                  && requested[s.firstRejected.value] !in supported
                  && forall i :: 0 <= i < s.firstRejected.value ==> requested[i] in supported)
  {
    if k > 0 {
      SelectFirstCounts(supported, requested, k - 1);
      OneMoreEntry(supported, requested, k);
    }
  }

  lemma {:induction false} SelectFirstTargets(supported: seq<Mode>, requested: seq<Mode>, k: nat)
    requires k <= |requested|
    ensures var s := SelectFirst(supported, requested, k);
            Distinct(s.targets) && forall m :: m in s.targets <==> m in requested[..k] && m in supported
  {
    if k > 0 {
      SelectFirstTargets(supported, requested, k - 1);
      assert requested[..k] == requested[..k - 1] + [requested[k - 1]];
      DistinctGrows(SelectFirst(supported, requested, k - 1).targets, requested[k - 1]);
    }
  }

  /** A request that names no mode twice loses only what it counts as rejected. */
  lemma {:induction false} SelectFirstOfDistinct(supported: seq<Mode>, requested: seq<Mode>, k: nat)
    requires k <= |requested| && Distinct(requested[..k])
    ensures var s := SelectFirst(supported, requested, k);
            |s.targets| == s.accepted && (s.rejected == 0 ==> s.targets == requested[..k])
  {
    if k > 0 {
      assert requested[..k] == requested[..k - 1] + [requested[k - 1]];
      DistinctGrows(requested[..k - 1], requested[k - 1]);
      SelectFirstOfDistinct(supported, requested, k - 1);
      SelectFirstTargets(supported, requested, k - 1);
    }
  }

  /** An entry taken now first stands at the end of what has been looked at. */
  lemma TakenInOrder(targets: seq<Mode>, requested: seq<Mode>, k: nat)
    requires k < |requested| && InOrderOf(targets, requested) && requested[k] !in requested[..k]
    requires forall m :: m in targets ==> m in requested[..k]
    ensures InOrderOf(targets + [requested[k]], requested)
  {
    assert FirstAt(requested, requested[k]) == k by {
      assert forall j :: 0 <= j < k ==> requested[j] in requested[..k];
    }
    forall m | m in targets ensures FirstAt(requested, m) < k {
      var j :| 0 <= j < k && requested[..k][j] == m;
      assert requested[j] == m;
    }
  }

  lemma {:induction false} SelectFirstOrder(supported: seq<Mode>, requested: seq<Mode>, k: nat)
    requires k <= |requested|
    ensures InOrderOf(SelectFirst(supported, requested, k).targets, requested)
  {
    if k > 0 {
      SelectFirstOrder(supported, requested, k - 1);
      SelectFirstTargets(supported, requested, k - 1);
      var s, mode := SelectFirst(supported, requested, k - 1), requested[k - 1];
      if mode in supported && mode !in s.targets { TakenInOrder(s.targets, requested, k - 1); }
    }
  }

  /**
   The selection publishes exactly the requested modes the monitor was created with, each once and in the
   order asked for; it counts the entries offered and those left out, and names the first of these.
   */
  lemma SelectionMeaning(supported: seq<Mode>, requested: seq<Mode>)
    ensures var s := Selection(supported, requested);
            && s.accepted + s.rejected == |requested|
            && s.accepted == |OnOffer(supported, requested, |requested|)|
            && s.rejected == |LeftOut(supported, requested, |requested|)|
            && Distinct(s.targets) && InOrderOf(s.targets, requested)
            && (forall m :: m in s.targets <==> m in requested && m in supported)
            && (s.firstRejected.None? <==> forall i :: 0 <= i < |requested| ==> requested[i] in supported)
            && (s.rejected == 0 <==> s.firstRejected.None?)
            && (s.firstRejected.Some? ==>
                  && s.firstRejected.value < |requested|
                  && requested[s.firstRejected.value] !in supported
                  && forall i :: 0 <= i < s.firstRejected.value ==> requested[i] in supported)
            && (s.rejected == 0 && Distinct(requested) ==> s.targets == requested)
            && (Distinct(requested) ==> |s.targets| == s.accepted)
  {
    SelectFirstCounts(supported, requested, |requested|);
    SelectFirstTargets(supported, requested, |requested|);
    SelectFirstOrder(supported, requested, |requested|);
    assert requested[..|requested|] == requested;
    if Distinct(requested) { SelectFirstOfDistinct(supported, requested, |requested|); }
  }

  ghost predicate Within(targets: seq<Mode>, superset: seq<Mode>) {
    forall m :: m in targets ==> m in superset
  }
}
