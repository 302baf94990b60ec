/** `create_effects` of fg-haptic.c: for every device, destroy what the
    hardware stores, mark the reset slots absent, then upload the stick
    shaker and the two constant forces the device's capabilities and
    configuration ask for. A failed upload ends the program. */
module Effects {
  import opened Hardware
  import opened Devices

  /** `0x1000`, the level both constant forces start with. */
  const INITIAL_LEVEL: real := 4096.0

  /** The shaker is uploaded only for a sine-capable device whose shaker
      gain is positive. */
  predicate WantsShaker(d: Device) {
    Sine in d.supported && d.config.shakerGain > 0.0
  }

  /** The constant forces are uploaded for every constant-capable device. */
  predicate WantsConstant(d: Device) {
    Constant in d.supported
  }

  /** `SDL_HapticNumEffects` of the device: what it was probed as for an
      open device, and nothing (an error) for one SDL never opened. */
  function ResetCount(d: Device): nat {
    if d.open then d.numEffects else 0
  }

  /** The device entries `create_effects` works on: nine slots, as the
      `effectId[EFFECTS]` array has. */
  predicate Creatable(d: Device) {
    |d.effectIds| == EFFECTS
  }

  /** The slots the reset loop marks absent: those below the count, and
      no more than the nine there are. The C loop marks `effectId[x]` for
      every `x` below the count; see `ResetAsWritten` for a count above
      nine. */
  function ResetSlots(d: Device): (r: nat)
    ensures r <= EFFECTS && r <= ResetCount(d)
    ensures r == ResetCount(d) || r == EFFECTS
  {
    if ResetCount(d) <= EFFECTS then ResetCount(d) else EFFECTS
  }

  /** How many words past the nine slots the reset loop as written marks
      `-1`. */
  function Overrun(d: Device): (r: nat)
    ensures r == 0 <==> ResetCount(d) <= EFFECTS
    ensures ResetSlots(d) + r == ResetCount(d)
  {
    if ResetCount(d) <= EFFECTS then 0 else ResetCount(d) - EFFECTS
  }

  /** The words of `params` that follow `effectId[8]` in the device entry:
      pilot x, y, z and stick x, y, z (floats), then the shaker trigger. */
  const FLOAT_WORDS: nat := 6

  /** What the reset loop as written leaves in the words it reaches: the
      slots, how many float words of `params` it overwrote (an all-ones
      word is a NaN, which a `real` cannot hold) and the shaker trigger. */
  datatype Reset = Reset(ids: seq<int>, spoiledFloats: nat, trigger: int)

  /** The reset loop of `create_effects` as written: a count of more than
      nine spoils the parameters that follow the slots, and one of more
      than fifteen turns the shaker trigger into -1. */
  function ResetAsWritten(d: Device): (r: Reset)
    requires Creatable(d)
    ensures r.ids == Cleared(d.effectIds, ResetSlots(d))
    ensures r.spoiledFloats == 0 <==> ResetCount(d) <= EFFECTS
    ensures r.spoiledFloats <= FLOAT_WORDS
    ensures r.trigger != d.params.shakerTrigger ==> ResetCount(d) > EFFECTS + FLOAT_WORDS
    ensures ResetCount(d) > EFFECTS + FLOAT_WORDS ==> r.trigger == NO_EFFECT
  {
    var n := Overrun(d);
    Reset(Cleared(d.effectIds, ResetSlots(d)),
          if n <= FLOAT_WORDS then n else FLOAT_WORDS,
          if n > FLOAT_WORDS then NO_EFFECT else d.params.shakerTrigger)
  }

  /** The slots uploaded for a device, in upload order. */
  function Planned(d: Device): (r: seq<nat>)
    ensures STICK_SHAKER in r <==> WantsShaker(d)
    ensures CONST_X in r <==> WantsConstant(d)
    ensures CONST_Y in r <==> WantsConstant(d)
    ensures forall k :: 0 <= k < |r| ==> r[k] < EFFECTS
  {
    (if WantsShaker(d) then [STICK_SHAKER] else []) + (if WantsConstant(d) then [CONST_X, CONST_Y] else [])
  }

  /** The kind of effect a slot is given. */
  function KindFor(slot: nat): EffectKind {
    if slot == STICK_SHAKER then SineWave else ConstantForce
  }

  /** The upload calls for the given slots of device `i`. */
  function NewCalls(i: nat, slots: seq<nat>): (r: seq<HwCall>)
    ensures |r| == |slots|
    ensures forall k :: 0 <= k < |slots| ==> r[k] == HwCall(i, NewEffect(slots[k], KindFor(slots[k])))
  {
    seq(|slots|, k requires 0 <= k < |slots| => HwCall(i, NewEffect(slots[k], KindFor(slots[k]))))
  }

  /** The reset loop's calls: identifiers `0 .. n - 1` destroyed in order. */
  function Destroys(i: nat, n: nat): (r: seq<HwCall>)
    ensures |r| == n
    ensures forall x :: 0 <= x < n ==> r[x] == HwCall(i, Destroy(x))
  {
    seq(n, x requires 0 <= x < n => HwCall(i, Destroy(x)))
  }

  /** The outcome for one device: its new entry and the calls made, or the
      calls made up to the failed upload. */
  datatype Step = Made(device: Device, calls: seq<HwCall>) | Failed(calls: seq<HwCall>)

  /** What the slots hold after the reset loop: absent below the count,
      untouched above it. */
  function Cleared(ids: seq<int>, n: nat): (r: seq<int>)
    requires n <= |ids|
    ensures |r| == |ids|
    ensures forall x :: 0 <= x < |ids| ==> r[x] == (if x < n then NO_EFFECT else ids[x])
  {
    seq(|ids|, x requires 0 <= x < |ids| => if x < n then NO_EFFECT else ids[x])
  }

  /** The first planned slot whose upload fails, if any. */
  function FirstFailure(i: nat, slots: seq<nat>, upload: Uploader): (r: nat)
    ensures r <= |slots|
    ensures forall k :: 0 <= k < r ==> upload(i, slots[k]) >= 0
    ensures r < |slots| ==> upload(i, slots[r]) < 0
    ensures r == |slots| <==> forall k :: 0 <= k < |slots| ==> upload(i, slots[k]) >= 0
    decreases |slots|
  {
    if slots == [] then 0
    else if upload(i, slots[0]) < 0 then 0
    else 1 + FirstFailure(i, slots[1..], upload)
  }

  /** The slot identifiers after the uploads of `slots` all succeeded. */
  function Installed(i: nat, ids: seq<int>, slots: seq<nat>, upload: Uploader): (r: seq<int>)
    requires forall k :: 0 <= k < |slots| ==> slots[k] < |ids|
    ensures |r| == |ids|
    ensures forall x :: 0 <= x < |ids| ==> r[x] == (if x in slots then upload(i, x) else ids[x])
    decreases |slots|
  {
    if slots == [] then ids
    else
      var r := Installed(i, ids[slots[0] := upload(i, slots[0])], slots[1..], upload);
      assert forall x :: x in slots <==> x == slots[0] || x in slots[1..];
      r
  }

  /** The level a constant force starts from: `0x1000` when the constant
      forces are uploaded, 0 from the `memset` otherwise. */
  function StartLevel(d: Device): real {
    if WantsConstant(d) then INITIAL_LEVEL else 0.0
  }

  /** The calls of a device whose upload of `Planned(d)[f]` fails are the
      destroys and the uploads up to and including it: all on the device,
      and ending in the refused upload. */
  lemma FailedCallsEnd(i: nat, d: Device, f: nat, upload: Uploader)
    requires f < |Planned(d)| && upload(i, Planned(d)[f]) < 0
    ensures var calls := Destroys(i, ResetCount(d)) + NewCalls(i, Planned(d)[..f + 1]);
      && EndsInFailedUpload(calls, upload)
      && calls[|calls| - 1] == HwCall(i, NewEffect(Planned(d)[f], KindFor(Planned(d)[f])))
      && forall c :: c in calls ==> c.device == i
  {
    var destroys := Destroys(i, ResetCount(d));
    var news := NewCalls(i, Planned(d)[..f + 1]);
    var calls := destroys + news;
    assert calls[|calls| - 1] == news[f];
    assert forall c :: c in destroys ==> c.device == i;
  }

  /** The calls of a device all of whose uploads succeed are all made on
      it. */
  lemma MadeCallsOn(i: nat, d: Device)
    ensures forall c :: c in Destroys(i, ResetCount(d)) + NewCalls(i, Planned(d)) ==> c.device == i
  {
    var destroys := Destroys(i, ResetCount(d));
    var news := NewCalls(i, Planned(d));
    assert forall c :: c in destroys ==> c.device == i;
    assert forall c :: c in news ==> c.device == i;
  }

  /** The first refused upload lies among the planned ones exactly when one
      of them is refused. */
  lemma FirstFailureFails(i: nat, d: Device, upload: Uploader)
    ensures FirstFailure(i, Planned(d), upload) < |Planned(d)| <==> Fails(i, d, upload)
  {
  }

  /** The device entry after the planned uploads: planned slots hold the
      identifiers their uploads returned, the other reset slots are
      absent, the slots above the count are untouched, the levels start
      over, and nothing else of the entry changes, the parameters
      included, however many effects the hardware reports. */
  function Rebuilt(i: nat, d: Device, upload: Uploader): (r: Device)
    requires Creatable(d)
    ensures |r.effectIds| == EFFECTS
    ensures forall x :: 0 <= x < EFFECTS && x in Planned(d) ==> r.effectIds[x] == upload(i, x)
    ensures forall x :: 0 <= x < ResetSlots(d) && x !in Planned(d) ==> r.effectIds[x] == NO_EFFECT
    ensures forall x :: ResetCount(d) <= x < EFFECTS && x !in Planned(d) ==> r.effectIds[x] == d.effectIds[x]
    ensures r.levelX == r.levelY == (if WantsConstant(d) then INITIAL_LEVEL else 0.0)
    ensures r == d.(effectIds := r.effectIds, levelX := r.levelX, levelY := r.levelY)
  {
    var ids := Installed(i, Cleared(d.effectIds, ResetSlots(d)), Planned(d), upload);
    d.(effectIds := ids, levelX := StartLevel(d), levelY := StartLevel(d))
  }

  /** When no upload is refused, every planned slot holds a valid
      identifier. */
  lemma RebuiltIdsValid(i: nat, d: Device, upload: Uploader)
    requires Creatable(d) && !Fails(i, d, upload)
    ensures forall x :: 0 <= x < EFFECTS && x in Planned(d) ==> Rebuilt(i, d, upload).effectIds[x] >= 0
  {
    forall x | 0 <= x < EFFECTS && x in Planned(d)
      ensures upload(i, x) >= 0
    {
      PlannedSucceeds(i, d, upload, x);
    }
  }

  /** Every planned upload of a device none of whose uploads fails
      succeeds. */
  lemma PlannedSucceeds(i: nat, d: Device, upload: Uploader, x: nat)
    requires !Fails(i, d, upload) && x in Planned(d)
    ensures upload(i, x) >= 0
  {
    var k :| 0 <= k < |Planned(d)| && Planned(d)[k] == x;
  }

  /** Whether one of the device's planned uploads is refused. */
  predicate Fails(i: nat, d: Device, upload: Uploader) {
    exists k :: 0 <= k < |Planned(d)| && upload(i, Planned(d)[k]) < 0
  }

  /** One iteration of the device loop of `create_effects`: the uploads run
      in the order of `Planned`, and the first that fails ends the
      program. */
  function CreateFor(i: nat, d: Device, upload: Uploader): (r: Step)
    requires Creatable(d)
    ensures r.Failed? <==> Fails(i, d, upload)
    ensures r.Failed? ==>
              var k := FirstFailure(i, Planned(d), upload);
              r.calls == Destroys(i, ResetCount(d)) + NewCalls(i, Planned(d)[..k + 1])
    ensures r.Failed? ==> EndsInFailedUpload(r.calls, upload)
    ensures r.Made? ==> r.calls == Destroys(i, ResetCount(d)) + NewCalls(i, Planned(d))
    ensures r.Made? ==> r.device == Rebuilt(i, d, upload)
    ensures forall c :: c in r.calls ==> c.device == i
  {
    var p := Planned(d);
    var f := FirstFailure(i, p, upload);
    FirstFailureFails(i, d, upload);
    if f < |p| then
      FailedCallsEnd(i, d, f, upload);
      Failed(Destroys(i, ResetCount(d)) + NewCalls(i, p[..f + 1]))
    else
      MadeCallsOn(i, d);
      Made(Rebuilt(i, d, upload), Destroys(i, ResetCount(d)) + NewCalls(i, p))
  }

  /** The last call made is an upload the hardware refused. */
  predicate EndsInFailedUpload(calls: seq<HwCall>, upload: Uploader) {
    && |calls| > 0
    && calls[|calls| - 1].op.NewEffect?
    && upload(calls[|calls| - 1].device, calls[|calls| - 1].op.slot) < 0
  }

  /** The outcome of `create_effects`: every device's new entry and the
      calls made, or the calls made up to the upload that ended the
      program. */
  datatype Outcome = Created(devices: seq<Device>, calls: seq<HwCall>) | Aborted(calls: seq<HwCall>)

  predicate AllCreatable(devs: seq<Device>) {
    forall i :: 0 <= i < |devs| ==> Creatable(devs[i])
  }

  /** The step every device takes, by device index. */
  function Steps(devs: seq<Device>, upload: Uploader): (r: seq<Step>)
    requires AllCreatable(devs)
    ensures |r| == |devs|
    ensures forall i :: 0 <= i < |devs| ==> r[i] == CreateFor(i, devs[i], upload)
  {
    seq(|devs|, i requires 0 <= i < |devs| && Creatable(devs[i]) => CreateFor(i, devs[i], upload))
  }

  /** The device loop from device `k` on, given each device's step: the
      first failed step ends it, otherwise every device's entry and calls
      are collected. */
  function Chain(steps: seq<Step>, k: nat): Outcome
    requires k <= |steps|
    decreases |steps| - k
  {
    if k == |steps| then Created([], [])
    else if steps[k].Failed? then Aborted(steps[k].calls)
    else
      var rest := Chain(steps, k + 1);
      var calls := steps[k].calls + rest.calls;
      if rest.Aborted? then Aborted(calls) else Created([steps[k].device] + rest.devices, calls)
  }

  /** The loop aborts exactly when one of the steps from `k` on failed. */
  lemma {:induction false} ChainAborts(steps: seq<Step>, k: nat)
    requires k <= |steps|
    ensures Chain(steps, k).Aborted? <==> exists i :: k <= i < |steps| && steps[i].Failed?
    decreases |steps| - k
  {
    if k < |steps| {
      ChainAborts(steps, k + 1);
    }
  }

  /** A completed loop holds the entry of every step from `k` on, in
      order. */
  lemma {:induction false} ChainDevices(steps: seq<Step>, k: nat)
    requires k <= |steps|
    ensures var r := Chain(steps, k);
      r.Created? ==>
        && |r.devices| == |steps| - k
        && forall i :: k <= i < |steps| ==> steps[i].Made? && r.devices[i - k] == steps[i].device
    decreases |steps| - k
  {
    var r := Chain(steps, k);
    if k < |steps| && r.Created? {
      var rest := Chain(steps, k + 1);
      ChainDevices(steps, k + 1);
      assert r.devices == [steps[k].device] + rest.devices;
      forall i | k < i < |steps|
        ensures steps[i].Made? && r.devices[i - k] == steps[i].device
      {
        assert r.devices[i - k] == rest.devices[i - (k + 1)];
      }
    }
  }

  /** An aborted loop's last call is the last call of a failed step. */
  lemma {:induction false} ChainEnds(steps: seq<Step>, k: nat, upload: Uploader)
    requires k <= |steps|
    requires forall i :: 0 <= i < |steps| && steps[i].Failed? ==> EndsInFailedUpload(steps[i].calls, upload)
    ensures Chain(steps, k).Aborted? ==> EndsInFailedUpload(Chain(steps, k).calls, upload)
    decreases |steps| - k
  {
    var r := Chain(steps, k);
    if k < |steps| && r.Aborted? && steps[k].Made? {
      var rest := Chain(steps, k + 1);
      ChainEnds(steps, k + 1, upload);
      assert r.calls == steps[k].calls + rest.calls;
      assert r.calls[|r.calls| - 1] == rest.calls[|rest.calls| - 1];
    }
  }

  /** The calls of steps `k .. n - 1`, in order. */
  function CallsOf(steps: seq<Step>, k: nat, n: nat): seq<HwCall>
    requires k <= n <= |steps|
    decreases n - k
  {
    if k == n then [] else steps[k].calls + CallsOf(steps, k + 1, n)
  }

  /** The first failed step from `k` on, or the number of steps when none
      failed. */
  function FirstFailed(steps: seq<Step>, k: nat): (r: nat)
    requires k <= |steps|
    ensures k <= r <= |steps|
    ensures forall j :: k <= j < r ==> steps[j].Made?
    ensures r < |steps| ==> steps[r].Failed?
    decreases |steps| - k
  {
    if k == |steps| || steps[k].Failed? then k else FirstFailed(steps, k + 1)
  }

  /** A completed loop made the calls of every step from `k` on; an aborted
      one made those of the completed steps before the first failed step,
      then the calls of that step. */
  lemma {:induction false} ChainCalls(steps: seq<Step>, k: nat)
    requires k <= |steps|
    ensures var r := Chain(steps, k);
      r.Created? ==> r.calls == CallsOf(steps, k, |steps|)
    ensures var r := Chain(steps, k);
      var f := FirstFailed(steps, k);
      r.Aborted? ==> f < |steps| && r.calls == CallsOf(steps, k, f) + steps[f].calls
    decreases |steps| - k
  {
    if k < |steps| && steps[k].Made? {
      var rest := Chain(steps, k + 1);
      ChainCalls(steps, k + 1);
      var f := FirstFailed(steps, k);
      assert f == FirstFailed(steps, k + 1);
      if rest.Aborted? {
        assert CallsOf(steps, k, f) == steps[k].calls + CallsOf(steps, k + 1, f);
        assert Chain(steps, k).calls == steps[k].calls + (CallsOf(steps, k + 1, f) + steps[f].calls);
      }
    }
  }

  /** A step fails exactly when the device has an upload refused. */
  lemma StepsFail(devs: seq<Device>, upload: Uploader)
    requires AllCreatable(devs)
    ensures (exists i :: 0 <= i < |devs| && Steps(devs, upload)[i].Failed?)
            <==> exists i :: 0 <= i < |devs| && Fails(i, devs[i], upload)
  {
    var steps := Steps(devs, upload);
    if i :| 0 <= i < |devs| && steps[i].Failed? {
      assert Fails(i, devs[i], upload);
    }
    if i :| 0 <= i < |devs| && Fails(i, devs[i], upload) {
      assert steps[i].Failed?;
    }
  }

  /** `create_effects`. */
  function CreateEffects(devs: seq<Device>, upload: Uploader): (r: Outcome)
    requires AllCreatable(devs)
    ensures r.Aborted? <==> exists i :: 0 <= i < |devs| && Fails(i, devs[i], upload)
    ensures r.Created? ==>
              && |r.devices| == |devs|
              && forall i :: 0 <= i < |devs| ==> r.devices[i] == Rebuilt(i, devs[i], upload)
    ensures r.Aborted? ==> EndsInFailedUpload(r.calls, upload)
    ensures r.Created? ==> r.calls == CallsOf(Steps(devs, upload), 0, |devs|)
    ensures r.Aborted? ==>
              var f := FirstFailed(Steps(devs, upload), 0);
              && f < |devs| && Fails(f, devs[f], upload)
              && (forall j :: 0 <= j < f ==> !Fails(j, devs[j], upload))
              && r.calls == CallsOf(Steps(devs, upload), 0, f) + CreateFor(f, devs[f], upload).calls
  {
    var steps := Steps(devs, upload);
    ChainAborts(steps, 0);
    StepsFail(devs, upload);
    ChainDevices(steps, 0);
    StepsOutcomes(devs, upload);
    ChainEnds(steps, 0, upload);
    ChainCalls(steps, 0);
    FirstFailedDevice(devs, upload);
    Chain(steps, 0)
  }

  /** The first failed step is the first device with a refused upload. */
  lemma FirstFailedDevice(devs: seq<Device>, upload: Uploader)
    requires AllCreatable(devs)
    ensures var steps := Steps(devs, upload);
      var f := FirstFailed(steps, 0);
      && (f < |devs| ==> Fails(f, devs[f], upload) && steps[f] == CreateFor(f, devs[f], upload))
      && forall j :: 0 <= j < f ==> !Fails(j, devs[j], upload)
  {
    var steps := Steps(devs, upload);
    var f := FirstFailed(steps, 0);
    forall j | 0 <= j < f
      ensures !Fails(j, devs[j], upload)
    {
      assert steps[j].Made?;
    }
    if f < |devs| {
      assert steps[f].Failed?;
    }
  }

  /** A completed step holds the rebuilt device; a failed one ends in the
      refused upload. */
  lemma StepsOutcomes(devs: seq<Device>, upload: Uploader)
    requires AllCreatable(devs)
    ensures forall i :: 0 <= i < |devs| && Steps(devs, upload)[i].Made? ==>
              Steps(devs, upload)[i].device == Rebuilt(i, devs[i], upload)
    ensures forall i :: 0 <= i < |devs| && Steps(devs, upload)[i].Failed? ==>
              EndsInFailedUpload(Steps(devs, upload)[i].calls, upload)
  {
  }

  /** On a device that resets at least the three used slots, a successful
      rebuild leaves the constant slots present exactly when the device has
      constant forces, and the shaker slot present exactly when it wants
      the shaker: the tests the control loop makes before reloading. */
  lemma LiveSlots(i: nat, d: Device, upload: Uploader)
    requires Creatable(d) && !Fails(i, d, upload)
    requires ResetCount(d) > STICK_SHAKER
    ensures var ids := Rebuilt(i, d, upload).effectIds;
      && (ids[CONST_X] != NO_EFFECT && ids[CONST_Y] != NO_EFFECT <==> WantsConstant(d))
      && (ids[STICK_SHAKER] != NO_EFFECT <==> WantsShaker(d))
  {
    var ids := Rebuilt(i, d, upload).effectIds;
    var p := Planned(d);
    RebuiltIdsValid(i, d, upload);
    assert CONST_X in p ==> ids[CONST_X] >= 0;
    assert CONST_X !in p ==> ids[CONST_X] == NO_EFFECT;
    assert CONST_Y in p ==> ids[CONST_Y] >= 0;
    assert STICK_SHAKER in p ==> ids[STICK_SHAKER] >= 0;
    assert STICK_SHAKER !in p ==> ids[STICK_SHAKER] == NO_EFFECT;
  }

  /** Without the reset reaching it, a slot that is not re-created keeps
      whatever identifier it held: a sine device storing two effects whose
      shaker gain has dropped to 0 keeps the shaker identifier of the
      previous rebuild, so the slot does not read as absent. */
  lemma StaleShakerSlot(upload: Uploader)
    ensures var d := ZeroDevice().(open := true, supported := {Sine}, numEffects := 2,
                                   effectIds := ZERO_IDS[STICK_SHAKER := 5]);
      && Creatable(d) && !Fails(0, d, upload) && !WantsShaker(d)
      && Rebuilt(0, d, upload).effectIds[STICK_SHAKER] == 5
  {
    var d := ZeroDevice().(open := true, supported := {Sine}, numEffects := 2,
                           effectIds := ZERO_IDS[STICK_SHAKER := 5]);
    assert Planned(d) == [];
  }

  /** A quiet open device reporting sixteen effects: as written, the reset
      spoils all six float parameters and turns its shaker trigger into
      -1, so it is no longer quiet; the bounded reset keeps its
      parameters. */
  lemma ResetOverrun(upload: Uploader)
    ensures var d := ZeroDevice().(open := true, numEffects := 16);
      && Creatable(d) && d.params == ZeroParams()
      && ResetAsWritten(d).spoiledFloats == FLOAT_WORDS
      && ResetAsWritten(d).trigger == NO_EFFECT != ZeroParams().shakerTrigger
      && Rebuilt(0, d, upload).params == ZeroParams()
  {
  }

  /** Rebuilding a rebuilt entry with the same hardware answers changes
      nothing. */
  lemma RebuiltIdempotent(i: nat, d: Device, upload: Uploader)
    requires Creatable(d) && !Fails(i, d, upload)
    ensures var e := Rebuilt(i, d, upload);
      Creatable(e) && !Fails(i, e, upload) && Rebuilt(i, e, upload) == e
  {
    var e := Rebuilt(i, d, upload);
    RebuiltKeepsPlan(i, d, upload);
    RebuiltIdsStable(i, d, upload);
    var f := Rebuilt(i, e, upload);
    assert f.levelX == e.levelX && f.levelY == e.levelY;
  }

  /** A rebuild keeps what decides the next one: the plan and the reset
      count. */
  lemma RebuiltKeepsPlan(i: nat, d: Device, upload: Uploader)
    requires Creatable(d)
    ensures var e := Rebuilt(i, d, upload);
      && Planned(e) == Planned(d) && ResetCount(e) == ResetCount(d) && Creatable(e)
      && (Fails(i, e, upload) <==> Fails(i, d, upload))
  {
    var e := Rebuilt(i, d, upload);
    assert e.supported == d.supported && e.config == d.config && e.open == d.open && e.numEffects == d.numEffects;
  }

  /** A second rebuild gives every slot the identifier the first gave. */
  lemma RebuiltIdsStable(i: nat, d: Device, upload: Uploader)
    requires Creatable(d)
    ensures Rebuilt(i, Rebuilt(i, d, upload), upload).effectIds == Rebuilt(i, d, upload).effectIds
  {
    var e := Rebuilt(i, d, upload);
    RebuiltKeepsPlan(i, d, upload);
    var f := Rebuilt(i, e, upload);
    forall x | 0 <= x < EFFECTS
      ensures f.effectIds[x] == e.effectIds[x]
    {
    }
  }

  /** A rebuilt entry makes the same calls and is rebuilt the same way
      again. */
  lemma StepIdempotent(i: nat, d: Device, upload: Uploader)
    requires Creatable(d) && !Fails(i, d, upload)
    ensures Creatable(Rebuilt(i, d, upload))
    ensures CreateFor(i, Rebuilt(i, d, upload), upload) == CreateFor(i, d, upload)
  {
    var e := Rebuilt(i, d, upload);
    RebuiltIdempotent(i, d, upload);
    assert Planned(e) == Planned(d) && ResetCount(e) == ResetCount(d);
  }

  /** `create_effects` is idempotent: run twice with the same hardware
      answers, the second run makes the same calls and leaves the same
      entries as the first. */
  lemma CreateIdempotent(devs: seq<Device>, upload: Uploader)
    requires AllCreatable(devs)
    requires CreateEffects(devs, upload).Created?
    ensures var r := CreateEffects(devs, upload);
      AllCreatable(r.devices) && CreateEffects(r.devices, upload) == r
  {
    var r := CreateEffects(devs, upload);
    var again := r.devices;
    forall i | 0 <= i < |devs|
      ensures Creatable(again[i])
      ensures CreateFor(i, again[i], upload) == CreateFor(i, devs[i], upload)
    {
      StepIdempotent(i, devs[i], upload);
    }
    assert Steps(again, upload) == Steps(devs, upload);
  }
}
