/** The effects and the main loop of haptic.c: `create_effects` uploads the
    constant force and the shaker once, a start-up pass applies the first
    polled parameters, and every pass of the loop polls again and rebuilds
    an effect, or re-applies a setting, only when a parameter it depends on
    has changed. */
module PollingLoop {
  import opened Optional
  import opened Hardware
  import opened Protocol
  import opened PollingBridge

  /** The entries the loop works on: the two effect slots of haptic.c. */
  predicate HasSlots(d: PollDevice) {
    |d.effectIds| == POLL_EFFECTS
  }

  /** An upload `create_effects` makes for device `i` fails. */
  predicate UploadFails(i: nat, d: PollDevice, upload: Uploader) {
    || (Constant in d.supported && upload(i, CONSTANT_SLOT) < 0)
    || (Sine in d.supported && upload(i, SHAKER_SLOT) < 0)
  }

  datatype PollStep = Ready(device: PollDevice, calls: seq<HwCall>) | Failed(calls: seq<HwCall>)

  /** `create_effects` for device `i`: the constant force into slot 0 when
      the device has the capability, then the shaker into slot 1 likewise;
      the first failed upload ends the program. Each uploaded slot holds
      the identifier the hardware handed back; other slots and fields keep
      their values. */
  function CreateOne(i: nat, d: PollDevice, upload: Uploader): (r: PollStep)
    requires HasSlots(d)
    ensures r.Failed? <==> UploadFails(i, d, upload)
    ensures r.Ready? ==>
              && r.device == d.(effectIds := r.device.effectIds) && HasSlots(r.device)
              && r.device.effectIds[CONSTANT_SLOT] ==
                   (if Constant in d.supported then upload(i, CONSTANT_SLOT) else d.effectIds[CONSTANT_SLOT])
              && r.device.effectIds[SHAKER_SLOT] ==
                   (if Sine in d.supported then upload(i, SHAKER_SLOT) else d.effectIds[SHAKER_SLOT])
    ensures HwCall(i, NewEffect(CONSTANT_SLOT, ConstantForce)) in r.calls <==> Constant in d.supported
    ensures HwCall(i, NewEffect(SHAKER_SLOT, SineWave)) in r.calls <==>
              Sine in d.supported && !(Constant in d.supported && upload(i, CONSTANT_SLOT) < 0)
    ensures r.Failed? ==>
              r.calls != [] && r.calls[|r.calls| - 1].op.NewEffect? && upload(i, r.calls[|r.calls| - 1].op.slot) < 0
    ensures forall c :: c in r.calls ==> c.device == i && c.op.NewEffect?
  {
    var cons := if Constant in d.supported then [HwCall(i, NewEffect(CONSTANT_SLOT, ConstantForce))] else [];
    var sine := if Sine in d.supported then [HwCall(i, NewEffect(SHAKER_SLOT, SineWave))] else [];
    if Constant in d.supported && upload(i, CONSTANT_SLOT) < 0 then Failed(cons)
    else if Sine in d.supported && upload(i, SHAKER_SLOT) < 0 then Failed(cons + sine)
    else
      var id0 := if Constant in d.supported then upload(i, CONSTANT_SLOT) else d.effectIds[CONSTANT_SLOT];
      var id1 := if Sine in d.supported then upload(i, SHAKER_SLOT) else d.effectIds[SHAKER_SLOT];
      Ready(d.(effectIds := [id0, id1]), cons + sine)
  }

  predicate AllSlotted(devs: seq<PollDevice>) {
    forall i :: 0 <= i < |devs| ==> HasSlots(devs[i])
  }

  datatype Creation = Created(devices: seq<PollDevice>, calls: seq<HwCall>) | Aborted(calls: seq<HwCall>)

  /** Some device from `k` on has an upload that fails. */
  predicate AnyFails(devs: seq<PollDevice>, k: nat, upload: Uploader)
    requires k <= |devs|
  {
    exists j :: k <= j < |devs| && UploadFails(j, devs[j], upload)
  }

  /** `create_effects` from device `k` on: it completes exactly when no
      upload fails, and then every device is the one `CreateOne` made. */
  function CreateFrom(devs: seq<PollDevice>, k: nat, upload: Uploader): (r: Creation)
    requires k <= |devs| && AllSlotted(devs)
    ensures r.Aborted? <==> AnyFails(devs, k, upload)
    ensures r.Created? ==> |r.devices| == |devs| - k
    ensures r.Created? ==> forall j :: k <= j < |devs| ==> r.devices[j - k] == CreateOne(j, devs[j], upload).device
    ensures forall c :: c in r.calls ==> k <= c.device < |devs|
    decreases |devs| - k
  {
    if k == |devs| then Created([], [])
    else
      match CreateOne(k, devs[k], upload)
      case Failed(calls) => Aborted(calls)
      case Ready(d, calls) =>
        match CreateFrom(devs, k + 1, upload)
        case Aborted(more) => Aborted(calls + more)
        case Created(ds, more) =>
          assert ([d] + ds)[1..] == ds;
          Created([d] + ds, calls + more)
  }

  /** `create_effects` of haptic.c. */
  function CreatePollEffects(devs: seq<PollDevice>, upload: Uploader): (r: Creation)
    requires AllSlotted(devs)
    ensures r.Aborted? <==> exists j :: 0 <= j < |devs| && UploadFails(j, devs[j], upload)
    ensures r.Created? ==>
              && |r.devices| == |devs|
              && forall j :: 0 <= j < |devs| ==> r.devices[j] == CreateOne(j, devs[j], upload).device
  {
    CreateFrom(devs, 0, upload)
  }

  /** After a completed `create_effects`, every effect a device's
      capabilities call for is held in its slot under a valid identifier. */
  lemma CreatedEffectsAreValid(devs: seq<PollDevice>, upload: Uploader, j: nat)
    requires AllSlotted(devs) && j < |devs| && CreatePollEffects(devs, upload).Created?
    ensures var d := CreatePollEffects(devs, upload).devices[j];
      && HasSlots(d)
      && (Constant in d.supported ==> d.effectIds[CONSTANT_SLOT] >= 0)
      && (Sine in d.supported ==> d.effectIds[SHAKER_SLOT] >= 0)
  {
    assert !UploadFails(j, devs[j], upload);
  }

  /** The start-up pass after the first `read_fg`: the settings applied
      and the uploaded effects started, each behind its capability, in the
      order autocenter, gain, constant force, shaker. */
  function StartCalls(i: nat, d: PollDevice): (r: seq<HwCall>)
    requires HasSlots(d)
    ensures forall c :: c in r ==> c.device == i
    ensures |r| == Count(Autocenter in d.supported) + Count(Gain in d.supported)
                 + Count(Constant in d.supported) + Count(Sine in d.supported)
    ensures Autocenter in d.supported ==> r[0] == HwCall(i, SetAutocenter(d.params.autocenter * 100.0))
    ensures Gain in d.supported ==> r[Count(Autocenter in d.supported)] == HwCall(i, SetGain(d.params.gain * 100.0))
    ensures Constant in d.supported ==>
              r[Count(Autocenter in d.supported) + Count(Gain in d.supported)] == HwCall(i, Run(d.effectIds[CONSTANT_SLOT]))
    ensures HwCall(i, SetAutocenter(d.params.autocenter * 100.0)) in r <==> Autocenter in d.supported
    ensures HwCall(i, SetGain(d.params.gain * 100.0)) in r <==> Gain in d.supported
    ensures Sine in d.supported ==> |r| > 0 && r[|r| - 1] == HwCall(i, Run(d.effectIds[SHAKER_SLOT]))
    ensures forall c :: c in r && c.op.Run? ==>
              (Constant in d.supported && c.op.id == d.effectIds[CONSTANT_SLOT])
              || (Sine in d.supported && c.op.id == d.effectIds[SHAKER_SLOT])
  {
    (if Autocenter in d.supported then [HwCall(i, SetAutocenter(d.params.autocenter * 100.0))] else [])
    + (if Gain in d.supported then [HwCall(i, SetGain(d.params.gain * 100.0))] else [])
    + (if Constant in d.supported then [HwCall(i, Run(d.effectIds[CONSTANT_SLOT]))] else [])
    + (if Sine in d.supported then [HwCall(i, Run(d.effectIds[SHAKER_SLOT]))] else [])
  }

  /** After a completed `create_effects`, the start-up pass runs only
      effects whose upload succeeded: each run names the identifier the
      hardware handed back for the device's constant force or shaker. */
  lemma StartRunsUploaded(devs: seq<PollDevice>, upload: Uploader, j: nat)
    requires AllSlotted(devs) && j < |devs| && CreatePollEffects(devs, upload).Created?
    ensures var d := CreatePollEffects(devs, upload).devices[j];
      forall c :: c in StartCalls(j, d) && c.op.Run? ==>
        && c.op.id >= 0
        && ((Constant in devs[j].supported && c.op.id == upload(j, CONSTANT_SLOT))
            || (Sine in devs[j].supported && c.op.id == upload(j, SHAKER_SLOT)))
  {
    var d := CreatePollEffects(devs, upload).devices[j];
    assert !UploadFails(j, devs[j], upload);
    assert d == CreateOne(j, devs[j], upload).device;
    assert d.supported == devs[j].supported;
  }

  /** The constant force depends on the pilot and surface forces and
      their gains. */
  predicate ConstantChanged(p: PollParams, prev: PollParams) {
    p.pilot != prev.pilot || p.pilotGain != prev.pilotGain || p.surface != prev.surface || p.surfaceGain != prev.surfaceGain
  }

  /** The shaker effect depends on its direction, gain and period. */
  predicate ShakerChanged(p: PollParams, prev: PollParams) {
    p.shakerDir != prev.shakerDir || p.shakerGain != prev.shakerGain || p.shakerPeriod != prev.shakerPeriod
  }

  /** The trigger went from zero to non-zero. */
  predicate TriggerRose(p: PollParams, prev: PollParams) {
    p.shakerTrigger != 0 && prev.shakerTrigger == 0
  }

  predicate RebuildsConstant(d: PollDevice, prev: PollParams) {
    Constant in d.supported && ConstantChanged(d.params, prev)
  }

  predicate RebuildsShaker(d: PollDevice, prev: PollParams) {
    Sine in d.supported && ShakerChanged(d.params, prev)
  }

  predicate FiresShaker(d: PollDevice, prev: PollParams) {
    Sine in d.supported && TriggerRose(d.params, prev)
  }

  predicate ResetsAutocenter(d: PollDevice, prev: PollParams) {
    Autocenter in d.supported && d.params.autocenter != prev.autocenter
  }

  predicate ResetsGain(d: PollDevice, prev: PollParams) {
    Gain in d.supported && d.params.gain != prev.gain
  }

  /** Anything for the device to do this pass. */
  predicate Acts(d: PollDevice, prev: PollParams) {
    RebuildsConstant(d, prev) || RebuildsShaker(d, prev) || FiresShaker(d, prev)
    || ResetsAutocenter(d, prev) || ResetsGain(d, prev)
  }

  function Count(b: bool): nat {
    if b then 1 else 0
  }

  /** The rebuild of a changed constant force: destroy, upload anew and
      run, whatever identifier the upload handed back. */
  function ConstantRebuild(i: nat, d: PollDevice, prev: PollParams, upload: Uploader): (r: seq<HwCall>)
    requires HasSlots(d)
    ensures |r| == 3 * Count(RebuildsConstant(d, prev))
    ensures forall c :: c in r ==> c.device == i && (c.op.Destroy? || c.op.NewEffect? || c.op.Run?)
    ensures forall c :: c in r && c.op.Run? ==> c.op.id == upload(i, CONSTANT_SLOT)
  {
    if RebuildsConstant(d, prev)
    then [HwCall(i, Destroy(d.effectIds[CONSTANT_SLOT])), HwCall(i, NewEffect(CONSTANT_SLOT, ConstantForce)),
          HwCall(i, Run(upload(i, CONSTANT_SLOT)))]
    else []
  }

  /** The rebuild of a changed shaker: destroy and upload anew, without a
      run. */
  function ShakerRebuild(i: nat, d: PollDevice, prev: PollParams): (r: seq<HwCall>)
    requires HasSlots(d)
    ensures |r| == 2 * Count(RebuildsShaker(d, prev))
    ensures forall c :: c in r ==> c.device == i && (c.op.Destroy? || c.op.NewEffect?)
  {
    if RebuildsShaker(d, prev)
    then [HwCall(i, Destroy(d.effectIds[SHAKER_SLOT])), HwCall(i, NewEffect(SHAKER_SLOT, SineWave))]
    else []
  }

  /** A changed autocenter and a changed gain applied, in that order. */
  function Settings(i: nat, d: PollDevice, prev: PollParams): (r: seq<HwCall>)
    ensures |r| == Count(ResetsAutocenter(d, prev)) + Count(ResetsGain(d, prev))
    ensures forall c :: c in r ==> c.device == i && (c.op.SetAutocenter? || c.op.SetGain?)
    ensures HwCall(i, SetAutocenter(d.params.autocenter * 100.0)) in r <==> ResetsAutocenter(d, prev)
    ensures HwCall(i, SetGain(d.params.gain * 100.0)) in r <==> ResetsGain(d, prev)
  {
    (if ResetsAutocenter(d, prev) then [HwCall(i, SetAutocenter(d.params.autocenter * 100.0))] else [])
    + (if ResetsGain(d, prev) then [HwCall(i, SetGain(d.params.gain * 100.0))] else [])
  }

  /** The effect identifiers after the pass: a rebuilt slot holds what
      the upload handed back, even a negative identifier. */
  function DrivenIds(i: nat, d: PollDevice, prev: PollParams, upload: Uploader): (r: seq<int>)
    requires HasSlots(d)
    ensures |r| == POLL_EFFECTS
    ensures r[CONSTANT_SLOT] == (if RebuildsConstant(d, prev) then upload(i, CONSTANT_SLOT) else d.effectIds[CONSTANT_SLOT])
    ensures r[SHAKER_SLOT] == (if RebuildsShaker(d, prev) then upload(i, SHAKER_SLOT) else d.effectIds[SHAKER_SLOT])
  {
    [if RebuildsConstant(d, prev) then upload(i, CONSTANT_SLOT) else d.effectIds[CONSTANT_SLOT],
     if RebuildsShaker(d, prev) then upload(i, SHAKER_SLOT) else d.effectIds[SHAKER_SLOT]]
  }

  /** The device loop body of haptic.c for device `i`, whose parameters
      were `prev` before this pass's `read_fg`: the constant force rebuilt,
      the shaker rebuilt, the shaker fired on a rising trigger and the
      settings applied, each only when what it depends on changed. Only the
      effect identifiers change. */
  function PollDrive(i: nat, d: PollDevice, prev: PollParams, upload: Uploader): (r: PollStep)
    requires HasSlots(d)
    ensures r.Ready?
    ensures r.device == d.(effectIds := r.device.effectIds) && HasSlots(r.device)
    ensures r.device.effectIds[CONSTANT_SLOT] ==
              (if RebuildsConstant(d, prev) then upload(i, CONSTANT_SLOT) else d.effectIds[CONSTANT_SLOT])
    ensures r.device.effectIds[SHAKER_SLOT] ==
              (if RebuildsShaker(d, prev) then upload(i, SHAKER_SLOT) else d.effectIds[SHAKER_SLOT])
  {
    var ids := DrivenIds(i, d, prev, upload);
    var fire := if FiresShaker(d, prev) then [HwCall(i, Run(ids[SHAKER_SLOT]))] else [];
    Ready(d.(effectIds := ids), ConstantRebuild(i, d, prev, upload) + ShakerRebuild(i, d, prev) + fire + Settings(i, d, prev))
  }

  /** What the device loop body does to the hardware: one call per
      destroy, upload, run and setting that a changed parameter calls for
      and nothing else, so no call at all when nothing changed; a rebuilt
      constant force starts with its destroy, upload and run; every run is
      the fresh constant force or the fired shaker; a setting is applied
      exactly when it changed. */
  lemma PollDriveCalls(i: nat, d: PollDevice, prev: PollParams, upload: Uploader)
    requires HasSlots(d)
    ensures var r := PollDrive(i, d, prev, upload);
      && |r.calls| == 3 * Count(RebuildsConstant(d, prev)) + 2 * Count(RebuildsShaker(d, prev))
                      + Count(FiresShaker(d, prev)) + Count(ResetsAutocenter(d, prev)) + Count(ResetsGain(d, prev))
      && (r.calls == [] <==> !Acts(d, prev))
      && (RebuildsConstant(d, prev) ==>
            r.calls[..3] == [HwCall(i, Destroy(d.effectIds[CONSTANT_SLOT])),
                             HwCall(i, NewEffect(CONSTANT_SLOT, ConstantForce)),
                             HwCall(i, Run(upload(i, CONSTANT_SLOT)))])
      && (forall c :: c in r.calls && c.op.Run? ==>
            (RebuildsConstant(d, prev) && c.op.id == upload(i, CONSTANT_SLOT))
            || (FiresShaker(d, prev) && c.op.id == r.device.effectIds[SHAKER_SLOT]))
      && (HwCall(i, SetAutocenter(d.params.autocenter * 100.0)) in r.calls <==> ResetsAutocenter(d, prev))
      && (HwCall(i, SetGain(d.params.gain * 100.0)) in r.calls <==> ResetsGain(d, prev))
      && (forall c :: c in r.calls ==> c.device == i)
  {
    PollDriveCount(i, d, prev, upload);
    PollDriveRuns(i, d, prev, upload);
    PollDriveSettings(i, d, prev, upload);
  }

  /** The calls of the device loop body in the order it makes them. */
  lemma PollDriveParts(i: nat, d: PollDevice, prev: PollParams, upload: Uploader)
    requires HasSlots(d)
    ensures var r := PollDrive(i, d, prev, upload);
      r.calls == ConstantRebuild(i, d, prev, upload) + ShakerRebuild(i, d, prev)
                 + (if FiresShaker(d, prev) then [HwCall(i, Run(r.device.effectIds[SHAKER_SLOT]))] else [])
                 + Settings(i, d, prev)
  {
  }

  lemma PollDriveCount(i: nat, d: PollDevice, prev: PollParams, upload: Uploader)
    requires HasSlots(d)
    ensures var r := PollDrive(i, d, prev, upload);
      && |r.calls| == 3 * Count(RebuildsConstant(d, prev)) + 2 * Count(RebuildsShaker(d, prev))
                      + Count(FiresShaker(d, prev)) + Count(ResetsAutocenter(d, prev)) + Count(ResetsGain(d, prev))
      && (r.calls == [] <==> !Acts(d, prev))
      && (RebuildsConstant(d, prev) ==>
            r.calls[..3] == [HwCall(i, Destroy(d.effectIds[CONSTANT_SLOT])),
                             HwCall(i, NewEffect(CONSTANT_SLOT, ConstantForce)),
                             HwCall(i, Run(upload(i, CONSTANT_SLOT)))])
  {
    var r := PollDrive(i, d, prev, upload);
    var cons := ConstantRebuild(i, d, prev, upload);
    PollDriveParts(i, d, prev, upload);
    assert r.calls[..|cons|] == cons;
  }

  lemma PollDriveRuns(i: nat, d: PollDevice, prev: PollParams, upload: Uploader)
    requires HasSlots(d)
    ensures var r := PollDrive(i, d, prev, upload);
      && (forall c :: c in r.calls && c.op.Run? ==>
            (RebuildsConstant(d, prev) && c.op.id == upload(i, CONSTANT_SLOT))
            || (FiresShaker(d, prev) && c.op.id == r.device.effectIds[SHAKER_SLOT]))
      && (forall c :: c in r.calls ==> c.device == i)
  {
    var r := PollDrive(i, d, prev, upload);
    var cons := ConstantRebuild(i, d, prev, upload);
    var shaker := ShakerRebuild(i, d, prev);
    var fire := if FiresShaker(d, prev) then [HwCall(i, Run(r.device.effectIds[SHAKER_SLOT]))] else [];
    var settings := Settings(i, d, prev);
    PollDriveParts(i, d, prev, upload);
    forall c | c in r.calls
      ensures c.device == i
      ensures c.op.Run? ==>
                (RebuildsConstant(d, prev) && c.op.id == upload(i, CONSTANT_SLOT))
                || (FiresShaker(d, prev) && c.op.id == r.device.effectIds[SHAKER_SLOT])
    {
      assert c in cons || c in shaker || c in fire || c in settings;
      if c in cons {
        assert cons != [];
      }
    }
  }

  lemma PollDriveSettings(i: nat, d: PollDevice, prev: PollParams, upload: Uploader)
    requires HasSlots(d)
    ensures var r := PollDrive(i, d, prev, upload);
      && (HwCall(i, SetAutocenter(d.params.autocenter * 100.0)) in r.calls <==> ResetsAutocenter(d, prev))
      && (HwCall(i, SetGain(d.params.gain * 100.0)) in r.calls <==> ResetsGain(d, prev))
  {
    var r := PollDrive(i, d, prev, upload);
    var cons := ConstantRebuild(i, d, prev, upload);
    var shaker := ShakerRebuild(i, d, prev);
    var fire := if FiresShaker(d, prev) then [HwCall(i, Run(r.device.effectIds[SHAKER_SLOT]))] else [];
    var front := cons + shaker + fire;
    PollDriveParts(i, d, prev, upload);
    assert forall c: HwCall :: c in front ==> c.op.Destroy? || c.op.NewEffect? || c.op.Run?;
    NotInFront(front, Settings(i, d, prev), HwCall(i, SetAutocenter(d.params.autocenter * 100.0)));
    NotInFront(front, Settings(i, d, prev), HwCall(i, SetGain(d.params.gain * 100.0)));
  }

  lemma NotInFront<T>(front: seq<T>, back: seq<T>, x: T)
    requires x !in front
    ensures x in front + back <==> x in back
  {
  }

  /** Parameters that did not change leave the hardware alone. */
  lemma SteadyParamsAreQuiet(i: nat, d: PollDevice, upload: Uploader)
    requires HasSlots(d)
    ensures PollDrive(i, d, d.params, upload) == Ready(d, [])
  {
    var r := PollDrive(i, d, d.params, upload);
    PollDriveCalls(i, d, d.params, upload);
    assert r.device.effectIds == d.effectIds;
  }

  /** A constant-force upload that fails is run all the same: the loop
      only prints the error, stores the negative identifier and hands it to
      the run. */
  lemma FailedRebuildIsRun(i: nat, d: PollDevice, prev: PollParams, upload: Uploader)
    requires HasSlots(d) && RebuildsConstant(d, prev) && upload(i, CONSTANT_SLOT) < 0
    ensures var r := PollDrive(i, d, prev, upload);
      && HwCall(i, Run(upload(i, CONSTANT_SLOT))) in r.calls
      && r.device.effectIds[CONSTANT_SLOT] < 0
  {
    var r := PollDrive(i, d, prev, upload);
    PollDriveCalls(i, d, prev, upload);
    assert r.calls[2] == HwCall(i, Run(upload(i, CONSTANT_SLOT)));
  }

  datatype Pass = Pass(devices: seq<PollDevice>, calls: seq<HwCall>)

  /** The device loop from device `k` on, device `j` having had the
      parameters `olds[j]` before the pass. */
  function DriveFrom(devs: seq<PollDevice>, olds: seq<PollParams>, k: nat, upload: Uploader): (r: Pass)
    requires k <= |devs| == |olds| && AllSlotted(devs)
    ensures |r.devices| == |devs| - k && AllSlotted(r.devices)
    ensures forall j :: k <= j < |devs| ==> r.devices[j - k] == PollDrive(j, devs[j], olds[j], upload).device
    ensures forall c :: c in r.calls ==> k <= c.device < |devs|
    decreases |devs| - k
  {
    if k == |devs| then Pass([], [])
    else
      var step := PollDrive(k, devs[k], olds[k], upload);
      var rest := DriveFrom(devs, olds, k + 1, upload);
      var ds := [step.device] + rest.devices;
      assert ds[1..] == rest.devices;
      Pass(ds, step.calls + rest.calls)
  }

  /** The calls the device loop makes for device `j` are those of its own
      step. */
  lemma {:induction false} DriveFromCalls(devs: seq<PollDevice>, olds: seq<PollParams>, k: nat, upload: Uploader,
                                          j: nat)
    requires k <= j < |devs| == |olds| && AllSlotted(devs)
    ensures CallsOn(DriveFrom(devs, olds, k, upload).calls, j) == PollDrive(j, devs[j], olds[j], upload).calls
    decreases |devs| - k
  {
    var step := PollDrive(k, devs[k], olds[k], upload);
    var rest := DriveFrom(devs, olds, k + 1, upload);
    CallsOnAppend(step.calls, rest.calls, j);
    if k == j {
      CallsOnAll(step.calls, j);
      assert forall c :: c in rest.calls ==> c.device != j;
      CallsOnOthers(rest.calls, j);
    } else {
      CallsOnOthers(step.calls, j);
      DriveFromCalls(devs, olds, k + 1, upload, j);
    }
  }

  /** Every device with the parameters a poll produced. */
  function Fed(devs: seq<PollDevice>, ps: seq<PollParams>): (r: seq<PollDevice>)
    requires |ps| == |devs|
    ensures |r| == |devs|
    ensures forall j :: 0 <= j < |devs| ==> r[j] == devs[j].(params := ps[j])
  {
    seq(|devs|, j requires 0 <= j < |devs| => devs[j].(params := ps[j]))
  }

  /** Each device's parameters before the pass (the `oldParams` copy). */
  function Olds(devs: seq<PollDevice>): (r: seq<PollParams>)
    ensures |r| == |devs|
    ensures forall j :: 0 <= j < |devs| ==> r[j] == devs[j].params
  {
    seq(|devs|, j requires 0 <= j < |devs| => devs[j].params)
  }

  datatype Tick = Tick(devices: seq<PollDevice>, commands: seq<Command>, calls: seq<HwCall>)

  /** One pass of the main loop of haptic.c: copy the parameters, poll
      them, then drive every device against its copy. */
  function PollTick(devs: seq<PollDevice>, rs: seq<Option<string>>, atof: string -> real, upload: Uploader): (r: Tick)
    requires AllSlotted(devs)
    ensures |r.devices| == |devs| && AllSlotted(r.devices)
    ensures r.commands == PollReadFg(devs, rs, atof).commands
    ensures forall j :: 0 <= j < |devs| ==>
              && r.devices[j].params == PollReadFg(devs, rs, atof).params[j]
              && r.devices[j] == PollDrive(j, devs[j].(params := r.devices[j].params), devs[j].params, upload).device
    ensures forall c :: c in r.calls ==> c.device < |devs|
  {
    var poll := PollReadFg(devs, rs, atof);
    var fed := Fed(devs, poll.params);
    assert AllSlotted(fed);
    var pass := DriveFrom(fed, Olds(devs), 0, upload);
    Tick(pass.devices, poll.commands, pass.calls)
  }

  /** The calls of a pass for device `j` are those of its own step. */
  lemma TickCalls(devs: seq<PollDevice>, rs: seq<Option<string>>, atof: string -> real, upload: Uploader, j: nat)
    requires AllSlotted(devs) && j < |devs|
    ensures var r := PollTick(devs, rs, atof, upload);
      CallsOn(r.calls, j) == PollDrive(j, devs[j].(params := r.devices[j].params), devs[j].params, upload).calls
  {
    var poll := PollReadFg(devs, rs, atof);
    var fed := Fed(devs, poll.params);
    assert AllSlotted(fed);
    DriveFromCalls(fed, Olds(devs), 0, upload, j);
  }

  /** The loop never fires the shaker: the trigger is never polled, so it
      never rises, and every effect a pass runs is a constant force it has
      just uploaded anew. The shaker runs only in the start-up pass. */
  lemma {:induction false} LoopNeverFiresShaker(devs: seq<PollDevice>, rs: seq<Option<string>>, atof: string -> real,
                                                upload: Uploader, j: nat)
    requires AllSlotted(devs) && j < |devs|
    ensures var r := PollTick(devs, rs, atof, upload);
      && r.devices[j].params.shakerTrigger == devs[j].params.shakerTrigger
      && !FiresShaker(devs[j].(params := r.devices[j].params), devs[j].params)
      && forall c :: c in CallsOn(r.calls, j) && c.op.Run? ==>
           RebuildsConstant(devs[j].(params := r.devices[j].params), devs[j].params)
           && c.op.id == upload(j, CONSTANT_SLOT) == r.devices[j].effectIds[CONSTANT_SLOT]
  {
    TriggerNeverRead(devs, rs, atof, j);
    TickCalls(devs, rs, atof, upload, j);
    var r := PollTick(devs, rs, atof, upload);
    PollDriveCalls(j, devs[j].(params := r.devices[j].params), devs[j].params, upload);
  }

  /** A pass whose poll brings nothing new makes no hardware call and
      leaves every device as it was. */
  lemma {:induction false} UnchangedPollIsQuiet(devs: seq<PollDevice>, rs: seq<Option<string>>, atof: string -> real,
                                                upload: Uploader)
    requires AllSlotted(devs)
    requires forall j :: 0 <= j < |devs| ==> PollReadFg(devs, rs, atof).params[j] == devs[j].params
    ensures PollTick(devs, rs, atof, upload).devices == devs
    ensures PollTick(devs, rs, atof, upload).calls == []
  {
    var r := PollTick(devs, rs, atof, upload);
    forall j | 0 <= j < |devs|
      ensures r.devices[j] == devs[j] && CallsOn(r.calls, j) == []
    {
      assert devs[j].(params := r.devices[j].params) == devs[j];
      SteadyParamsAreQuiet(j, devs[j], upload);
      TickCalls(devs, rs, atof, upload, j);
    }
    CallsOnNone(r.calls, |devs|);
  }
}
