/** One pass of the main loop of fg-haptic.c: snapshot the shaker
    triggers, read one telemetry line, drive every open device, and service
    a reconfigure request by pulling the configuration and rebuilding the
    effects. */
module ControlLoop {
  import opened Optional
  import opened Scanning
  import opened LineClient
  import opened Hardware
  import opened Devices
  import opened Protocol
  import opened ConfigPull
  import opened Telemetry
  import opened Effects
  import opened Force

  /** A device drives its constant forces when it has them and both slots
      hold an effect. */
  predicate ConstantEngaged(d: Device)
    requires |d.effectIds| == EFFECTS
  {
    Constant in d.supported && d.effectIds[CONST_X] != NO_EFFECT && d.effectIds[CONST_Y] != NO_EFFECT
  }

  /** The shaker fires on a sine device with a shaker effect when the
      trigger is raised now and was not at the start of the pass. */
  predicate ShakerFires(d: Device, before: int)
    requires |d.effectIds| == EFFECTS
  {
    Sine in d.supported && d.params.shakerTrigger != 0 && before == 0 && d.effectIds[STICK_SHAKER] != NO_EFFECT
  }

  datatype DeviceStep = DeviceStep(device: Device, calls: seq<HwCall>)

  /** The body of the device loop for device `i`, whose trigger was
      `before` at the start of the pass. */
  function DriveDevice(i: nat, d: Device, before: int): (r: DeviceStep)
    requires Creatable(d)
    ensures !d.open ==> r == DeviceStep(d, [])
    ensures |r.calls| == (if d.open && ConstantEngaged(d) then 4 else 0)
                       + (if d.open && ShakerFires(d, before) then 2 else 0)
    ensures r.device == d.(levelX := r.device.levelX, levelY := r.device.levelY)
    ensures d.open && ConstantEngaged(d) ==>
              && r.device.levelX == Level(d.config, d.params, 0)
              && r.device.levelY == Level(d.config, d.params, 1)
              && r.calls[..4] == [HwCall(i, Update(d.effectIds[CONST_X])), HwCall(i, Run(d.effectIds[CONST_X])),
                                  HwCall(i, Update(d.effectIds[CONST_Y])), HwCall(i, Run(d.effectIds[CONST_Y]))]
    ensures !(d.open && ConstantEngaged(d)) ==> r.device == d
    ensures d.open && ShakerFires(d, before) ==>
              r.calls[|r.calls| - 2..] == [HwCall(i, Update(d.effectIds[STICK_SHAKER])),
                                           HwCall(i, Run(d.effectIds[STICK_SHAKER]))]
    ensures forall c :: c in r.calls ==> c.device == i
  {
    if !d.open then DeviceStep(d, [])
    else
      var forces :=
        if ConstantEngaged(d) then
          DeviceStep(d.(levelX := Level(d.config, d.params, 0), levelY := Level(d.config, d.params, 1)),
                     Reload(i, d.open, d.effectIds[CONST_X], true) + Reload(i, d.open, d.effectIds[CONST_Y], true))
        else DeviceStep(d, []);
      var shake := if ShakerFires(d, before) then Reload(i, d.open, d.effectIds[STICK_SHAKER], true) else [];
      DeviceStep(forces.device, forces.calls + shake)
  }

  /** Each device's trigger at the start of the pass. */
  function Triggers(devs: seq<Device>): (r: seq<int>)
    ensures |r| == |devs|
    ensures forall i :: 0 <= i < |devs| ==> r[i] == devs[i].params.shakerTrigger
  {
    seq(|devs|, i requires 0 <= i < |devs| => devs[i].params.shakerTrigger)
  }

  datatype Pass = Pass(devices: seq<Device>, calls: seq<HwCall>)

  /** The device loop from device `k` on. */
  function DriveFrom(devs: seq<Device>, before: seq<int>, k: nat): (r: Pass)
    requires k <= |devs| == |before| && AllCreatable(devs)
    ensures |r.devices| == |devs| - k
    ensures forall i :: k <= i < |devs| ==> r.devices[i - k] == DriveDevice(i, devs[i], before[i]).device
    ensures forall c :: c in r.calls ==> k <= c.device < |devs|
    decreases |devs| - k
  {
    if k == |devs| then Pass([], [])
    else
      var step := DriveDevice(k, devs[k], before[k]);
      var rest := DriveFrom(devs, before, k + 1);
      var ds := [step.device] + rest.devices;
      assert ds[1..] == rest.devices;
      Pass(ds, step.calls + rest.calls)
  }

  /** The calls the device loop makes for device `i`: those of its own
      step, in the order the loop makes them. */
  lemma {:induction false} DriveFromCalls(devs: seq<Device>, before: seq<int>, k: nat, i: nat)
    requires k <= i < |devs| == |before| && AllCreatable(devs)
    ensures CallsOn(DriveFrom(devs, before, k).calls, i) == DriveDevice(i, devs[i], before[i]).calls
    decreases |devs| - k
  {
    var step := DriveDevice(k, devs[k], before[k]);
    var rest := DriveFrom(devs, before, k + 1);
    CallsOnAppend(step.calls, rest.calls, i);
    if k == i {
      CallsOnAll(step.calls, i);
      assert forall c :: c in rest.calls ==> c.device != i;
      CallsOnOthers(rest.calls, i);
    } else {
      CallsOnOthers(step.calls, i);
      DriveFromCalls(devs, before, k + 1, i);
    }
  }

  /** The outcome of a pass of the main loop: the new state with the
      hardware calls and protocol commands made, or, when an upload failed
      while rebuilding the effects, the calls and commands made before the
      program ended. */
  datatype Outcome =
    | Running(bridge: Bridge, calls: seq<HwCall>, commands: seq<Command>)
    | Stopped(calls: seq<HwCall>, commands: seq<Command>)

  /** The device pass of a main-loop iteration: the triggers are taken
      before the telemetry line is read, then every device is driven. */
  function PassOf(b: Bridge, e: ReadEvent, sc: Scanner): (r: Pass)
    requires AllCreatable(b.devices)
    ensures |r.devices| == |b.devices|
    ensures forall i :: 0 <= i < |b.devices| ==>
              r.devices[i] == DriveDevice(i, ReadFg(b, e, sc).devices[i], b.devices[i].params.shakerTrigger).device
    ensures forall i :: 0 <= i < |b.devices| ==> r.devices[i].params == ReadFg(b, e, sc).devices[i].params
  {
    var fed := ReadFg(b, e, sc);
    ReadKeepsCreatable(b, e, sc);
    DriveFromKeeps(fed.devices, Triggers(b.devices));
    DriveFrom(fed.devices, Triggers(b.devices), 0)
  }

  /** The devices keep their nine slots through a telemetry read. */
  lemma ReadKeepsCreatable(b: Bridge, e: ReadEvent, sc: Scanner)
    requires AllCreatable(b.devices)
    ensures |ReadFg(b, e, sc).devices| == |b.devices|
    ensures AllCreatable(ReadFg(b, e, sc).devices)
  {
    ReadFgOnlyParams(b, e, sc);
    var fed := ReadFg(b, e, sc);
    forall i | 0 <= i < |fed.devices|
      ensures Creatable(fed.devices[i])
    {
      assert fed.devices[i].config == b.devices[i].config && fed.devices[i].effectIds == b.devices[i].effectIds;
    }
  }

  /** Driving a device changes only its constant-force levels. */
  lemma DriveFromKeeps(devs: seq<Device>, before: seq<int>)
    requires |devs| == |before| && AllCreatable(devs)
    ensures forall i :: 0 <= i < |devs| ==>
              var d := DriveFrom(devs, before, 0).devices[i];
              d == devs[i].(levelX := d.levelX, levelY := d.levelY)
  {
    var r := DriveFrom(devs, before, 0);
    forall i | 0 <= i < |devs|
      ensures r.devices[i] == devs[i].(levelX := r.devices[i].levelX, levelY := r.devices[i].levelY)
    {
      assert r.devices[i - 0] == DriveDevice(i, devs[i], before[i]).device;
    }
  }

  /** The servicing of a reconfigure request: `read_devices`, then
      `create_effects` on what it read. The request is cleared; only the
      configuration, the effect slots and the levels of the entries
      change. */
  function ServiceRequest(devs: seq<Device>, rs: seq<Option<string>>, sc: Scanner, upload: Uploader): (r: Outcome)
    requires AllCreatable(devs)
    ensures r.commands == ReadDevices(devs, rs, sc).commands
    ensures r.Stopped? <==> exists i :: 0 <= i < |devs| && Fails(i, ReadDevices(devs, rs, sc).devices[i], upload)
    ensures r.Running? ==>
              && !r.bridge.reconfRequest
              && |r.bridge.devices| == |devs|
              && forall i :: 0 <= i < |devs| ==>
                   var d := r.bridge.devices[i];
                   && d == devs[i].(config := d.config, effectIds := d.effectIds, levelX := d.levelX, levelY := d.levelY)
                   && d.config == ReadDevices(devs, rs, sc).devices[i].config
                   && d.params == devs[i].params
                   && |d.effectIds| == EFFECTS
  {
    var pull := ReadDevices(devs, rs, sc);
    PulledEntries(devs, rs, sc);
    match CreateEffects(pull.devices, upload)
    case Aborted(calls) => Stopped(calls, pull.commands)
    case Created(ds, calls) =>
      assert forall i :: 0 <= i < |devs| ==> ds[i] == Rebuilt(i, pull.devices[i], upload);
      Running(Bridge(ds, false), calls, pull.commands)
  }

  /** The pull changes only the configuration of each entry, so the
      entries stay ones `create_effects` can work on. */
  lemma PulledEntries(devs: seq<Device>, rs: seq<Option<string>>, sc: Scanner)
    requires AllCreatable(devs)
    ensures var pulled := ReadDevices(devs, rs, sc).devices;
      && |pulled| == |devs| && AllCreatable(pulled)
      && forall i :: 0 <= i < |devs| ==> pulled[i] == devs[i].(config := pulled[i].config)
  {
    var pulled := ReadDevices(devs, rs, sc).devices;
    forall i | 0 <= i < |devs|
      ensures pulled[i] == devs[i].(config := pulled[i].config)
    {
      assert ReadInWindows(pulled, devs, rs, Flush(rs), sc);
    }
  }

  /** The calls of an outcome with `first` made before them. */
  function After(first: seq<HwCall>, o: Outcome): (r: Outcome)
    ensures r.Running? <==> o.Running?
    ensures r.calls == first + o.calls && r.commands == o.commands
    ensures r.Running? ==> r.bridge == o.bridge
  {
    match o
    case Running(b, calls, commands) => Running(b, first + calls, commands)
    case Stopped(calls, commands) => Stopped(first + calls, commands)
  }

  /** One iteration of the main loop: the request raised by the telemetry
      line (or left from before) is always serviced in the same pass, after
      the devices are driven, and the parameters the line brought survive
      it. */
  function Tick(b: Bridge, e: ReadEvent, sc: Scanner, rs: seq<Option<string>>, upload: Uploader): (r: Outcome)
    requires AllCreatable(b.devices)
    ensures PassOf(b, e, sc).calls <= r.calls
    ensures !ReadFg(b, e, sc).reconfRequest ==>
              r == Running(Bridge(PassOf(b, e, sc).devices, false), PassOf(b, e, sc).calls, [])
    ensures r.Stopped? ==> ReadFg(b, e, sc).reconfRequest
    ensures r.Running? ==> !r.bridge.reconfRequest && |r.bridge.devices| == |b.devices|
    ensures r.Running? ==> AllCreatable(r.bridge.devices)
    ensures r.Running? ==> forall i :: 0 <= i < |b.devices| ==>
              r.bridge.devices[i].params == PassOf(b, e, sc).devices[i].params
  {
    var fed := ReadFg(b, e, sc);
    var pass := PassOf(b, e, sc);
    PassKeepsCreatable(b, e, sc);
    if !fed.reconfRequest then Running(Bridge(pass.devices, false), pass.calls, [])
    else
      var o := ServiceRequest(pass.devices, rs, sc, upload);
      var r := After(pass.calls, o);
      assert pass.calls <= r.calls by {
        assert r.calls[..|pass.calls|] == pass.calls;
      }
      r
  }

  /** The device pass keeps the entries `create_effects` can work on. */
  lemma PassKeepsCreatable(b: Bridge, e: ReadEvent, sc: Scanner)
    requires AllCreatable(b.devices)
    ensures AllCreatable(PassOf(b, e, sc).devices)
  {
    var fed := ReadFg(b, e, sc);
    var pass := PassOf(b, e, sc);
    ReadFgOnlyParams(b, e, sc);
    ReadKeepsCreatable(b, e, sc);
    DriveFromKeeps(fed.devices, Triggers(b.devices));
    forall i | 0 <= i < |pass.devices|
      ensures Creatable(pass.devices[i])
    {
      assert pass.devices[i].effectIds == fed.devices[i].effectIds == b.devices[i].effectIds;
    }
  }

  /** The calls the pass makes on device `i` are those of driving it with
      the parameters just read and the trigger from before the read. */
  lemma PassCalls(b: Bridge, e: ReadEvent, sc: Scanner, i: nat)
    requires AllCreatable(b.devices) && i < |b.devices|
    ensures var fed := ReadFg(b, e, sc);
      Creatable(fed.devices[i])
      && CallsOn(PassOf(b, e, sc).calls, i) == DriveDevice(i, fed.devices[i], b.devices[i].params.shakerTrigger).calls
  {
    var fed := ReadFg(b, e, sc);
    ReadKeepsCreatable(b, e, sc);
    DriveFromCalls(fed.devices, Triggers(b.devices), 0, i);
  }

  /** A trigger that was already raised when the pass began never reloads
      the shaker, whatever the line read in the pass says: at most the two
      constant forces are reloaded. */
  lemma HeldTriggerDoesNotRefire(b: Bridge, e: ReadEvent, sc: Scanner, i: nat)
    requires AllCreatable(b.devices) && i < |b.devices|
    requires b.devices[i].params.shakerTrigger != 0
    ensures var d := ReadFg(b, e, sc).devices[i];
      |d.effectIds| == EFFECTS
      && |CallsOn(PassOf(b, e, sc).calls, i)| == (if d.open && ConstantEngaged(d) then 4 else 0)
  {
    PassCalls(b, e, sc, i);
  }

  /** A rising trigger on an open sine device with a shaker effect reloads
      and runs that effect at the end of the device's calls. */
  lemma RisingTriggerFires(b: Bridge, e: ReadEvent, sc: Scanner, i: nat)
    requires AllCreatable(b.devices) && i < |b.devices|
    requires b.devices[i].params.shakerTrigger == 0
    requires var d := ReadFg(b, e, sc).devices[i];
      d.open && Sine in d.supported && d.params.shakerTrigger != 0 && d.effectIds[STICK_SHAKER] != NO_EFFECT
    ensures var d := ReadFg(b, e, sc).devices[i];
      var calls := CallsOn(PassOf(b, e, sc).calls, i);
      |calls| >= 2
      && calls[|calls| - 2..] == [HwCall(i, Update(d.effectIds[STICK_SHAKER])), HwCall(i, Run(d.effectIds[STICK_SHAKER]))]
  {
    PassCalls(b, e, sc, i);
  }

  /** One press fires once: after a pass that left device `i`'s trigger
      raised, the next pass reloads no shaker on it, whatever arrives. */
  lemma PressFiresOnce(b: Bridge, e1: ReadEvent, e2: ReadEvent, sc: Scanner, rs: seq<Option<string>>,
                       upload: Uploader, i: nat)
    requires AllCreatable(b.devices) && i < |b.devices|
    requires Tick(b, e1, sc, rs, upload).Running?
    requires ReadFg(b, e1, sc).devices[i].params.shakerTrigger != 0
    ensures var b1 := Tick(b, e1, sc, rs, upload).bridge;
      var d := ReadFg(b1, e2, sc).devices[i];
      |d.effectIds| == EFFECTS
      && |CallsOn(PassOf(b1, e2, sc).calls, i)| == (if d.open && ConstantEngaged(d) then 4 else 0)
  {
    var b1 := Tick(b, e1, sc, rs, upload).bridge;
    assert b1.devices[i].params == PassOf(b, e1, sc).devices[i].params;
    HeldTriggerDoesNotRefire(b1, e2, sc, i);
  }

  /** Every device but the first keeps the all-zero parameters the
      enumeration gives it: telemetry only ever reaches the first. */
  predicate OthersQuiet(devs: seq<Device>) {
    forall i :: 1 <= i < |devs| ==> devs[i].params == ZeroParams()
  }

  lemma EnumeratedQuiet(probes: seq<Probe>)
    ensures OthersQuiet(Enumerate(probes))
  {
    forall i | 1 <= i < |probes|
      ensures Enumerate(probes)[i].params == ZeroParams()
    {
      EnumerationFacts(probes, i);
    }
  }

  /** A pass of the main loop keeps the other devices quiet. */
  lemma TickKeepsOthersQuiet(b: Bridge, e: ReadEvent, sc: Scanner, rs: seq<Option<string>>, upload: Uploader)
    requires AllCreatable(b.devices)
    requires OthersQuiet(b.devices)
    ensures Tick(b, e, sc, rs, upload).Running? ==> OthersQuiet(Tick(b, e, sc, rs, upload).bridge.devices)
  {
    var r := Tick(b, e, sc, rs, upload);
    if r.Running? {
      forall i | 1 <= i < |r.bridge.devices|
        ensures r.bridge.devices[i].params == ZeroParams()
      {
        assert r.bridge.devices[i].params == PassOf(b, e, sc).devices[i].params == ReadFg(b, e, sc).devices[i].params;
      }
    }
  }

  /** A quiet device other than the first is driven with no force and
      never shakes: its constant levels are set to 0 and at most its two
      constant forces are reloaded. */
  lemma QuietDeviceIsIdle(b: Bridge, e: ReadEvent, sc: Scanner, i: nat)
    requires AllCreatable(b.devices) && OthersQuiet(b.devices)
    requires 1 <= i < |b.devices|
    ensures var d := PassOf(b, e, sc).devices[i];
      && (ConstantEngaged(b.devices[i]) && b.devices[i].open ==> d.levelX == 0.0 && d.levelY == 0.0)
      && |CallsOn(PassOf(b, e, sc).calls, i)| <= 4
  {
    var fed := ReadFg(b, e, sc).devices[i];
    assert fed == b.devices[i];
    ZeroTelemetryIsIdle(fed.config, 0);
    ZeroTelemetryIsIdle(fed.config, 1);
    PassCalls(b, e, sc, i);
  }

  /** A telemetry line asking for reconfiguration is serviced in the same
      pass: the configuration is pulled (its first write resets the
      simulator's request flag) and, unless an upload fails, the request
      is cleared. */
  lemma ReconfLineIsServiced(b: Bridge, s: Sample, render: Number -> string, sc: Scanner, term: string,
                             rs: seq<Option<string>>, upload: Uploader)
    requires AllCreatable(b.devices)
    requires s.reconf == 1
    requires ReadsBack(render, sc)
    requires var line := Encode(s, render);
      line != [] && NUL !in line && !IsTerminator(line[|line| - 1])
    requires forall k :: 0 <= k < |term| ==> IsTerminator(term[k])
    ensures var e := Chunk(Encode(s, render) + term);
      var r := Tick(b, e, sc, rs, upload);
      && ReadFg(b, e, sc).reconfRequest
      && Set(Reconfigure, IntV(0)) in r.commands
      && (r.Running? ==> !r.bridge.reconfRequest)
  {
    var e := Chunk(Encode(s, render) + term);
    TelemetryRoundTrip(b, s, render, sc, term);
    var pass := PassOf(b, e, sc);
    var pull := ReadDevices(pass.devices, rs, sc);
    assert Set(Reconfigure, IntV(0)) in pull.commands;
  }
}
