/** test-haptic.c, the keyboard-driven test variant of the bridge: devices
    are enumerated as in fg-haptic.c (but with the effect parameters of
    haptic.c and no configuration), a shaker and a spring effect are
    uploaded, and every pass of the loop reads one key, reloads the spring
    on every open device and hands a pending trigger to the first open
    device. */
module KeyboardTest {
  import opened Optional
  import opened Hardware
  import opened Devices
  import opened PollingBridge

  /** Every entry has a slot for each of the `EFFECTS` effects. */
  predicate AllSlotted(devs: seq<PollDevice>) {
    forall i :: 0 <= i < |devs| ==> |devs[i].effectIds| == EFFECTS
  }

  /** Device `i` after the body of the `init_haptic` loop, given the names
      of the devices before it: number `i + 1`, and for an opened device
      the copied and disambiguated name and the capabilities SDL reports. */
  function TestInitDevice(i: nat, p: Probe, earlier: seq<string>): (r: PollDevice)
    ensures r.num == i + 1 && (r.open <==> p.Opened?)
    ensures |r.effectIds| == EFFECTS && r.params == ZeroPollParams()
    ensures p.Opened? ==> r.supported == p.caps && r.axes == p.axes
    ensures !p.Opened? ==> r.name == [] && r.supported == {}
  {
    var zero := PollDevice(i + 1, false, [], {}, 0, 0, 0, ZERO_IDS, ZeroPollParams());
    match p
    case Unavailable => zero
    case Opened(sdlName, caps, axes, numEffects, numPlaying) =>
      zero.(open := true, name := Disambiguate(CopyName(sdlName), earlier, i), supported := caps, axes := axes,
            numEffects := numEffects, numPlaying := numPlaying)
  }

  /** The names of the devices enumerated so far, which `init_haptic`
      compares a new name against. */
  function TestNames(devs: seq<PollDevice>): (r: seq<string>)
    ensures |r| == |devs|
    ensures forall k :: 0 <= k < |devs| ==> r[k] == devs[k].name
  {
    seq(|devs|, k requires 0 <= k < |devs| => devs[k].name)
  }

  /** `init_haptic` of test-haptic.c over what SDL reports for each index. */
  function TestEnumerate(probes: seq<Probe>): (r: seq<PollDevice>)
    ensures |r| == |probes| && AllSlotted(r)
    ensures forall i :: 0 <= i < |r| ==> r[i] == TestInitDevice(i, probes[i], TestNames(r[..i]))
  {
    if probes == [] then []
    else
      var prev := TestEnumerate(probes[..|probes| - 1]);
      var next := TestInitDevice(|prev|, probes[|probes| - 1], TestNames(prev));
      PrefixesOfExtension(prev, next);
      assert (prev + [next])[..|prev|] == prev;
      prev + [next]
  }

  /** The gain of every opened device is set to 100 during enumeration. */
  function InitCalls(probes: seq<Probe>): (r: seq<HwCall>)
    ensures forall c :: c in r ==> c.op == SetGain(100.0) && c.device < |probes| && probes[c.device].Opened?
    ensures forall i :: 0 <= i < |probes| && probes[i].Opened? ==> HwCall(i, SetGain(100.0)) in r
  {
    if probes == [] then []
    else
      var n := |probes| - 1;
      var prev := InitCalls(probes[..n]);
      assert forall i :: 0 <= i < n ==> probes[..n][i] == probes[i];
      prev + (if probes[n].Opened? then [HwCall(n, SetGain(100.0))] else [])
  }

  lemma TestNamesOfPrefix(devs: seq<PollDevice>, i: nat)
    requires 0 < i <= |devs|
    ensures TestNames(devs[..i]) == TestNames(devs[..i - 1]) + [devs[i - 1].name]
  {
  }

  /** Given the same earlier names, both enumerations name device `n`
      alike. */
  lemma NameAgrees(probes: seq<Probe>, n: nat)
    requires n < |probes|
    requires TestNames(TestEnumerate(probes)[..n]) == Names(Enumerate(probes)[..n])
    ensures TestEnumerate(probes)[n].name == Enumerate(probes)[n].name
  {
    assert TestEnumerate(probes)[n] == TestInitDevice(n, probes[n], TestNames(TestEnumerate(probes)[..n]));
    assert Enumerate(probes)[n] == InitDevice(n, probes[n], Names(Enumerate(probes)[..n]));
    InitNamesAgree(n, probes[n], Names(Enumerate(probes)[..n]));
  }

  lemma InitNamesAgree(i: nat, p: Probe, earlier: seq<string>)
    ensures TestInitDevice(i, p, earlier).name == InitDevice(i, p, earlier).name
  {
  }

  /** The names of the first `i` devices are those the current bridge's
      enumeration gives. */
  lemma {:induction false} NamesAgree(probes: seq<Probe>, i: nat)
    requires i <= |probes|
    ensures TestNames(TestEnumerate(probes)[..i]) == Names(Enumerate(probes)[..i])
    decreases i
  {
    var t := TestEnumerate(probes);
    var e := Enumerate(probes);
    if i > 0 {
      NamesAgree(probes, i - 1);
      NameAgrees(probes, i - 1);
      TestNamesOfPrefix(t, i);
      NamesOfPrefix(e, i);
    }
  }

  /** The test variant enumerates exactly as the current bridge does:
      the same numbers, open flags, names, capabilities and counts. */
  lemma EnumerationMatchesBridge(probes: seq<Probe>, i: nat)
    requires i < |probes|
    ensures var t := TestEnumerate(probes)[i];
      var e := Enumerate(probes)[i];
      && t.num == e.num && t.open == e.open && t.name == e.name && t.supported == e.supported
      && t.axes == e.axes && t.numEffects == e.numEffects && t.numPlaying == e.numPlaying
      && t.effectIds == e.effectIds
  {
    var earlier := Names(Enumerate(probes)[..i]);
    NamesAgree(probes, i);
    assert TestEnumerate(probes)[i] == TestInitDevice(i, probes[i], earlier);
    assert Enumerate(probes)[i] == InitDevice(i, probes[i], earlier);
    InitNamesAgree(i, probes[i], earlier);
  }

  datatype TestStep = Ready(device: PollDevice, calls: seq<HwCall>) | Failed(calls: seq<HwCall>)

  predicate TestUploadFails(i: nat, d: PollDevice, upload: Uploader) {
    || (Sine in d.supported && upload(i, STICK_SHAKER) < 0)
    || (Constant in d.supported && upload(i, CONST_X) < 0)
  }

  /** `create_effects` of test-haptic.c for device `i`: the shaker into
      STICK_SHAKER when the device has SINE, then a spring effect (not a
      constant force) into CONST_X when it has CONSTANT; CONST_Y is never
      created. The first failed upload ends the program; identifiers of
      other slots stay as they were. */
  function TestCreateOne(i: nat, d: PollDevice, upload: Uploader): (r: TestStep)
    requires |d.effectIds| == EFFECTS
    ensures r.Failed? <==> TestUploadFails(i, d, upload)
    ensures r.Ready? ==>
              && r.device == d.(effectIds := r.device.effectIds) && |r.device.effectIds| == EFFECTS
              && (forall s :: 0 <= s < EFFECTS ==>
                    r.device.effectIds[s] ==
                      if s == STICK_SHAKER && Sine in d.supported then upload(i, STICK_SHAKER)
                      else if s == CONST_X && Constant in d.supported then upload(i, CONST_X)
                      else d.effectIds[s])
    ensures HwCall(i, NewEffect(STICK_SHAKER, SineWave)) in r.calls <==> Sine in d.supported
    ensures HwCall(i, NewEffect(CONST_X, SpringCondition)) in r.calls <==>
              Constant in d.supported && !(Sine in d.supported && upload(i, STICK_SHAKER) < 0)
    ensures forall c :: c in r.calls ==>
              c.device == i && c.op.NewEffect? && c.op.slot != CONST_Y && c.op.kind != ConstantForce
  {
    var shaker := if Sine in d.supported then [HwCall(i, NewEffect(STICK_SHAKER, SineWave))] else [];
    var spring := if Constant in d.supported then [HwCall(i, NewEffect(CONST_X, SpringCondition))] else [];
    if Sine in d.supported && upload(i, STICK_SHAKER) < 0 then Failed(shaker)
    else if Constant in d.supported && upload(i, CONST_X) < 0 then Failed(shaker + spring)
    else
      var ids := d.effectIds;
      var ids := if Sine in d.supported then ids[STICK_SHAKER := upload(i, STICK_SHAKER)] else ids;
      var ids := if Constant in d.supported then ids[CONST_X := upload(i, CONST_X)] else ids;
      Ready(d.(effectIds := ids), shaker + spring)
  }

  datatype TestCreation = Created(devices: seq<PollDevice>, calls: seq<HwCall>) | Aborted(calls: seq<HwCall>)

  /** `create_effects` from device `k` on. */
  function TestCreateFrom(devs: seq<PollDevice>, k: nat, upload: Uploader): (r: TestCreation)
    requires k <= |devs| && AllSlotted(devs)
    ensures r.Aborted? <==> exists j :: k <= j < |devs| && TestUploadFails(j, devs[j], upload)
    ensures r.Created? ==> |r.devices| == |devs| - k
    ensures r.Created? ==>
              forall j :: k <= j < |devs| ==> r.devices[j - k] == TestCreateOne(j, devs[j], upload).device
    ensures forall c :: c in r.calls ==> k <= c.device < |devs|
    decreases |devs| - k
  {
    if k == |devs| then Created([], [])
    else
      match TestCreateOne(k, devs[k], upload)
      case Failed(calls) => Aborted(calls)
      case Ready(d, calls) =>
        match TestCreateFrom(devs, k + 1, upload)
        case Aborted(more) => Aborted(calls + more)
        case Created(ds, more) =>
          assert ([d] + ds)[1..] == ds;
          Created([d] + ds, calls + more)
  }

  /** What enumeration leaves in device `i` before any effect exists:
      every identifier 0 and zero parameters. */
  lemma TestEnumeratedBlank(probes: seq<Probe>, i: nat)
    requires i < |probes|
    ensures TestEnumerate(probes)[i].effectIds == ZERO_IDS
    ensures TestEnumerate(probes)[i].params == ZeroPollParams()
  {
    var devs := TestEnumerate(probes);
    assert devs[i] == TestInitDevice(i, probes[i], TestNames(devs[..i]));
  }

  /** A completed `create_effects` leaves the CONST_X identifier of a
      device without CONSTANT as it was. */
  lemma SpringSlotKept(devs: seq<PollDevice>, upload: Uploader, j: nat)
    requires AllSlotted(devs) && j < |devs| && TestCreateFrom(devs, 0, upload).Created?
    requires Constant !in devs[j].supported
    ensures TestCreateFrom(devs, 0, upload).devices[j].effectIds[CONST_X] == devs[j].effectIds[CONST_X]
  {
    assert TestCreateFrom(devs, 0, upload).devices[j - 0] == TestCreateOne(j, devs[j], upload).device;
  }

  /** After a completed `create_effects`, a device without CONSTANT still
      holds 0 in CONST_X, the identifier enumeration left there; the loop
      reloads that slot on every open device regardless. */
  lemma UnsupportedSpringSlotKeepsZero(probes: seq<Probe>, upload: Uploader, j: nat)
    requires j < |probes| && TestCreateFrom(TestEnumerate(probes), 0, upload).Created?
    requires Constant !in TestEnumerate(probes)[j].supported
    ensures TestCreateFrom(TestEnumerate(probes), 0, upload).devices[j].effectIds[CONST_X] == 0
  {
    TestEnumeratedBlank(probes, j);
    SpringSlotKept(TestEnumerate(probes), upload, j);
  }

  /** What `getchar` returned when `read_fg` ran. */
  datatype KeyRead = Quit | Continue(devices: seq<PollDevice>, trigger: int)

  /** `read_fg` of test-haptic.c: `q` ends the program, `1` raises the
      trigger, any other key (or end of input) leaves it; the parameters of
      the first device, when there is one, are zeroed every time and
      nothing else changes. The C code zeroes `devices[0]` even when there
      is no device (see `KeyReadFgAsWritten`). */
  function KeyReadFg(key: int, devs: seq<PollDevice>, trigger: int): (r: KeyRead)
    ensures r.Quit? <==> key == 'q' as int
    ensures r.Continue? ==>
              && r.trigger == (if key == '1' as int then 1 else trigger)
              && |r.devices| == |devs|
              && (|devs| > 0 ==> r.devices[0] == devs[0].(params := ZeroPollParams()))
              && forall j :: 1 <= j < |devs| ==> r.devices[j] == devs[j]
  {
    if key == 'q' as int then Quit
    else
      var ds := if |devs| == 0 then devs else devs[0 := devs[0].(params := ZeroPollParams())];
      Continue(ds, if key == '1' as int then 1 else trigger)
  }

  /** `read_fg` of test-haptic.c as written: once the key is not `q`, the
      `memcpy` into `devices[0]` runs, so with no device it writes past the
      zero-length array (`None`); otherwise it is `KeyReadFg`. */
  function KeyReadFgAsWritten(key: int, devs: seq<PollDevice>, trigger: int): (r: Option<KeyRead>)
    ensures r.None? <==> key != 'q' as int && |devs| == 0
    ensures r.Some? ==> r.value == KeyReadFg(key, devs, trigger)
  {
    if key == 'q' as int then Some(Quit)
    else if |devs| == 0 then None
    else Some(KeyReadFg(key, devs, trigger))
  }

  /** With no device, any key but `q` makes the C code write past the
      device array; read as intended, `1` only raises the trigger. */
  lemma NoDeviceKey()
    ensures KeyReadFgAsWritten('1' as int, [], 0).None?
    ensures KeyReadFg('1' as int, [], 0) == Continue([], 1)
  {
  }

  /** No open device among `devs[k..j]`. */
  predicate NoneOpen(devs: seq<PollDevice>, k: nat, j: nat)
    requires k <= j <= |devs|
  {
    forall m :: k <= m < j ==> !devs[m].open
  }

  datatype KeyPass = KeyPass(calls: seq<HwCall>, trigger: int)

  /** The device loop from device `k` on: a closed device is skipped; an
      open one gets its CONST_X effect reloaded and run, and also its
      shaker when the trigger is pending, which consumes the trigger. */
  function KeyDriveFrom(devs: seq<PollDevice>, k: nat, trigger: int): (r: KeyPass)
    requires k <= |devs| && AllSlotted(devs)
    ensures r.trigger == (if NoneOpen(devs, k, |devs|) then trigger else 0)
    ensures forall c :: c in r.calls ==> k <= c.device < |devs|
    decreases |devs| - k
  {
    if k == |devs| then KeyPass([], trigger)
    else if !devs[k].open then KeyDriveFrom(devs, k + 1, trigger)
    else
      var spring := Reload(k, true, devs[k].effectIds[CONST_X], true);
      var shaker := if trigger != 0 then Reload(k, true, devs[k].effectIds[STICK_SHAKER], true) else [];
      var rest := KeyDriveFrom(devs, k + 1, 0);
      KeyPass(spring + shaker + rest.calls, rest.trigger)
  }

  /** What the device loop does to device `j`: nothing when it is closed;
      otherwise the CONST_X reload with run, whatever its capabilities,
      followed by the shaker reload with run exactly when a trigger is
      pending and no open device comes before it. */
  function KeyCallsFor(devs: seq<PollDevice>, k: nat, trigger: int, j: nat): (r: seq<HwCall>)
    requires k <= j < |devs| && AllSlotted(devs)
  {
    if !devs[j].open then []
    else Reload(j, true, devs[j].effectIds[CONST_X], true)
         + (if trigger != 0 && NoneOpen(devs, k, j) then Reload(j, true, devs[j].effectIds[STICK_SHAKER], true) else [])
  }

  lemma {:induction false} KeyDriveCalls(devs: seq<PollDevice>, k: nat, trigger: int, j: nat)
    requires k <= j < |devs| && AllSlotted(devs)
    ensures CallsOn(KeyDriveFrom(devs, k, trigger).calls, j) == KeyCallsFor(devs, k, trigger, j)
    decreases |devs| - k
  {
    if !devs[k].open {
      if k < j {
        KeyDriveCalls(devs, k + 1, trigger, j);
        assert NoneOpen(devs, k, j) == NoneOpen(devs, k + 1, j);
      } else {
        var rest := KeyDriveFrom(devs, k + 1, trigger);
        CallsOnOthers(rest.calls, j);
      }
    } else {
      if k == j {
        KeyDriveOwn(devs, k, trigger);
      } else {
        KeyDrivePast(devs, k, trigger, j);
        KeyDriveCalls(devs, k + 1, 0, j);
        assert !NoneOpen(devs, k, j);
      }
    }
  }

  /** An open device makes its own reloads: CONST_X, then the shaker when
      the trigger is pending. */
  lemma KeyDriveOwn(devs: seq<PollDevice>, k: nat, trigger: int)
    requires k < |devs| && AllSlotted(devs) && devs[k].open
    ensures CallsOn(KeyDriveFrom(devs, k, trigger).calls, k) ==
      Reload(k, true, devs[k].effectIds[CONST_X], true)
      + (if trigger != 0 then Reload(k, true, devs[k].effectIds[STICK_SHAKER], true) else [])
  {
    var own := Reload(k, true, devs[k].effectIds[CONST_X], true)
      + (if trigger != 0 then Reload(k, true, devs[k].effectIds[STICK_SHAKER], true) else []);
    var rest := KeyDriveFrom(devs, k + 1, 0);
    assert KeyDriveFrom(devs, k, trigger).calls == own + rest.calls;
    CallsOnAppend(own, rest.calls, k);
    CallsOnAll(own, k);
    CallsOnOthers(rest.calls, k);
  }

  /** After an open device the loop goes on with the trigger spent, and
      the calls on later devices are those of the rest of the loop. */
  lemma KeyDrivePast(devs: seq<PollDevice>, k: nat, trigger: int, j: nat)
    requires k < j < |devs| && AllSlotted(devs) && devs[k].open
    ensures CallsOn(KeyDriveFrom(devs, k, trigger).calls, j) == CallsOn(KeyDriveFrom(devs, k + 1, 0).calls, j)
  {
    var own := Reload(k, true, devs[k].effectIds[CONST_X], true)
      + (if trigger != 0 then Reload(k, true, devs[k].effectIds[STICK_SHAKER], true) else []);
    var rest := KeyDriveFrom(devs, k + 1, 0);
    assert KeyDriveFrom(devs, k, trigger).calls == own + rest.calls;
    assert forall c :: c in own ==> c.device == k;
    CallsOnOthers(own, j);
    CallsOnAppend(own, rest.calls, j);
  }

  datatype KeyTick = Quitting | KeyTick(devices: seq<PollDevice>, trigger: int, calls: seq<HwCall>)

  /** One pass of the main loop of test-haptic.c on the key read. */
  function KeyTickOf(key: int, devs: seq<PollDevice>, trigger: int): (r: KeyTick)
    requires AllSlotted(devs)
    ensures r.Quitting? <==> key == 'q' as int
    ensures r.KeyTick? ==> r.devices == KeyReadFg(key, devs, trigger).devices && AllSlotted(r.devices)
  {
    match KeyReadFg(key, devs, trigger)
    case Quit => Quitting
    case Continue(ds, t) =>
      assert forall j :: 0 <= j < |ds| ==> ds[j].effectIds == devs[j].effectIds;
      var pass := KeyDriveFrom(ds, 0, t);
      KeyTick(ds, pass.trigger, pass.calls)
  }

  /** A pending trigger, old or raised by this key, is consumed by the
      lowest-indexed open device, which alone reloads and runs its shaker;
      it stays pending when no device is open. */
  lemma TriggerFiresOnce(key: int, devs: seq<PollDevice>, trigger: int, j: nat)
    requires AllSlotted(devs) && key != 'q' as int && j < |devs|
    ensures var r := KeyTickOf(key, devs, trigger);
      var pending := if key == '1' as int then 1 else trigger;
      && (r.trigger == if NoneOpen(devs, 0, |devs|) then pending else 0)
      && (HwCall(j, Update(devs[j].effectIds[STICK_SHAKER])) in CallsOn(r.calls, j) <==>
            (devs[j].open && pending != 0 && NoneOpen(devs, 0, j))
            || (devs[j].open && devs[j].effectIds[CONST_X] == devs[j].effectIds[STICK_SHAKER]))
  {
    var ds := KeyReadFg(key, devs, trigger).devices;
    var pending := if key == '1' as int then 1 else trigger;
    ReadKeepsShape(key, devs, trigger);
    NoneOpenSame(ds, devs, 0, |devs|);
    NoneOpenSame(ds, devs, 0, j);
    KeyDriveCalls(ds, 0, pending, j);
    KeyCallsShaker(ds, 0, pending, j);
  }

  /** The key read changes no device's state or effect identifiers. */
  lemma ReadKeepsShape(key: int, devs: seq<PollDevice>, trigger: int)
    requires key != 'q' as int
    ensures var ds := KeyReadFg(key, devs, trigger).devices;
      |ds| == |devs| && forall m :: 0 <= m < |devs| ==> ds[m].open == devs[m].open && ds[m].effectIds == devs[m].effectIds
  {
  }

  lemma NoneOpenSame(a: seq<PollDevice>, b: seq<PollDevice>, k: nat, j: nat)
    requires k <= j <= |a| == |b|
    requires forall m :: 0 <= m < |a| ==> a[m].open == b[m].open
    ensures NoneOpen(a, k, j) == NoneOpen(b, k, j)
  {
  }

  /** Device `j`'s calls update its shaker exactly when the trigger fires
      for it, or when its shaker shares the CONST_X identifier. */
  lemma KeyCallsShaker(devs: seq<PollDevice>, k: nat, trigger: int, j: nat)
    requires k <= j < |devs| && AllSlotted(devs)
    ensures var ids := devs[j].effectIds;
      HwCall(j, Update(ids[STICK_SHAKER])) in KeyCallsFor(devs, k, trigger, j) <==>
        (devs[j].open && trigger != 0 && NoneOpen(devs, k, j))
        || (devs[j].open && ids[CONST_X] == ids[STICK_SHAKER])
  {
    if devs[j].open {
      var ids := devs[j].effectIds;
      var spring := Reload(j, true, ids[CONST_X], true);
      var fires := trigger != 0 && NoneOpen(devs, k, j);
      var shaker := if fires then Reload(j, true, ids[STICK_SHAKER], true) else [];
      assert KeyCallsFor(devs, k, trigger, j) == spring + shaker;
      assert spring == [HwCall(j, Update(ids[CONST_X])), HwCall(j, Run(ids[CONST_X]))];
      assert fires ==> shaker[0] == HwCall(j, Update(ids[STICK_SHAKER]));
      assert forall c :: c in shaker ==> c.op.Update? ==> c == HwCall(j, Update(ids[STICK_SHAKER]));
    }
  }

  /** Every open device reloads and runs its CONST_X effect on every pass,
      whatever its capabilities and whatever key was read; a closed device
      is left alone. */
  lemma SpringReloadedEveryPass(key: int, devs: seq<PollDevice>, trigger: int, j: nat)
    requires AllSlotted(devs) && key != 'q' as int && j < |devs|
    ensures var calls := CallsOn(KeyTickOf(key, devs, trigger).calls, j);
      && (devs[j].open ==>
            |calls| >= 2 && calls[..2] == [HwCall(j, Update(devs[j].effectIds[CONST_X])),
                                           HwCall(j, Run(devs[j].effectIds[CONST_X]))])
      && (!devs[j].open ==> calls == [])
  {
    var ds := KeyReadFg(key, devs, trigger).devices;
    var pending := if key == '1' as int then 1 else trigger;
    assert ds[j].open == devs[j].open && ds[j].effectIds == devs[j].effectIds;
    KeyDriveCalls(ds, 0, pending, j);
  }
}
