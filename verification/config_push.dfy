/** `send_devices` of fg-haptic.c: the configuration of every device pushed
    to the simulator as `set` commands, gated by the device's capabilities. */
module ConfigPush {
  import opened Optional
  import opened Hardware
  import opened Devices
  import opened Protocol

  function Put(i: nat, p: Prop, v: Value): Command {
    Set(DeviceProp(i, p), v)
  }

  /** The mapping lines for axes `x .. min(axes, 3) - 1`. */
  function MappingLines(i: nat, d: Device, x: nat): (r: seq<Command>)
    requires x <= AxisCount(d)
    decreases AxisCount(d) - x
  {
    if x == AxisCount(d) then []
    else [Put(i, PilotAxis(x), IntV(d.config.pilotAxes.Get(x))),
          Put(i, StickAxis(x), IntV(d.config.stickAxes.Get(x)))] + MappingLines(i, d, x + 1)
  }

  /** The six identification lines every device gets. */
  function InfoLines(i: nat, d: Device): seq<Command> {
    [Put(i, Number, IntV(d.num)), Put(i, Name, TextV(d.name)), Put(i, Supported, CapsV(d.supported)),
     Put(i, AxesCount, IntV(d.axes)), Put(i, NumEffects, IntV(d.numEffects)),
     Put(i, NumEffectsPlaying, IntV(d.numPlaying))]
  }

  /** Constant force: the mappings and the pilot and stick gains. */
  function ConstantLines(i: nat, d: Device): seq<Command> {
    if Constant in d.supported
    then MappingLines(i, d, 0) + [Put(i, PilotGain, RealV(d.config.pilotGain)),
                                  Put(i, StickGain, RealV(d.config.stickGain))]
    else []
  }

  /** Sine: the stick-shaker lines, ending with `trigger 0`. */
  function ShakerLines(i: nat, d: Device): seq<Command> {
    if Sine in d.supported
    then [Put(i, ShakerDir, Unspecified), Put(i, ShakerPeriod, Unspecified),
          Put(i, ShakerGain, RealV(d.config.shakerGain)), Put(i, ShakerTrigger, IntV(0))]
    else []
  }

  function GainLines(i: nat, d: Device): seq<Command> {
    if Gain in d.supported then [Put(i, DeviceGain, RealV(d.config.gain))] else []
  }

  function AutocenterLines(i: nat, d: Device): seq<Command> {
    if Autocenter in d.supported then [Put(i, DeviceAutocenter, RealV(d.config.autocenter))] else []
  }

  /** The commands written for device `i`. */
  function Block(i: nat, d: Device): seq<Command> {
    InfoLines(i, d) + ConstantLines(i, d) + ShakerLines(i, d) + GainLines(i, d) + AutocenterLines(i, d)
  }

  function Blocks(devs: seq<Device>, k: nat): seq<Command>
    requires k <= |devs|
    decreases |devs| - k
  {
    if k == |devs| then [] else Block(k, devs[k]) + Blocks(devs, k + 1)
  }

  /** What the simulator holds for a property of a device once the device's
      block has been written: the device's own values, present only for the
      capabilities that gate them. Shaker direction and period are passed as
      integers to `%f`, so what is printed for them is unspecified. */
  function SentValue(d: Device, p: Prop): Option<Value> {
    var c := d.config;
    match p
    case Number => Some(IntV(d.num))
    case Name => Some(TextV(d.name))
    case Supported => Some(CapsV(d.supported))
    case AxesCount => Some(IntV(d.axes))
    case NumEffects => Some(IntV(d.numEffects))
    case NumEffectsPlaying => Some(IntV(d.numPlaying))
    case PilotAxis(a) =>
      if Constant in d.supported && a < AxisCount(d) then Some(IntV(c.pilotAxes.Get(a))) else None
    case StickAxis(a) =>
      if Constant in d.supported && a < AxisCount(d) then Some(IntV(c.stickAxes.Get(a))) else None
    case PilotGain => if Constant in d.supported then Some(RealV(c.pilotGain)) else None
    case StickGain => if Constant in d.supported then Some(RealV(c.stickGain)) else None
    case ShakerDir => if Sine in d.supported then Some(Unspecified) else None
    case ShakerPeriod => if Sine in d.supported then Some(Unspecified) else None
    case ShakerGain => if Sine in d.supported then Some(RealV(c.shakerGain)) else None
    case ShakerTrigger => if Sine in d.supported then Some(IntV(0)) else None
    case DeviceGain => if Gain in d.supported then Some(RealV(c.gain)) else None
    case DeviceAutocenter => if Autocenter in d.supported then Some(RealV(c.autocenter)) else None
    case SurfaceAxis(_) => None
    case SurfaceGain => None
  }

  /** `send_devices`. */
  function SendDevices(devs: seq<Device>): seq<Command> {
    [Set(Reconfigure, IntV(0))] + Blocks(devs, 0)
  }

  lemma {:induction false} MappingLinesSet(i: nat, d: Device, x: nat, q: Path)
    requires x <= AxisCount(d)
    ensures LastSet(MappingLines(i, d, x), q) ==
      (match q
       case DeviceProp(j, PilotAxis(a)) =>
         if j == i && x <= a < AxisCount(d) then Some(IntV(d.config.pilotAxes.Get(a))) else None
       case DeviceProp(j, StickAxis(a)) =>
         if j == i && x <= a < AxisCount(d) then Some(IntV(d.config.stickAxes.Get(a))) else None
       case _ => None)
    decreases AxisCount(d) - x
  {
    if x < AxisCount(d) {
      var head := [Put(i, PilotAxis(x), IntV(d.config.pilotAxes.Get(x))),
                   Put(i, StickAxis(x), IntV(d.config.stickAxes.Get(x)))];
      LastSetAppend(head, MappingLines(i, d, x + 1), q);
      MappingLinesSet(i, d, x + 1, q);
      assert head == [head[0]] + [head[1]];
      LastSetAppend([head[0]], [head[1]], q);
    }
  }

  predicate IsInfo(p: Prop) {
    p.Number? || p.Name? || p.Supported? || p.AxesCount? || p.NumEffects? || p.NumEffectsPlaying?
  }

  predicate IsConstant(p: Prop) {
    p.PilotAxis? || p.StickAxis? || p.PilotGain? || p.StickGain?
  }

  predicate IsShaker(p: Prop) {
    p.ShakerDir? || p.ShakerPeriod? || p.ShakerGain? || p.ShakerTrigger?
  }

  /** Restricts `SentValue` to the properties a group of lines covers. */
  function Only(q: Path, i: nat, d: Device, group: Prop -> bool): Option<Value> {
    if q.DeviceProp? && q.index == i && group(q.prop) then SentValue(d, q.prop) else None
  }

  lemma InfoSets(i: nat, d: Device, q: Path)
    ensures LastSet(InfoLines(i, d), q) == Only(q, i, d, IsInfo)
  {
  }

  lemma ConstantSets(i: nat, d: Device, q: Path)
    ensures LastSet(ConstantLines(i, d), q) == Only(q, i, d, IsConstant)
  {
    if Constant in d.supported {
      var gains := [Put(i, PilotGain, RealV(d.config.pilotGain)), Put(i, StickGain, RealV(d.config.stickGain))];
      LastSetAppend(MappingLines(i, d, 0), gains, q);
      MappingLinesSet(i, d, 0, q);
    }
  }

  lemma ShakerSets(i: nat, d: Device, q: Path)
    ensures LastSet(ShakerLines(i, d), q) == Only(q, i, d, IsShaker)
  {
  }

  /** The block of device `i` sets exactly `SentValue` for device `i` and
      nothing for any other path. */
  lemma BlockSets(i: nat, d: Device, q: Path)
    ensures LastSet(Block(i, d), q) ==
      (if q.DeviceProp? && q.index == i then SentValue(d, q.prop) else None)
  {
    BlockParts(i, d, q);
    if q.DeviceProp? && q.index == i {
      match q.prop
      case Number =>
      case Name =>
      case Supported =>
      case AxesCount =>
      case NumEffects =>
      case NumEffectsPlaying =>
      case PilotAxis(_) =>
      case StickAxis(_) =>
      case PilotGain =>
      case StickGain =>
      case ShakerDir =>
      case ShakerPeriod =>
      case ShakerGain =>
      case ShakerTrigger =>
      case DeviceGain =>
      case DeviceAutocenter =>
      case SurfaceAxis(_) =>
      case SurfaceGain =>
    }
  }

  /** The last `set` of `q` in the block is that of its last group that
      sets `q`. */
  lemma {:induction false} BlockParts(i: nat, d: Device, q: Path)
    ensures var groups := [Only(q, i, d, IsInfo), Only(q, i, d, IsConstant), Only(q, i, d, IsShaker),
                           LastSet(GainLines(i, d), q), LastSet(AutocenterLines(i, d), q)];
      LastSet(Block(i, d), q) ==
        if groups[4].Some? then groups[4] else if groups[3].Some? then groups[3]
        else if groups[2].Some? then groups[2] else if groups[1].Some? then groups[1] else groups[0]
  {
    var info := InfoLines(i, d);
    var cons := ConstantLines(i, d);
    var sine := ShakerLines(i, d);
    var gain := GainLines(i, d);
    var auto := AutocenterLines(i, d);
    LastSetAppend(info + cons + sine + gain, auto, q);
    LastSetAppend(info + cons + sine, gain, q);
    LastSetAppend(info + cons, sine, q);
    LastSetAppend(info, cons, q);
    InfoSets(i, d, q);
    ConstantSets(i, d, q);
    ShakerSets(i, d, q);
  }

  lemma {:induction false} BlocksSet(devs: seq<Device>, k: nat, q: Path)
    requires k <= |devs|
    ensures LastSet(Blocks(devs, k), q) ==
      (if q.DeviceProp? && k <= q.index < |devs| then SentValue(devs[q.index], q.prop) else None)
    decreases |devs| - k
  {
    if k < |devs| {
      LastSetAppend(Block(k, devs[k]), Blocks(devs, k + 1), q);
      BlocksSet(devs, k + 1, q);
      BlockSets(k, devs[k], q);
    }
  }

  /** After `send_devices` the simulator holds `reconfigure = 0` and, for
      every device, exactly the capability-gated values of `SentValue`;
      nothing is set for indices beyond the last device. */
  lemma SendDevicesSets(devs: seq<Device>, q: Path)
    ensures SendDevices(devs)[0] == Set(Reconfigure, IntV(0))
    ensures LastSet(SendDevices(devs), Reconfigure) == Some(IntV(0))
    ensures q.DeviceProp? ==>
      LastSet(SendDevices(devs), q) == (if q.index < |devs| then SentValue(devs[q.index], q.prop) else None)
  {
    LastSetAppend([Set(Reconfigure, IntV(0))], Blocks(devs, 0), q);
    LastSetAppend([Set(Reconfigure, IntV(0))], Blocks(devs, 0), Reconfigure);
    BlocksSet(devs, 0, q);
    BlocksSet(devs, 0, Reconfigure);
  }

  /** `t` occurs in `s` at position `m`. */
  predicate RunAt<T(==)>(s: seq<T>, m: int, t: seq<T>) {
    0 <= m && m + |t| <= |s| && s[m..m + |t|] == t
  }

  /** The shaker lines are written as one run that ends with `trigger 0`,
      and only for a device with the sine capability. */
  lemma ShakerLinesEndWithTrigger(i: nat, d: Device)
    ensures Sine in d.supported <==> Put(i, ShakerTrigger, IntV(0)) in Block(i, d)
    ensures Sine in d.supported ==>
      exists m :: RunAt(Block(i, d), m, [Put(i, ShakerDir, Unspecified), Put(i, ShakerPeriod, Unspecified),
                                         Put(i, ShakerGain, RealV(d.config.shakerGain)),
                                         Put(i, ShakerTrigger, IntV(0))])
  {
    TriggerSentIffSine(i, d);
    if Sine in d.supported {
      var front := InfoLines(i, d) + ConstantLines(i, d);
      RunAtFront(front, ShakerLines(i, d), GainLines(i, d), AutocenterLines(i, d));
      assert RunAt(Block(i, d), |front|, ShakerLines(i, d));
    }
  }

  lemma TriggerSentIffSine(i: nat, d: Device)
    ensures Sine in d.supported <==> Put(i, ShakerTrigger, IntV(0)) in Block(i, d)
  {
    var q := DeviceProp(i, ShakerTrigger);
    MappingLinesSet(i, d, 0, q);
    assert Set(q, IntV(0)) !in MappingLines(i, d, 0);
  }

  lemma RunAtFront<T>(a: seq<T>, b: seq<T>, c: seq<T>, d: seq<T>)
    ensures RunAt(a + b + c + d, |a|, b)
  {
    assert (a + b + c + d)[|a|..|a| + |b|] == b;
  }

  /** Every command is a `set`, and the blocks come in device order. */
  lemma {:induction false} BlocksInOrder(devs: seq<Device>, k: nat)
    requires k <= |devs|
    ensures forall m :: 0 <= m < |Blocks(devs, k)| ==>
      Blocks(devs, k)[m].Set? && Blocks(devs, k)[m].path.DeviceProp? &&
      k <= Blocks(devs, k)[m].path.index < |devs|
    ensures forall m1, m2 :: 0 <= m1 < m2 < |Blocks(devs, k)| ==>
      Blocks(devs, k)[m1].path.index <= Blocks(devs, k)[m2].path.index
    decreases |devs| - k
  {
    if k < |devs| {
      BlocksInOrder(devs, k + 1);
      BlockShape(k, devs[k]);
    }
  }

  /** A `set` of a property of device `i`. */
  predicate SetsOn(c: Command, i: nat) {
    c.Set? && c.path.DeviceProp? && c.path.index == i
  }

  /** Every command of `cmds` is a `set` of a property of device `i`. */
  predicate AllSetOn(cmds: seq<Command>, i: nat) {
    forall m :: 0 <= m < |cmds| ==> SetsOn(cmds[m], i)
  }

  lemma AllSetOnAppend(a: seq<Command>, b: seq<Command>, i: nat)
    requires AllSetOn(a, i) && AllSetOn(b, i)
    ensures AllSetOn(a + b, i)
  {
    forall m | 0 <= m < |a + b|
      ensures SetsOn((a + b)[m], i)
    {
      if m >= |a| {
        assert (a + b)[m] == b[m - |a|];
      }
    }
  }

  lemma BlockShape(i: nat, d: Device)
    ensures forall m :: 0 <= m < |Block(i, d)| ==>
      SetsOn(Block(i, d)[m], i)
  {
    var info := InfoLines(i, d);
    var cons := ConstantLines(i, d);
    var sine := ShakerLines(i, d);
    var gain := GainLines(i, d);
    var auto := AutocenterLines(i, d);
    MappingShape(i, d, 0);
    assert AllSetOn(info, i);
    if Constant in d.supported {
      var gains := [Put(i, PilotGain, RealV(d.config.pilotGain)), Put(i, StickGain, RealV(d.config.stickGain))];
      assert AllSetOn(gains, i);
      AllSetOnAppend(MappingLines(i, d, 0), gains, i);
    }
    assert AllSetOn(sine, i) && AllSetOn(gain, i) && AllSetOn(auto, i);
    AllSetOnAppend(info, cons, i);
    AllSetOnAppend(info + cons, sine, i);
    AllSetOnAppend(info + cons + sine, gain, i);
    AllSetOnAppend(info + cons + sine + gain, auto, i);
  }

  lemma {:induction false} MappingShape(i: nat, d: Device, x: nat)
    requires x <= AxisCount(d)
    ensures AllSetOn(MappingLines(i, d, x), i)
    decreases AxisCount(d) - x
  {
    if x < AxisCount(d) {
      MappingShape(i, d, x + 1);
      var head := [Put(i, PilotAxis(x), IntV(d.config.pilotAxes.Get(x))),
                   Put(i, StickAxis(x), IntV(d.config.stickAxes.Get(x)))];
      assert AllSetOn(head, i);
      AllSetOnAppend(head, MappingLines(i, d, x + 1), i);
    }
  }
}
