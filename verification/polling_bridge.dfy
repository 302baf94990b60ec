/** The oldest generation of the bridge, haptic.c: one socket, devices
    numbered from 0 and announced to the simulator as they are opened, and
    every parameter polled with one `get` per property on every pass of the
    main loop. Replies are the lines `fgfsread` returned, `None` standing
    for a timeout or an empty line; `atof` is a parameter. */
module PollingBridge {
  import opened Optional
  import opened LineClient
  import opened Hardware
  import opened Devices
  import opened Protocol
  import opened ConfigPull
  import ConfigRoundTrip

  /** Effect slots of haptic.c: the constant force and the shaker. */
  const POLL_EFFECTS: nat := 2
  const CONSTANT_SLOT: nat := 0
  const SHAKER_SLOT: nat := 1

  /** The polled parameters (`effectParams` of haptic.c). The trigger is a
      `char`. */
  datatype PollParams = PollParams(
    autocenter: real,
    gain: real,
    pilot: Triple<real>,
    pilotGain: real,
    surface: Triple<real>,
    surfaceGain: real,
    shakerDir: real,
    shakerGain: real,
    shakerPeriod: real,
    shakerTrigger: int)

  datatype PollDevice = PollDevice(
    num: nat,
    open: bool,
    name: string,
    supported: set<Cap>,
    axes: nat,
    numEffects: nat,
    numPlaying: nat,
    effectIds: seq<int>,
    params: PollParams)

  function ZeroPollParams(): PollParams {
    PollParams(0.0, 0.0, Triple(0.0, 0.0, 0.0), 0.0, Triple(0.0, 0.0, 0.0), 0.0, 0.0, 0.0, 0.0, 0)
  }

  /** `min(axes, AXES)`, the axes the constant force is polled for. */
  function PollAxes(d: PollDevice): nat {
    MinNat(d.axes, AXES)
  }

  /** `strncpy(name, p, NAMELEN - 1)` into a zeroed `NAMELEN` buffer. */
  function PollName(sdlName: string): (r: string)
    ensures |r| <= NAMELEN - 1
    ensures r <= CStr(sdlName)
    ensures |CStr(sdlName)| <= NAMELEN - 1 ==> r == CStr(sdlName)
  {
    var s := CStr(sdlName);
    if |s| <= NAMELEN - 1 then s else s[..NAMELEN - 1]
  }

  /** The entry for SDL device `i` after `init_haptic` of haptic.c: number
      `i`, `open` preset and cleared only when SDL fails to open the
      device, whose entry then stays as the `memset` left it. */
  function PollInit(i: nat, p: Probe): (d: PollDevice)
    ensures d.num == i
    ensures d.open <==> p.Opened?
    ensures |d.name| <= NAMELEN - 1
    ensures p.Opened? ==> d.name <= CStr(p.name) && d.supported == p.caps && d.axes == p.axes
    ensures !p.Opened? ==> d.name == [] && d.supported == {} && d.axes == 0
    ensures d.params == ZeroPollParams() && d.effectIds == [0, 0]
  {
    var zero := PollDevice(i, true, [], {}, 0, 0, 0, [0, 0], ZeroPollParams());
    match p
    case Unavailable => zero.(open := false)
    case Opened(sdlName, caps, axes, numEffects, numPlaying) =>
      zero.(name := PollName(sdlName), supported := caps, axes := axes, numEffects := numEffects,
            numPlaying := numPlaying)
  }

  function PollEnumerate(probes: seq<Probe>): (r: seq<PollDevice>)
    ensures |r| == |probes|
    ensures forall i :: 0 <= i < |probes| ==> r[i] == PollInit(i, probes[i])
  {
    seq(|probes|, i requires 0 <= i < |probes| => PollInit(i, probes[i]))
  }

  function Put(i: nat, p: Prop, v: Value): Command {
    Set(DeviceProp(i, p), v)
  }

  /** The value of a polled parameter, for the properties that name one. */
  function PollField(p: PollParams, q: Prop): Option<real> {
    match q
    case PilotAxis(a) => if a < 3 then Some(p.pilot.Get(a)) else None
    case SurfaceAxis(a) => if a < 3 then Some(p.surface.Get(a)) else None
    case PilotGain => Some(p.pilotGain)
    case SurfaceGain => Some(p.surfaceGain)
    case ShakerDir => Some(p.shakerDir)
    case ShakerGain => Some(p.shakerGain)
    case ShakerPeriod => Some(p.shakerPeriod)
    case DeviceAutocenter => Some(p.autocenter)
    case DeviceGain => Some(p.gain)
    case _ => None
  }

  predicate IsPollProp(q: Prop) {
    PollField(ZeroPollParams(), q).Some?
  }

  /** One reply stored: `atof` of the line when there is one, the old value
      when the read gave nothing. The trigger is never written. */
  function PollStore(p: PollParams, q: Prop, reply: Option<string>, atof: string -> real): (r: PollParams)
    requires IsPollProp(q)
    ensures PollField(r, q) == if reply.Some? then Some(atof(reply.value)) else PollField(p, q)
    ensures forall q' :: q' != q ==> PollField(r, q') == PollField(p, q')
    ensures r.shakerTrigger == p.shakerTrigger
  {
    if reply.None? then p
    else
      var v := atof(reply.value);
      match q
      case PilotAxis(a) => p.(pilot := p.pilot.With(a, v))
      case SurfaceAxis(a) => p.(surface := p.surface.With(a, v))
      case PilotGain => p.(pilotGain := v)
      case SurfaceGain => p.(surfaceGain := v)
      case ShakerDir => p.(shakerDir := v)
      case ShakerGain => p.(shakerGain := v)
      case ShakerPeriod => p.(shakerPeriod := v)
      case DeviceAutocenter => p.(autocenter := v)
      case DeviceGain => p.(gain := v)
  }

  /** Pilot and surface force of each axis from `x` to `n - 1`. */
  function AxisPairs(x: nat, n: nat): (qs: seq<Prop>)
    requires x <= n <= 3
    ensures |qs| == 2 * (n - x)
    decreases n - x
  {
    if x == n then [] else [PilotAxis(x), SurfaceAxis(x)] + AxisPairs(x + 1, n)
  }

  lemma {:induction false} AxisPairsAt(x: nat, n: nat)
    requires x <= n <= 3
    ensures forall k :: 0 <= k < 2 * (n - x) ==>
              AxisPairs(x, n)[k] == (if k % 2 == 0 then PilotAxis(x + k / 2) else SurfaceAxis(x + k / 2))
    decreases n - x
  {
    if x < n {
      AxisPairsAt(x + 1, n);
    }
  }

  /** Whether `read_fg` asks a device for a property: the constant-force
      values for the first `min(axes, 3)` axes and the two gains behind the
      constant-force capability, the shaker parameters behind the sine
      capability, autocenter and gain behind their own. Never the
      trigger. */
  predicate Polled(d: PollDevice, q: Prop) {
    match q
    case PilotAxis(a) => Constant in d.supported && a < PollAxes(d)
    case SurfaceAxis(a) => Constant in d.supported && a < PollAxes(d)
    case PilotGain => Constant in d.supported
    case SurfaceGain => Constant in d.supported
    case ShakerDir => Sine in d.supported
    case ShakerGain => Sine in d.supported
    case ShakerPeriod => Sine in d.supported
    case DeviceAutocenter => Autocenter in d.supported
    case DeviceGain => Gain in d.supported
    case _ => false
  }

  /** The capability block a polled property belongs to. */
  function Group(q: Prop): nat {
    match q
    case PilotAxis(_) => 0
    case SurfaceAxis(_) => 0
    case PilotGain => 0
    case SurfaceGain => 0
    case ShakerDir => 1
    case ShakerGain => 1
    case ShakerPeriod => 1
    case DeviceAutocenter => 2
    case DeviceGain => 3
    case _ => 4
  }

  /** A run of distinct polled properties of one capability block. */
  predicate BlockOf(qs: seq<Prop>, g: nat) {
    && Distinct(qs)
    && (forall k :: 0 <= k < |qs| ==> IsPollProp(qs[k]) && Group(qs[k]) == g)
  }

  function ConstantQueries(d: PollDevice): seq<Prop> {
    if Constant in d.supported then AxisPairs(0, PollAxes(d)) + [PilotGain, SurfaceGain] else []
  }

  function ShakerQueries(d: PollDevice): seq<Prop> {
    if Sine in d.supported then [ShakerDir, ShakerGain, ShakerPeriod] else []
  }

  function AutocenterQueries(d: PollDevice): seq<Prop> {
    if Autocenter in d.supported then [DeviceAutocenter] else []
  }

  function GainQueries(d: PollDevice): seq<Prop> {
    if Gain in d.supported then [DeviceGain] else []
  }

  lemma ConstantBlock(d: PollDevice)
    ensures BlockOf(ConstantQueries(d), 0)
  {
    if Constant in d.supported {
      var axes := AxisPairs(0, PollAxes(d));
      AxisPairsAt(0, PollAxes(d));
      var qs := ConstantQueries(d);
      forall j, k | 0 <= j < k < |qs|
        ensures qs[j] != qs[k]
      {
        if k < |axes| {
          assert qs[j] == axes[j] && qs[k] == axes[k];
        }
      }
    }
  }

  /** Two runs whose capability blocks are ordered join into one run of
      distinct properties. */
  lemma {:induction false} JoinBlocks(a: seq<Prop>, b: seq<Prop>, g: nat)
    requires Distinct(a) && Distinct(b)
    requires forall k :: 0 <= k < |a| ==> Group(a[k]) < g
    requires forall k :: 0 <= k < |b| ==> Group(b[k]) >= g
    ensures Distinct(a + b)
  {
    var ab := a + b;
    forall j, k | 0 <= j < k < |ab|
      ensures ab[j] != ab[k]
    {
      if j < |a| && |a| <= k {
        assert Group(ab[j]) < g <= Group(ab[k]);
      }
    }
  }

  /** The properties `read_fg` of haptic.c asks a device for, in the order
      it asks. */
  function PollQueries(d: PollDevice): seq<Prop> {
    ConstantQueries(d) + ShakerQueries(d) + AutocenterQueries(d) + GainQueries(d)
  }

  /** No property is asked for twice, and each names a parameter. */
  lemma PollQueriesDistinct(d: PollDevice)
    ensures Distinct(PollQueries(d))
    ensures forall k :: 0 <= k < |PollQueries(d)| ==> IsPollProp(PollQueries(d)[k])
  {
    var c := ConstantQueries(d);
    var s := ShakerQueries(d);
    var a := AutocenterQueries(d);
    var g := GainQueries(d);
    ConstantBlock(d);
    SmallBlocks(d);
    JoinBlocks(c, s, 1);
    JoinBlocks(c + s, a, 2);
    JoinBlocks(c + s + a, g, 3);
    assert PollQueries(d) == c + s + a + g;
  }

  lemma SmallBlocks(d: PollDevice)
    ensures BlockOf(ShakerQueries(d), 1) && BlockOf(AutocenterQueries(d), 2) && BlockOf(GainQueries(d), 3)
  {
  }

  /** A device is asked for exactly its `Polled` properties. */
  lemma PollQueriesPolled(d: PollDevice, q: Prop)
    ensures q in PollQueries(d) <==> Polled(d, q)
  {
    var c := ConstantQueries(d);
    var s := ShakerQueries(d);
    var a := AutocenterQueries(d);
    var g := GainQueries(d);
    ConstantPolled(d, q);
    assert q in s <==> Polled(d, q) && Group(q) == 1;
    assert q in a <==> Polled(d, q) && Group(q) == 2;
    assert q in g <==> Polled(d, q) && Group(q) == 3;
    assert Polled(d, q) ==> Group(q) <= 3;
  }

  lemma ConstantPolled(d: PollDevice, q: Prop)
    ensures q in ConstantQueries(d) <==> Polled(d, q) && Group(q) == 0
  {
    if Constant in d.supported {
      var axes := AxisPairs(0, PollAxes(d));
      AxisPairsHas(PollAxes(d), q);
      assert q in ConstantQueries(d) <==> q in axes || q == PilotGain || q == SurfaceGain;
    }
  }

  /** The axis queries are the pilot and surface forces of the axes below
      `n`. */
  lemma AxisPairsHas(n: nat, q: Prop)
    requires n <= 3
    ensures q in AxisPairs(0, n) <==> (q.PilotAxis? || q.SurfaceAxis?) && q.a < n
  {
    var axes := AxisPairs(0, n);
    AxisPairsAt(0, n);
    if q.PilotAxis? && q.a < n {
      assert axes[2 * q.a] == q;
    } else if q.SurfaceAxis? && q.a < n {
      assert axes[2 * q.a + 1] == q;
    }
    if q in axes {
      var k :| 0 <= k < |axes| && axes[k] == q;
    }
  }

  /** The parameter updates of one device, reply `k` answering query `k`:
      every polled parameter ends up with `atof` of its reply or, when the
      read gave nothing, its old value; nothing else changes, the trigger
      least of all. */
  function ReadPoll(p: PollParams, qs: seq<Prop>, rs: seq<Option<string>>, atof: string -> real): (r: PollParams)
    requires Distinct(qs) && forall k :: 0 <= k < |qs| ==> IsPollProp(qs[k])
    ensures forall k :: 0 <= k < |qs| ==>
      PollField(r, qs[k]) == if ReplyAt(rs, k).Some? then Some(atof(ReplyAt(rs, k).value)) else PollField(p, qs[k])
    ensures forall q :: q !in qs ==> PollField(r, q) == PollField(p, q)
    ensures r.shakerTrigger == p.shakerTrigger
    decreases |qs|
  {
    if qs == [] then p
    else
      var p1 := PollStore(p, qs[0], ReplyAt(rs, 0), atof);
      var r := ReadPoll(p1, qs[1..], Skip(rs, 1), atof);
      assert forall k :: 1 <= k < |qs| ==> qs[k] == qs[1..][k - 1] && ReplyAt(rs, k) == ReplyAt(Skip(rs, 1), k - 1);
      assert qs[0] !in qs[1..];
      r
  }

  /** One device's parameters read from the replies `rs` onwards. */
  function PollWindow(d: PollDevice, rs: seq<Option<string>>, atof: string -> real): PollParams {
    PollQueriesDistinct(d);
    ReadPoll(d.params, PollQueries(d), rs, atof)
  }

  /** What a pass of `read_fg` yields: every device's new parameters, the
      commands written and the number of replies read. */
  datatype PollPull = PollPull(params: seq<PollParams>, commands: seq<Command>, used: nat)

  /** The windows of the device loop from device `k` on: entry `j` is what
      `w` makes of device `k + j` and the replies left once the devices
      before it have each taken one reply per query of their list in
      `qss`. */
  function WindowsFrom<P>(devs: seq<PollDevice>, qss: seq<seq<Prop>>, k: nat, rs: seq<Option<string>>,
                          w: (PollDevice, seq<Option<string>>) -> P): (r: seq<P>)
    requires |qss| == |devs| && k <= |devs|
    ensures |r| == |devs| - k
    decreases |devs| - k
  {
    if k == |devs| then [] else [w(devs[k], rs)] + WindowsFrom(devs, qss, k + 1, Skip(rs, |qss[k]|), w)
  }

  /** The query list of every device, by device index. */
  function QueryLists(devs: seq<PollDevice>): (r: seq<seq<Prop>>)
    ensures |r| == |devs|
    ensures forall j :: 0 <= j < |devs| ==> r[j] == PollQueries(devs[j])
  {
    seq(|devs|, j requires 0 <= j < |devs| => PollQueries(devs[j]))
  }

  /** The `get` lines written for devices `k` onwards: one per query, and
      the same whatever the replies are. */
  function PollGets(devs: seq<PollDevice>, k: nat): (r: seq<Command>)
    requires k <= |devs|
    ensures |r| == PollOffset(devs, k, |devs|)
  {
    GetsFrom(QueryLists(devs), k)
  }

  /** Where the replies of device `i` start when the loop starts at device
      `k`: the number of queries of devices `k` to `i - 1`. */
  function PollOffset(devs: seq<PollDevice>, k: nat, i: nat): nat
    requires k <= i <= |devs|
  {
    OffsetOf(QueryLists(devs), k, i)
  }

  /** Device `i` is read from its own window of replies: those after the
      replies taken by the devices before it. */
  lemma {:induction false} WindowsFromAt<P>(devs: seq<PollDevice>, qss: seq<seq<Prop>>, k: nat, rs: seq<Option<string>>,
                                            w: (PollDevice, seq<Option<string>>) -> P, i: nat)
    requires |qss| == |devs| && k <= i < |devs|
    ensures WindowsFrom(devs, qss, k, rs, w)[i - k] == w(devs[i], Skip(rs, OffsetOf(qss, k, i)))
    decreases i - k
  {
    var rest := Skip(rs, |qss[k]|);
    var r := WindowsFrom(devs, qss, k, rs, w);
    var later := WindowsFrom(devs, qss, k + 1, rest, w);
    assert r == [w(devs[k], rs)] + later;
    if k == i {
      assert Skip(rs, OffsetOf(qss, k, i)) == rs;
    } else {
      WindowsFromAt(devs, qss, k + 1, rest, w, i);
      assert OffsetOf(qss, k, i) == |qss[k]| + OffsetOf(qss, k + 1, i);
      SkipSkip(rs, |qss[k]|, OffsetOf(qss, k + 1, i));
      assert r[i - k] == later[i - (k + 1)];
    }
  }

  /** `read_fg` of haptic.c: every device in turn asks for its `Polled`
      properties, all answered from the one reply stream. Device `i` reads
      the replies after those of the devices before it, and its queries
      sit at the same positions among the commands. */
  function PollReadFg(devs: seq<PollDevice>, rs: seq<Option<string>>, atof: string -> real): (r: PollPull)
    ensures |r.params| == |devs|
    ensures r.used == |r.commands| == PollOffset(devs, 0, |devs|)
    ensures forall i :: 0 <= i < |devs| ==> r.params[i] == PollWindow(devs[i], Skip(rs, PollOffset(devs, 0, i)), atof)
    ensures forall i :: 0 <= i < |devs| ==> QueriedAt(r.commands, PollOffset(devs, 0, i), i, PollQueries(devs[i]))
  {
    PollFromWindows(devs, rs, atof);
    PollFromAllQueries(devs);
    PollPull(PolledParams(devs, rs, atof), PollGets(devs, 0), PollOffset(devs, 0, |devs|))
  }

  /** The parameters `read_fg` reads for every device. */
  function PolledParams(devs: seq<PollDevice>, rs: seq<Option<string>>, atof: string -> real): (r: seq<PollParams>)
    ensures |r| == |devs|
  {
    WindowsFrom(devs, QueryLists(devs), 0, rs, (d, w) => PollWindow(d, w, atof))
  }

  lemma {:induction false} PollFromWindows(devs: seq<PollDevice>, rs: seq<Option<string>>, atof: string -> real)
    ensures forall i :: 0 <= i < |devs| ==>
              PolledParams(devs, rs, atof)[i] == PollWindow(devs[i], Skip(rs, PollOffset(devs, 0, i)), atof)
  {
    forall i | 0 <= i < |devs|
      ensures PolledParams(devs, rs, atof)[i] == PollWindow(devs[i], Skip(rs, PollOffset(devs, 0, i)), atof)
    {
      WindowsFromAt(devs, QueryLists(devs), 0, rs, (d, w) => PollWindow(d, w, atof), i);
    }
  }

  lemma {:induction false} PollFromAllQueries(devs: seq<PollDevice>)
    ensures forall i :: 0 <= i < |devs| ==> QueriedAt(PollGets(devs, 0), PollOffset(devs, 0, i), i, PollQueries(devs[i]))
  {
    forall i | 0 <= i < |devs|
      ensures QueriedAt(PollGets(devs, 0), PollOffset(devs, 0, i), i, PollQueries(devs[i]))
    {
      PollFromQueriedAt(devs, i);
    }
  }

  lemma PollFromQueriedAt(devs: seq<PollDevice>, i: nat)
    requires i < |devs|
    ensures QueriedAt(PollGets(devs, 0), PollOffset(devs, 0, i), i, PollQueries(devs[i]))
  {
    var qss := QueryLists(devs);
    GetsFromQueriedAt(qss, i);
    assert qss[i] == PollQueries(devs[i]);
  }

  /** Polling never touches the shaker trigger: haptic.c has no query for
      it, so every trigger keeps the value the enumeration gave it. */
  lemma {:induction false} TriggerNeverRead(devs: seq<PollDevice>, rs: seq<Option<string>>, atof: string -> real, i: nat)
    requires i < |devs|
    ensures PollReadFg(devs, rs, atof).params[i].shakerTrigger == devs[i].params.shakerTrigger
    ensures Get(DeviceProp(i, ShakerTrigger)) !in PollReadFg(devs, rs, atof).commands
  {
    var r := PollReadFg(devs, rs, atof);
    if Get(DeviceProp(i, ShakerTrigger)) in r.commands {
      var n :| 0 <= n < |r.commands| && r.commands[n] == Get(DeviceProp(i, ShakerTrigger));
      PollCommandAt(devs, n);
    }
  }

  /** Every command of the loop is a `get` of a polled property of one of
      the devices. */
  lemma PollCommandAt(devs: seq<PollDevice>, n: nat)
    requires n < |PollGets(devs, 0)|
    ensures var c := PollGets(devs, 0)[n];
      c.Get? && c.path.DeviceProp? && c.path.index < |devs| && Polled(devs[c.path.index], c.path.prop)
  {
    GetsFromCommand(QueryLists(devs), 0, n);
    var c := PollGets(devs, 0)[n];
    PollQueriesPolled(devs[c.path.index], c.path.prop);
  }

  /** What the announcement of `init_haptic` sets a property of an opened
      device to: its identification, and the default of every property its
      capabilities make it poll, plus the shaker trigger. */
  function Announced(d: PollDevice, q: Prop): Option<Value> {
    match q
    case Name => Some(TextV(d.name))
    case Supported => Some(CapsV(d.supported))
    case AxesCount => Some(IntV(d.axes))
    case NumEffects => Some(IntV(d.numEffects))
    case NumEffectsPlaying => Some(IntV(d.numPlaying))
    case PilotAxis(a) => if Constant in d.supported && a < PollAxes(d) then Some(IntV(0)) else None
    case SurfaceAxis(a) => if Constant in d.supported && a < PollAxes(d) then Some(IntV(0)) else None
    case PilotGain => if Constant in d.supported then Some(RealV(0.5)) else None
    case SurfaceGain => if Constant in d.supported then Some(RealV(0.5)) else None
    case ShakerDir => if Sine in d.supported then Some(IntV(90)) else None
    case ShakerPeriod => if Sine in d.supported then Some(IntV(50)) else None
    case ShakerGain => if Sine in d.supported then Some(IntV(1)) else None
    case ShakerTrigger => if Sine in d.supported then Some(IntV(0)) else None
    case DeviceGain => if Gain in d.supported then Some(IntV(1)) else None
    case DeviceAutocenter => if Autocenter in d.supported then Some(IntV(0)) else None
    case _ => None
  }

  /** The axis lines for axes `x .. min(axes, 3) - 1`: pilot and surface
      force 0. */
  function ZeroAxisLines(i: nat, d: PollDevice, x: nat): seq<Command>
    requires x <= PollAxes(d)
    decreases PollAxes(d) - x
  {
    if x == PollAxes(d) then []
    else [Put(i, PilotAxis(x), IntV(0)), Put(i, SurfaceAxis(x), IntV(0))] + ZeroAxisLines(i, d, x + 1)
  }

  function InfoLines(i: nat, d: PollDevice): seq<Command> {
    [Put(i, Name, TextV(d.name)), Put(i, Supported, CapsV(d.supported)), Put(i, AxesCount, IntV(d.axes)),
     Put(i, NumEffects, IntV(d.numEffects)), Put(i, NumEffectsPlaying, IntV(d.numPlaying))]
  }

  function ConstantLines(i: nat, d: PollDevice): seq<Command> {
    if Constant in d.supported
    then ZeroAxisLines(i, d, 0) + [Put(i, PilotGain, RealV(0.5)), Put(i, SurfaceGain, RealV(0.5))]
    else []
  }

  function ShakerLines(i: nat, d: PollDevice): seq<Command> {
    if Sine in d.supported
    then [Put(i, ShakerDir, IntV(90)), Put(i, ShakerPeriod, IntV(50)), Put(i, ShakerGain, IntV(1)),
          Put(i, ShakerTrigger, IntV(0))]
    else []
  }

  function GainLines(i: nat, d: PollDevice): seq<Command> {
    if Gain in d.supported then [Put(i, DeviceGain, IntV(1))] else []
  }

  function AutocenterLines(i: nat, d: PollDevice): seq<Command> {
    if Autocenter in d.supported then [Put(i, DeviceAutocenter, IntV(0))] else []
  }

  /** The `set` lines `init_haptic` writes for device `i`; a device SDL
      could not open is not announced. */
  function Announce(i: nat, d: PollDevice): seq<Command> {
    if !d.open then []
    else InfoLines(i, d) + ConstantLines(i, d) + ShakerLines(i, d) + GainLines(i, d) + AutocenterLines(i, d)
  }

  predicate IsInfo(q: Prop) {
    q.Name? || q.Supported? || q.AxesCount? || q.NumEffects? || q.NumEffectsPlaying?
  }

  predicate IsConstant(q: Prop) {
    q.PilotAxis? || q.SurfaceAxis? || q.PilotGain? || q.SurfaceGain?
  }

  predicate IsShaker(q: Prop) {
    q.ShakerDir? || q.ShakerPeriod? || q.ShakerGain? || q.ShakerTrigger?
  }

  /** `Announced` restricted to the properties a group of lines covers. */
  function Only(q: Path, i: nat, d: PollDevice, group: Prop -> bool): Option<Value> {
    if q.DeviceProp? && q.index == i && group(q.prop) then Announced(d, q.prop) else None
  }

  lemma {:induction false} ZeroAxisLinesSet(i: nat, d: PollDevice, x: nat, q: Path)
    requires x <= PollAxes(d)
    ensures LastSet(ZeroAxisLines(i, d, x), q) ==
      (match q
       case DeviceProp(j, PilotAxis(a)) => if j == i && x <= a < PollAxes(d) then Some(IntV(0)) else None
       case DeviceProp(j, SurfaceAxis(a)) => if j == i && x <= a < PollAxes(d) then Some(IntV(0)) else None
       case _ => None)
    decreases PollAxes(d) - x
  {
    if x < PollAxes(d) {
      var head := [Put(i, PilotAxis(x), IntV(0)), Put(i, SurfaceAxis(x), IntV(0))];
      LastSetAppend(head, ZeroAxisLines(i, d, x + 1), q);
      ZeroAxisLinesSet(i, d, x + 1, q);
      assert head == [head[0]] + [head[1]];
      LastSetAppend([head[0]], [head[1]], q);
    }
  }

  lemma InfoSets(i: nat, d: PollDevice, q: Path)
    ensures LastSet(InfoLines(i, d), q) == Only(q, i, d, IsInfo)
  {
  }

  lemma ConstantSets(i: nat, d: PollDevice, q: Path)
    ensures LastSet(ConstantLines(i, d), q) == Only(q, i, d, IsConstant)
  {
    if Constant in d.supported {
      var gains := [Put(i, PilotGain, RealV(0.5)), Put(i, SurfaceGain, RealV(0.5))];
      LastSetAppend(ZeroAxisLines(i, d, 0), gains, q);
      ZeroAxisLinesSet(i, d, 0, q);
    }
  }

  lemma ShakerSets(i: nat, d: PollDevice, q: Path)
    ensures LastSet(ShakerLines(i, d), q) == Only(q, i, d, IsShaker)
  {
  }

  /** The announcement of an opened device `i` sets exactly `Announced` for
      device `i` and nothing for any other path; a device that did not open
      sets nothing. */
  lemma AnnounceSets(i: nat, d: PollDevice, q: Path)
    ensures LastSet(Announce(i, d), q) ==
      (if d.open && q.DeviceProp? && q.index == i then Announced(d, q.prop) else None)
  {
    if d.open {
      AnnounceParts(i, d, q);
      if q.DeviceProp? && q.index == i {
        match q.prop
        case Number =>
        case Name =>
        case Supported =>
        case AxesCount =>
        case NumEffects =>
        case NumEffectsPlaying =>
        case PilotAxis(_) =>
        case StickAxis(_) =>
        case PilotGain =>
        case StickGain =>
        case ShakerDir =>
        case ShakerPeriod =>
        case ShakerGain =>
        case ShakerTrigger =>
        case DeviceGain =>
        case DeviceAutocenter =>
        case SurfaceAxis(_) =>
        case SurfaceGain =>
      }
    }
  }

  /** The last `set` of `q` in the announcement of an opened device is
      that of its last group of lines that sets `q`. */
  lemma {:induction false} AnnounceParts(i: nat, d: PollDevice, q: Path)
    requires d.open
    ensures var groups := [Only(q, i, d, IsInfo), Only(q, i, d, IsConstant), Only(q, i, d, IsShaker),
                           LastSet(GainLines(i, d), q), LastSet(AutocenterLines(i, d), q)];
      LastSet(Announce(i, d), q) ==
        if groups[4].Some? then groups[4] else if groups[3].Some? then groups[3]
        else if groups[2].Some? then groups[2] else if groups[1].Some? then groups[1] else groups[0]
  {
    var info := InfoLines(i, d);
    var cons := ConstantLines(i, d);
    var sine := ShakerLines(i, d);
    var gain := GainLines(i, d);
    var auto := AutocenterLines(i, d);
    LastSetAppend(info + cons + sine + gain, auto, q);
    LastSetAppend(info + cons + sine, gain, q);
    LastSetAppend(info + cons, sine, q);
    LastSetAppend(info, cons, q);
    InfoSets(i, d, q);
    ConstantSets(i, d, q);
    ShakerSets(i, d, q);
  }

  /** The announcements of devices `k` onwards, as `init_haptic` writes
      them. */
  function AnnounceFrom(devs: seq<PollDevice>, k: nat): seq<Command>
    requires k <= |devs|
    decreases |devs| - k
  {
    if k == |devs| then [] else Announce(k, devs[k]) + AnnounceFrom(devs, k + 1)
  }

  lemma {:induction false} AnnounceFromSets(devs: seq<PollDevice>, k: nat, q: Path)
    requires k <= |devs|
    ensures LastSet(AnnounceFrom(devs, k), q) ==
      (if q.DeviceProp? && k <= q.index < |devs| && devs[q.index].open then Announced(devs[q.index], q.prop) else None)
    decreases |devs| - k
  {
    if k < |devs| {
      LastSetAppend(Announce(k, devs[k]), AnnounceFrom(devs, k + 1), q);
      AnnounceFromSets(devs, k + 1, q);
      AnnounceSets(k, devs[k], q);
    }
  }

  /** `atof` reads back what the simulator prints for a stored number. */
  ghost predicate AtofReadsBack(show: Value -> string, atof: string -> real) {
    && (forall n: int :: atof(show(IntV(n))) == n as real)
    && (forall x: real :: atof(show(RealV(x))) == x)
  }

  /** The default `init_haptic` announces for a polled parameter. */
  function Default(q: Prop): real {
    match q
    case PilotGain => 0.5
    case SurfaceGain => 0.5
    case ShakerDir => 90.0
    case ShakerPeriod => 50.0
    case ShakerGain => 1.0
    case DeviceGain => 1.0
    case _ => 0.0
  }

  /** Every polled parameter of an opened device is announced, and its
      announced text reads back as its default. */
  lemma AnnouncedReadsBack(d: PollDevice, q: Prop, show: Value -> string, atof: string -> real)
    requires Polled(d, q) && AtofReadsBack(show, atof)
    ensures Announced(d, q).Some?
    ensures atof(show(Announced(d, q).value)) == Default(q)
  {
    match q
    case PilotGain => assert atof(show(RealV(0.5))) == 0.5;
    case SurfaceGain => assert atof(show(RealV(0.5))) == 0.5;
    case PilotAxis(_) => assert atof(show(IntV(0))) == 0 as real;
    case SurfaceAxis(_) => assert atof(show(IntV(0))) == 0 as real;
    case ShakerDir => assert atof(show(IntV(90))) == 90 as real;
    case ShakerPeriod => assert atof(show(IntV(50))) == 50 as real;
    case ShakerGain => assert atof(show(IntV(1))) == 1 as real;
    case DeviceGain => assert atof(show(IntV(1))) == 1 as real;
    case DeviceAutocenter => assert atof(show(IntV(0))) == 0 as real;
  }

  /** What a simulator that stores every `set` answers to the polls of
      devices `k` onwards. */
  function EchoPolls(devs: seq<PollDevice>, k: nat, sent: seq<Command>, show: Value -> string): seq<Option<string>>
    requires k <= |devs|
  {
    EchoLists(QueryLists(devs), k, sent, show)
  }

  /** The storing simulator's replies to the `get` lines for the query
      lists `qss[k..]`. */
  function EchoLists(qss: seq<seq<Prop>>, k: nat, sent: seq<Command>, show: Value -> string): (r: seq<Option<string>>)
    requires k <= |qss|
    ensures |r| == OffsetOf(qss, k, |qss|)
    decreases |qss| - k
  {
    if k == |qss| then [] else ConfigRoundTrip.EchoQueries(sent, show, k, qss[k]) + EchoLists(qss, k + 1, sent, show)
  }

  /** The reply to query `m` of list `i` sits at offset `m` past the
      replies to the lists before it, and echoes that query. */
  lemma {:induction false} EchoListsAt(qss: seq<seq<Prop>>, k: nat, i: nat, m: nat, sent: seq<Command>,
                                       show: Value -> string)
    requires k <= i < |qss| && m < |qss[i]|
    ensures OffsetOf(qss, k, i) + m < |EchoLists(qss, k, sent, show)|
    ensures EchoLists(qss, k, sent, show)[OffsetOf(qss, k, i) + m] == ConfigRoundTrip.Echo(sent, show, DeviceProp(i, qss[i][m]))
    decreases i - k
  {
    var head := ConfigRoundTrip.EchoQueries(sent, show, k, qss[k]);
    var rest := EchoLists(qss, k + 1, sent, show);
    assert EchoLists(qss, k, sent, show) == head + rest;
    if k < i {
      EchoListsAt(qss, k + 1, i, m, sent, show);
      var n := OffsetOf(qss, k + 1, i) + m;
      assert OffsetOf(qss, k, i) + m == |head| + n;
      assert (head + rest)[|head| + n] == rest[n];
    } else {
      assert OffsetOf(qss, k, i) == 0;
      assert (head + rest)[m] == head[m];
    }
  }

  /** Reply `m` of device `i`'s window answers its query `m`. */
  lemma EchoPollsAt(devs: seq<PollDevice>, k: nat, i: nat, m: nat, sent: seq<Command>, show: Value -> string)
    requires k <= i < |devs| && m < |PollQueries(devs[i])|
    ensures ReplyAt(Skip(EchoPolls(devs, k, sent, show), PollOffset(devs, k, i)), m) ==
              ConfigRoundTrip.Echo(sent, show, DeviceProp(i, PollQueries(devs[i])[m]))
  {
    var qss := QueryLists(devs);
    EchoListsAt(qss, k, i, m, sent, show);
    SkipAt(EchoLists(qss, k, sent, show), OffsetOf(qss, k, i), m);
  }

  lemma SkipAt(rs: seq<Option<string>>, o: nat, m: nat)
    requires o + m < |rs|
    ensures ReplyAt(Skip(rs, o), m) == rs[o + m]
  {
  }

  /** Reply `m` of an opened device's window is the text of what it
      announced for its query `m`. */
  lemma {:induction false} EchoedAnnouncement(devs: seq<PollDevice>, i: nat, m: nat, show: Value -> string)
    requires i < |devs| && devs[i].open && m < |PollQueries(devs[i])|
    ensures ReplyAt(Skip(EchoPolls(devs, 0, AnnounceFrom(devs, 0), show), PollOffset(devs, 0, i)), m) ==
              ConfigRoundTrip.Shown(Announced(devs[i], PollQueries(devs[i])[m]), show)
  {
    EchoPollsAt(devs, 0, i, m, AnnounceFrom(devs, 0), show);
    AnnounceFromSets(devs, 0, DeviceProp(i, PollQueries(devs[i])[m]));
  }

  /** One polled parameter of an announced, opened device reads back as
      its default. */
  lemma {:induction false} PolledReadsDefault(devs: seq<PollDevice>, i: nat, q: Prop, show: Value -> string, atof: string -> real)
    requires i < |devs| && devs[i].open && Polled(devs[i], q) && AtofReadsBack(show, atof)
    ensures var rs := EchoPolls(devs, 0, AnnounceFrom(devs, 0), show);
      PollField(PollWindow(devs[i], Skip(rs, PollOffset(devs, 0, i)), atof), q) == Some(Default(q))
  {
    var d := devs[i];
    var m := QueryIndex(d, q);
    EchoedAnnouncement(devs, i, m, show);
    WindowReadsDefault(d, Skip(EchoPolls(devs, 0, AnnounceFrom(devs, 0), show), PollOffset(devs, 0, i)), m, show, atof);
  }

  /** Where a polled property sits among the device's queries. */
  lemma QueryIndex(d: PollDevice, q: Prop) returns (m: nat)
    requires Polled(d, q)
    ensures m < |PollQueries(d)| && PollQueries(d)[m] == q
  {
    PollQueriesPolled(d, q);
    m :| 0 <= m < |PollQueries(d)| && PollQueries(d)[m] == q;
  }

  /** A window whose reply `m` is the announced text of query `m` reads
      that query back as its default. */
  lemma WindowReadsDefault(d: PollDevice, w: seq<Option<string>>, m: nat, show: Value -> string, atof: string -> real)
    requires m < |PollQueries(d)| && Polled(d, PollQueries(d)[m]) && AtofReadsBack(show, atof)
    requires ReplyAt(w, m) == ConfigRoundTrip.Shown(Announced(d, PollQueries(d)[m]), show)
    ensures PollField(PollWindow(d, w, atof), PollQueries(d)[m]) == Some(Default(PollQueries(d)[m]))
  {
    AnnouncedReadsBack(d, PollQueries(d)[m], show, atof);
    WindowField(d, w, m, atof);
  }

  /** A device's query `m` takes the value of reply `m` of its window. */
  lemma WindowField(d: PollDevice, w: seq<Option<string>>, m: nat, atof: string -> real)
    requires m < |PollQueries(d)|
    ensures PollField(PollWindow(d, w, atof), PollQueries(d)[m]) ==
              if ReplyAt(w, m).Some? then Some(atof(ReplyAt(w, m).value)) else PollField(d.params, PollQueries(d)[m])
  {
    PollQueriesDistinct(d);
  }

  /** Start-up of haptic.c against a simulator that stores every `set` and
      answers every `get` with it: the first `read_fg` after `init_haptic`
      reads back, for every device, exactly the defaults it announced, and
      leaves every parameter it does not poll at zero. */
  lemma {:induction false} FirstPollReadsDefaults(probes: seq<Probe>, i: nat, show: Value -> string, atof: string -> real)
    requires i < |probes| && AtofReadsBack(show, atof)
    ensures var devs := PollEnumerate(probes);
      var rs := EchoPolls(devs, 0, AnnounceFrom(devs, 0), show);
      var p := PollReadFg(devs, rs, atof).params[i];
      && (forall q :: Polled(devs[i], q) ==> PollField(p, q) == Some(Default(q)))
      && (forall q :: !Polled(devs[i], q) ==> PollField(p, q) == PollField(ZeroPollParams(), q))
      && p.shakerTrigger == 0
  {
    var devs := PollEnumerate(probes);
    var rs := EchoPolls(devs, 0, AnnounceFrom(devs, 0), show);
    var d := devs[i];
    var p := PollReadFg(devs, rs, atof).params[i];
    assert d == PollInit(i, probes[i]);
    forall q | Polled(d, q)
      ensures PollField(p, q) == Some(Default(q))
    {
      PolledReadsDefault(devs, i, q, show, atof);
    }
    forall q | !Polled(d, q)
      ensures PollField(p, q) == PollField(ZeroPollParams(), q)
    {
      PollQueriesPolled(d, q);
    }
  }
}
