/** Device records of fg-haptic.c and their enumeration (`init_haptic`),
    including the duplicate-name suffix shared with test-haptic.c. */
module Devices {
  import opened Hardware
  import opened LineClient

  /** Size of the name buffer, not counting its terminating NUL. */
  const NAMELEN: nat := 30

  /** What SDL reports for the device at one index: it failed to open, or
      it opened with this name, capability set and counts. */
  datatype Probe =
    | Unavailable
    | Opened(name: string, caps: set<Cap>, axes: nat, numEffects: nat, numPlaying: nat)

  /** The telemetry snapshot a device acts on (`effectParams`). */
  datatype Params = Params(pilot: Triple<real>, stick: Triple<real>, shakerTrigger: int)

  /** The configuration exchanged with the simulator. Mappings are signed
      chars: an index into the telemetry axes, negative for "unused". */
  datatype Config = Config(
    autocenter: real,
    gain: real,
    shakerDir: int,
    shakerPeriod: int,
    pilotGain: real,
    stickGain: real,
    shakerGain: real,
    pilotAxes: Triple<int>,
    stickAxes: Triple<int>)

  /** One entry of the `devices` array. `levelX`/`levelY` are the levels
      held in the CONST_X and CONST_Y effect structures. */
  datatype Device = Device(
    num: int,
    open: bool,
    name: string,
    supported: set<Cap>,
    axes: nat,
    numEffects: nat,
    numPlaying: nat,
    effectIds: seq<int>,
    levelX: real,
    levelY: real,
    params: Params,
    config: Config)

  /** Nine zero effect identifiers. */
  const ZERO_IDS: seq<int> := [0, 0, 0, 0, 0, 0, 0, 0, 0]

  function ZeroParams(): Params {
    Params(Triple(0.0, 0.0, 0.0), Triple(0.0, 0.0, 0.0), 0)
  }

  function ZeroConfig(): Config {
    Config(0.0, 0.0, 0, 0, 0.0, 0.0, 0.0, Triple(0, 0, 0), Triple(0, 0, 0))
  }

  /** A device entry as the `memset` leaves it. */
  function ZeroDevice(): Device {
    Device(0, false, [], {}, 0, 0, 0, ZERO_IDS, 0.0, 0.0, ZeroParams(), ZeroConfig())
  }

  /** The shape every device entry keeps: one identifier per effect slot and
      mappings that fit a signed char. */
  predicate WellFormed(d: Device) {
    && |d.effectIds| == EFFECTS
    && (forall a :: 0 <= a < 3 ==> -128 <= d.config.pilotAxes.Get(a) <= 127)
    && (forall a :: 0 <= a < 3 ==> -128 <= d.config.stickAxes.Get(a) <= 127)
  }

  /** The number of force axes the bridge uses: `min(axes, AXES)`. */
  function AxisCount(d: Device): nat {
    if d.axes < AXES then d.axes else AXES
  }

  /** The character `'1' + i` stored in a `char`. */
  function SuffixDigit(i: nat): char {
    (('1' as int + i) % 256) as char
  }

  /** One disambiguation step: a blank and the digit appended when there is
      room (`len < NAMELEN - 2`), otherwise written over the last two
      positions of the buffer. */
  function AddSuffix(name: string, i: nat): (r: string)
    requires |name| <= NAMELEN
    ensures |r| <= NAMELEN
    ensures |r| >= 2 && r[|r| - 2] == ' ' && r[|r| - 1] == SuffixDigit(i)
    ensures |name| < NAMELEN - 2 ==> r == name + [' ', SuffixDigit(i)]
    ensures |name| >= NAMELEN - 2 ==> |r| == NAMELEN && r[..NAMELEN - 2] == name[..NAMELEN - 2]
  {
    if |name| < NAMELEN - 2 then name + [' ', SuffixDigit(i)]
    else name[..NAMELEN - 2] + [' ', SuffixDigit(i)]
  }

  function MinNat(a: nat, b: nat): nat {
    if a <= b then a else b
  }

  /** The loop over earlier devices: each earlier name equal to the
      current (possibly already suffixed) name adds the suffix of device `i`
      once more. */
  function Disambiguate(name: string, earlier: seq<string>, i: nat): (r: string)
    requires |name| <= NAMELEN
    ensures |r| <= NAMELEN
    ensures name !in earlier ==> r == name
    ensures name in earlier ==> |r| >= 2 && r[|r| - 2] == ' ' && r[|r| - 1] == SuffixDigit(i)
    ensures name[..MinNat(|name|, NAMELEN - 2)] <= r
    decreases |earlier|
  {
    if earlier == [] then name
    else
      var next := if earlier[0] == name then AddSuffix(name, i) else name;
      var r := Disambiguate(next, earlier[1..], i);
      assert name in earlier ==> name == earlier[0] || name in earlier[1..];
      SuffixKeepsStem(name, i);
      PrefixTrans(name[..MinNat(|name|, NAMELEN - 2)], next[..MinNat(|next|, NAMELEN - 2)], r);
      r
  }

  /** The first `NAMELEN - 2` characters survive a suffix. */
  lemma SuffixKeepsStem(name: string, i: nat)
    requires |name| <= NAMELEN
    ensures var r := AddSuffix(name, i);
      name[..MinNat(|name|, NAMELEN - 2)] <= r[..MinNat(|r|, NAMELEN - 2)]
  {
  }

  lemma PrefixTrans<T>(a: seq<T>, b: seq<T>, c: seq<T>)
    requires a <= b && b <= c
    ensures a <= c
  {
    assert b[..|a|] == a;
    assert c[..|a|] == b[..|a|];
  }

  /** The name `strncpy` leaves in the `NAMELEN + 1` byte buffer. */
  function CopyName(sdlName: string): (r: string)
    ensures |r| <= NAMELEN
    ensures r <= CStr(sdlName)
  {
    var s := CStr(sdlName);
    if |s| <= NAMELEN then s else s[..NAMELEN]
  }

  function DefaultMapping(axes: nat): (m: Triple<int>) {
    Triple(0, if 1 < axes then 1 else 0, if 2 < axes then 2 else 0)
  }

  /** Device `i` after the body of the `init_haptic` loop, given the names
      of the devices before it. */
  function InitDevice(i: nat, p: Probe, earlier: seq<string>): Device {
    match p
    case Unavailable => ZeroDevice().(num := i + 1)
    case Opened(sdlName, caps, axes, numEffects, numPlaying) =>
      var mapping := DefaultMapping(axes);
      ZeroDevice().(
        num := i + 1,
        open := true,
        name := Disambiguate(CopyName(sdlName), earlier, i),
        supported := caps,
        axes := axes,
        numEffects := numEffects,
        numPlaying := numPlaying,
        config := ZeroConfig().(
          autocenter := 0.0, gain := 1.0, pilotGain := 0.1, stickGain := 1.0,
          shakerGain := 1.0, shakerPeriod := 100,
          pilotAxes := mapping, stickAxes := mapping))
  }

  /** The names of the devices enumerated so far, which `init_haptic`
      compares a new name against. */
  function Names(devs: seq<Device>): (r: seq<string>)
    ensures |r| == |devs|
    ensures forall k :: 0 <= k < |devs| ==> r[k] == devs[k].name
  {
    seq(|devs|, k requires 0 <= k < |devs| => devs[k].name)
  }

  /** The names of a longer prefix extend those of the shorter one. */
  lemma NamesOfPrefix(devs: seq<Device>, i: nat)
    requires 0 < i <= |devs|
    ensures Names(devs[..i]) == Names(devs[..i - 1]) + [devs[i - 1].name]
  {
  }

  lemma PrefixesOfExtension<T>(prev: seq<T>, x: T)
    ensures forall i :: 0 <= i <= |prev| ==> (prev + [x])[..i] == prev[..i]
  {
    forall i | 0 <= i <= |prev|
      ensures (prev + [x])[..i] == prev[..i]
    {
      assert (prev + [x])[..i] == prev[..i];
    }
  }

  /** `init_haptic` of fg-haptic.c over the probe results of all devices. */
  function Enumerate(probes: seq<Probe>): (r: seq<Device>)
    ensures |r| == |probes|
    ensures forall i :: 0 <= i < |r| ==> r[i] == InitDevice(i, probes[i], Names(r[..i]))
  {
    if probes == [] then []
    else
      var prev := Enumerate(probes[..|probes| - 1]);
      var next := InitDevice(|prev|, probes[|probes| - 1], Names(prev));
      PrefixesOfExtension(prev, next);
      assert (prev + [next])[..|prev|] == prev;
      prev + [next]
  }

  /** What enumeration promises of device `i`: number `i + 1`, open
      exactly when SDL opened it, axes below `min(axes, 3)` mapped one to
      one and the rest left at 0 by the `memset` (not at -1), the default
      gains, and every effect identifier 0 until effects are created. */
  predicate Initialised(d: Device, i: nat, available: bool) {
    && WellFormed(d)
    && d.num == i + 1
    && (d.open <==> available)
    && (forall k :: 0 <= k < EFFECTS ==> d.effectIds[k] == 0)
    && d.params == ZeroParams()
    && (d.open ==> forall a :: 0 <= a < 3 ==>
          && d.config.pilotAxes.Get(a) == (if a < AxisCount(d) then a else 0)
          && d.config.stickAxes.Get(a) == (if a < AxisCount(d) then a else 0))
    && (d.open ==> d.config.gain == 1.0 && d.config.pilotGain == 0.1 && d.config.stickGain == 1.0
                   && d.config.shakerGain == 1.0 && d.config.shakerPeriod == 100
                   && d.config.autocenter == 0.0 && d.config.shakerDir == 0)
    && (!d.open ==> d == ZeroDevice().(num := i + 1))
  }

  lemma {:induction false} EnumerationFacts(probes: seq<Probe>, i: nat)
    requires i < |probes|
    ensures Initialised(Enumerate(probes)[i], i, probes[i].Opened?)
  {
    InitDeviceFacts(i, probes[i], Names(Enumerate(probes)[..i]));
  }

  /** One step of the enumeration loop initialises its device. */
  lemma InitDeviceFacts(i: nat, p: Probe, earlier: seq<string>)
    ensures Initialised(InitDevice(i, p, earlier), i, p.Opened?)
  {
    var d := InitDevice(i, p, earlier);
    if p.Opened? {
      assert d.config.pilotAxes == d.config.stickAxes == DefaultMapping(p.axes);
      assert AxisCount(d) == MinNat(p.axes, AXES);
    }
  }

  /** A device whose (truncated) name matches no earlier device keeps it;
      one that does ends in a blank and its suffix digit; either way the
      name fits in NAMELEN characters. */
  lemma {:induction false} EnumeratedNames(probes: seq<Probe>, i: nat)
    requires i < |probes| && probes[i].Opened?
    ensures var name := Enumerate(probes)[i].name;
      var base := CopyName(probes[i].name);
      && |name| <= NAMELEN
      && ((forall a :: 0 <= a < i ==> Enumerate(probes)[a].name != base) ==> name == base)
      && ((exists a :: 0 <= a < i && Enumerate(probes)[a].name == base) ==>
            |name| >= 2 && name[|name| - 2] == ' ' && name[|name| - 1] == SuffixDigit(i))
  {
    var devs := Enumerate(probes);
    var base := CopyName(probes[i].name);
    var earlier := Names(devs[..i]);
    OpenedName(i, probes[i], earlier);
    EarlierNames(devs, i, base);
    var name := Disambiguate(base, earlier, i);
    assert devs[i].name == name;
    assert base in earlier ==> |name| >= 2 && name[|name| - 2] == ' ' && name[|name| - 1] == SuffixDigit(i);
  }

  lemma OpenedName(i: nat, p: Probe, earlier: seq<string>)
    requires p.Opened?
    ensures InitDevice(i, p, earlier).name == Disambiguate(CopyName(p.name), earlier, i)
  {
  }

  lemma EarlierNames(devs: seq<Device>, i: nat, name: string)
    requires i <= |devs|
    ensures name in Names(devs[..i]) <==> exists a :: 0 <= a < i && devs[a].name == name
  {
    var earlier := Names(devs[..i]);
    if exists a :: 0 <= a < i && devs[a].name == name {
      var a :| 0 <= a < i && devs[a].name == name;
      assert earlier[a] == name;
    }
  }

  /** The suffix does not make names unique: a device literally named
      "B 3", then two named "B", end up with the first and third both
      called "B 3". */
  lemma SuffixMayCollide()
    ensures var devs := Enumerate([Opened("B 3", {}, 0, 0, 0), Opened("B", {}, 0, 0, 0),
                                   Opened("B", {}, 0, 0, 0)]);
      devs[0].name == devs[2].name == "B 3"
  {
    var probes := [Opened("B 3", {}, 0, 0, 0), Opened("B", {}, 0, 0, 0), Opened("B", {}, 0, 0, 0)];
    var devs := Enumerate(probes);
    CollidingSteps();
    FirstNames(devs);
    assert devs[0].name == Disambiguate(CopyName("B 3"), [], 0);
    assert devs[1].name == Disambiguate(CopyName("B"), [devs[0].name], 1);
    assert devs[2].name == Disambiguate(CopyName("B"), [devs[0].name, devs[1].name], 2);
  }

  /** The name steps of the colliding enumeration above. */
  lemma CollidingSteps()
    ensures CopyName("B 3") == "B 3" && CopyName("B") == "B"
    ensures Disambiguate("B 3", [], 0) == "B 3"
    ensures Disambiguate("B", ["B 3"], 1) == "B"
    ensures Disambiguate("B", ["B 3", "B"], 2) == "B 3"
  {
    CStrWithoutNul("B 3");
    CStrWithoutNul("B");
    assert SuffixDigit(2) == '3';
    assert AddSuffix("B", 2) == "B 3";
    assert ["B 3", "B"][1..] == ["B"];
  }

  /** The names before the second and third device. */
  lemma FirstNames(devs: seq<Device>)
    requires |devs| >= 2
    ensures Names(devs[..0]) == []
    ensures Names(devs[..1]) == [devs[0].name]
    ensures Names(devs[..2]) == [devs[0].name, devs[1].name]
  {
  }
}
