/** The simulator's line protocol ("telnet" channel) as structured values.
    A path `DeviceProp(i, p)` stands for `/haptic/device[i]/...`:
    `Number` is `number`, `Name` is `name`, `Supported` is `supported`,
    `AxesCount` is `axes`, `NumEffects` is `num-effects`,
    `NumEffectsPlaying` is `num-effects-playing`, `PilotAxis(a)` is
    `pilot/x|y|z`, `StickAxis(a)` is `stick-force/x|y|z`, `SurfaceAxis(a)` is
    `surface-force/x|y|z`, `PilotGain` is `pilot/gain`, `StickGain` is
    `stick-force/gain`, `SurfaceGain` is `surface-force/gain`, the `Shaker*`
    properties are `stick-shaker/direction|period|gain|trigger`,
    `DeviceGain` is `gain` and `DeviceAutocenter` is `autocenter`.
    `Reconfigure` is `/haptic/reconfigure`. */
module Protocol {
  import opened Optional
  import opened Hardware

  datatype Prop =
    | Number | Name | Supported | AxesCount | NumEffects | NumEffectsPlaying
    | PilotAxis(a: nat) | StickAxis(a: nat) | SurfaceAxis(a: nat)
    | PilotGain | StickGain | SurfaceGain
    | ShakerDir | ShakerPeriod | ShakerGain | ShakerTrigger
    | DeviceGain | DeviceAutocenter

  datatype Path = Reconfigure | DeviceProp(index: nat, prop: Prop)

  /** The value of a `set` command as formatted: `%d`, `%f`, `%s`, the
      capability mask, or a `%f` handed an integer argument, whose output C
      leaves undefined. */
  datatype Value = IntV(i: int) | RealV(r: real) | TextV(s: string) | CapsV(caps: set<Cap>) | Unspecified

  /** `data`, `get <path>`, `set <path> <value>`, `quit`. */
  datatype Command = Data | Get(path: Path) | Set(path: Path, value: Value) | Quit

  /** What a peer that stores every `set` holds for `p` after `cmds`: the
      value of the last `set` of `p`, if any. */
  function LastSet(cmds: seq<Command>, p: Path): (r: Option<Value>)
    ensures r.Some? ==> Set(p, r.value) in cmds
    ensures r.None? ==> forall v :: Set(p, v) !in cmds
  {
    if cmds == [] then None
    else
      var last := cmds[|cmds| - 1];
      var prev := cmds[..|cmds| - 1];
      assert cmds == prev + [last];
      if last.Set? && last.path == p then Some(last.value) else LastSet(prev, p)
  }

  /** A later `set` of a path overrides an earlier one. */
  lemma {:induction false} LastSetAppend(a: seq<Command>, b: seq<Command>, p: Path)
    ensures LastSet(a + b, p) == (if LastSet(b, p).Some? then LastSet(b, p) else LastSet(a, p))
    decreases |b|
  {
    if b == [] {
      assert a + b == a;
    } else {
      var last := b[|b| - 1];
      var prev := b[..|b| - 1];
      assert a + b == (a + prev) + [last];
      assert (a + b)[..|a + b| - 1] == a + prev;
      LastSetAppend(a, prev, p);
    }
  }
}
