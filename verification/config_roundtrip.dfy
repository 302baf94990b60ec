/** Pushing the configuration with `send_devices` and pulling it back with
    `read_devices` against a simulator that stores every `set` and answers
    every `get` with what it stores (an empty line, i.e. no reply, for a
    property never set). Printing a value and converting it back are
    parameters: `show` is the `printf` side, the `Scanner` the `sscanf`
    side. */
module ConfigRoundTrip {
  import opened Optional
  import opened Scanning
  import opened Hardware
  import opened Devices
  import opened Protocol
  import opened ConfigPush
  import opened ConfigPull

  /** Printing an `int` with `%d` or a `float` with `%f` and converting the
      text back yields the same number. (With a real `%f` this holds only to
      six decimals.) */
  ghost predicate Faithful(show: Value -> string, sc: Scanner) {
    && (forall v: int :: ScanInt(show(IntV(v)), sc) == Some(v))
    && (forall x: real :: ScanReal(show(RealV(x)), sc) == Some(x))
  }

  /** The text a stored value is answered with; nothing for no value. */
  function Shown(v: Option<Value>, show: Value -> string): Option<string> {
    match v
    case None => None
    case Some(x) => Some(show(x))
  }

  /** The storing peer's reply to `get path` after the commands `sent`. */
  function Echo(sent: seq<Command>, show: Value -> string, path: Path): Option<string> {
    Shown(LastSet(sent, path), show)
  }

  /** The commands `sent` leave the peer storing exactly the values
      `send_devices` writes for each device. */
  ghost predicate Pushed(devs: seq<Device>, sent: seq<Command>) {
    forall i: nat, p :: i < |devs| ==> LastSet(sent, DeviceProp(i, p)) == SentValue(devs[i], p)
  }

  lemma SendDevicesPushed(devs: seq<Device>)
    ensures Pushed(devs, SendDevices(devs))
  {
    forall i: nat, p | i < |devs|
      ensures LastSet(SendDevices(devs), DeviceProp(i, p)) == SentValue(devs[i], p)
    {
      SendDevicesSets(devs, DeviceProp(i, p));
    }
  }

  function EchoQueries(sent: seq<Command>, show: Value -> string, i: nat, qs: seq<Prop>): (r: seq<Option<string>>)
    ensures |r| == |qs|
    ensures forall k :: 0 <= k < |qs| ==> r[k] == Echo(sent, show, DeviceProp(i, qs[k]))
  {
    if qs == [] then [] else [Echo(sent, show, DeviceProp(i, qs[0]))] + EchoQueries(sent, show, i, qs[1..])
  }

  /** The peer's replies to the `get`s of the device loop from device `k`. */
  function EchoFrom(devs: seq<Device>, k: nat, sent: seq<Command>, show: Value -> string): seq<Option<string>>
    requires k <= |devs|
    decreases |devs| - k
  {
    if k == |devs| then []
    else EchoQueries(sent, show, k, Queries(devs[k])) + EchoFrom(devs, k + 1, sent, show)
  }

  /** The configuration fields determine the configuration. */
  lemma {:induction false} ConfigExtensional(c1: Config, c2: Config)
    requires forall p :: IsConfigProp(p) ==> ConfigField(c1, p) == ConfigField(c2, p)
    ensures c1 == c2
  {
    assert c1.pilotAxes.x == c2.pilotAxes.x by { assert ConfigField(c1, PilotAxis(0)) == ConfigField(c2, PilotAxis(0)); }
    assert c1.pilotAxes.y == c2.pilotAxes.y by { assert ConfigField(c1, PilotAxis(1)) == ConfigField(c2, PilotAxis(1)); }
    assert c1.pilotAxes.z == c2.pilotAxes.z by { assert ConfigField(c1, PilotAxis(2)) == ConfigField(c2, PilotAxis(2)); }
    assert c1.stickAxes.x == c2.stickAxes.x by { assert ConfigField(c1, StickAxis(0)) == ConfigField(c2, StickAxis(0)); }
    assert c1.stickAxes.y == c2.stickAxes.y by { assert ConfigField(c1, StickAxis(1)) == ConfigField(c2, StickAxis(1)); }
    assert c1.stickAxes.z == c2.stickAxes.z by { assert ConfigField(c1, StickAxis(2)) == ConfigField(c2, StickAxis(2)); }
    assert c1.gain == c2.gain by { assert ConfigField(c1, DeviceGain) == ConfigField(c2, DeviceGain); }
    assert c1.autocenter == c2.autocenter by { assert ConfigField(c1, DeviceAutocenter) == ConfigField(c2, DeviceAutocenter); }
    assert c1.pilotGain == c2.pilotGain by { assert ConfigField(c1, PilotGain) == ConfigField(c2, PilotGain); }
    assert c1.stickGain == c2.stickGain by { assert ConfigField(c1, StickGain) == ConfigField(c2, StickGain); }
    assert c1.shakerDir == c2.shakerDir by { assert ConfigField(c1, ShakerDir) == ConfigField(c2, ShakerDir); }
    assert c1.shakerPeriod == c2.shakerPeriod by { assert ConfigField(c1, ShakerPeriod) == ConfigField(c2, ShakerPeriod); }
    assert c1.shakerGain == c2.shakerGain by { assert ConfigField(c1, ShakerGain) == ConfigField(c2, ShakerGain); }
  }

  /** One field: the reply the storing peer gives for a pushed field
      converts back to the field's value; a field that was not pushed gets
      no reply and keeps its value. Only shaker direction and period, pushed
      as unspecified text, are exempt. */
  lemma FieldRoundTrip(d: Device, p: Prop, show: Value -> string, sc: Scanner)
    requires WellFormed(d) && Faithful(show, sc) && IsConfigProp(p)
    requires (p != ShakerDir && p != ShakerPeriod) || Sine !in d.supported
    ensures Answer(p, Shown(SentValue(d, p), show), ConfigField(d.config, p), sc) == ConfigField(d.config, p)
  {
    match p
    case PilotAxis(a) =>
      if Constant in d.supported && a < AxisCount(d) {
        var v := d.config.pilotAxes.Get(a);
        assert ScanInt(show(IntV(v)), sc) == Some(v);
      }
    case StickAxis(a) =>
      if Constant in d.supported && a < AxisCount(d) {
        var v := d.config.stickAxes.Get(a);
        assert ScanInt(show(IntV(v)), sc) == Some(v);
      }
    case DeviceGain =>
      if Gain in d.supported {
        assert ScanReal(show(RealV(d.config.gain)), sc) == Some(d.config.gain);
      }
    case DeviceAutocenter =>
      if Autocenter in d.supported {
        assert ScanReal(show(RealV(d.config.autocenter)), sc) == Some(d.config.autocenter);
      }
    case PilotGain =>
      if Constant in d.supported {
        assert ScanReal(show(RealV(d.config.pilotGain)), sc) == Some(d.config.pilotGain);
      }
    case StickGain =>
      if Constant in d.supported {
        assert ScanReal(show(RealV(d.config.stickGain)), sc) == Some(d.config.stickGain);
      }
    case ShakerGain =>
      if Sine in d.supported {
        assert ScanReal(show(RealV(d.config.shakerGain)), sc) == Some(d.config.shakerGain);
      }
    case ShakerDir =>
    case ShakerPeriod =>
  }

  /** The configuration of device `i` after its part of `read_devices`,
      served by the storing peer. */
  function Pulled(devs: seq<Device>, i: nat, sent: seq<Command>, show: Value -> string, sc: Scanner): Config
    requires i < |devs|
  {
    Window(devs[i], EchoQueries(sent, show, i, Queries(devs[i])), sc)
  }

  lemma {:induction false} PulledField(devs: seq<Device>, i: nat, sent: seq<Command>, p: Prop,
                                       show: Value -> string, sc: Scanner)
    requires i < |devs| && WellFormed(devs[i]) && Faithful(show, sc) && IsConfigProp(p)
    requires Pushed(devs, sent)
    requires (p != ShakerDir && p != ShakerPeriod) || Sine !in devs[i].supported
    ensures ConfigField(Pulled(devs, i, sent, show, sc), p) == ConfigField(devs[i].config, p)
  {
    var d := devs[i];
    var qs := Queries(d);
    var rs := EchoQueries(sent, show, i, qs);
    QueriesDistinct(d);
    if p in qs {
      var k :| 0 <= k < |qs| && qs[k] == p;
      assert ReplyAt(rs, k) == Shown(SentValue(d, p), show);
      FieldRoundTrip(d, p, show, sc);
    }
  }

  /** One device: every field read back equals the field pushed, except
      shaker direction and period of a sine-capable device, whose pushed
      text is unspecified. Fields that were not pushed get no reply and keep
      their value. */
  lemma {:induction false} DeviceRoundTrip(devs: seq<Device>, i: nat, sent: seq<Command>,
                                           show: Value -> string, sc: Scanner)
    requires i < |devs| && WellFormed(devs[i])
    requires Pushed(devs, sent) && Faithful(show, sc)
    ensures var c := Pulled(devs, i, sent, show, sc);
      && c == devs[i].config.(shakerDir := c.shakerDir, shakerPeriod := c.shakerPeriod)
      && (Sine !in devs[i].supported ==> c == devs[i].config)
  {
    var d := devs[i];
    var c := Pulled(devs, i, sent, show, sc);
    var target := d.config.(shakerDir := c.shakerDir, shakerPeriod := c.shakerPeriod);
    forall p | IsConfigProp(p)
      ensures ConfigField(c, p) == ConfigField(target, p)
    {
      if p != ShakerDir && p != ShakerPeriod {
        PulledField(devs, i, sent, p, show, sc);
      }
    }
    ConfigExtensional(c, target);
    if Sine !in d.supported {
      forall p | IsConfigProp(p)
        ensures ConfigField(c, p) == ConfigField(d.config, p)
      {
        PulledField(devs, i, sent, p, show, sc);
      }
      ConfigExtensional(c, d.config);
    }
  }

  /** A device read back is the device pushed, up to the shaker direction
      and period of a sine-capable device. */
  predicate Restored(pulled: Device, pushed: Device) {
    && pulled.config == pushed.config.(shakerDir := pulled.config.shakerDir,
                                       shakerPeriod := pulled.config.shakerPeriod)
    && (Sine !in pushed.supported ==> pulled == pushed)
  }

  /** Replies beyond the queries of one device do not affect it. */
  lemma {:induction false} ReadConfigIgnoresLater(c: Config, qs: seq<Prop>, rs: seq<Option<string>>,
                                                  more: seq<Option<string>>, sc: Scanner)
    requires Distinct(qs) && |rs| == |qs|
    requires forall k :: 0 <= k < |qs| ==> IsConfigProp(qs[k])
    ensures ReadConfig(c, qs, rs + more, sc) == ReadConfig(c, qs, rs, sc)
  {
    var c1 := ReadConfig(c, qs, rs + more, sc);
    var c2 := ReadConfig(c, qs, rs, sc);
    forall p | IsConfigProp(p)
      ensures ConfigField(c1, p) == ConfigField(c2, p)
    {
      if p in qs {
        var j :| 0 <= j < |qs| && qs[j] == p;
        assert ReplyAt(rs + more, j) == ReplyAt(rs, j);
      }
    }
    ConfigExtensional(c1, c2);
  }

  /** The echoed replies from device `k` on are as long as the queries. */
  lemma {:induction false} EchoLength(devs: seq<Device>, k: nat, sent: seq<Command>, show: Value -> string)
    requires k <= |devs|
    ensures |EchoFrom(devs, k, sent, show)| == Offset(devs, k, |devs|)
    decreases |devs| - k
  {
    if k < |devs| {
      EchoLength(devs, k + 1, sent, show);
    }
  }

  /** The window of device `i` in the echoed replies starts with the
      replies to its own queries. */
  lemma {:induction false} EchoWindow(devs: seq<Device>, k: nat, i: nat, sent: seq<Command>,
                                       show: Value -> string, tail: seq<Option<string>>)
    requires k <= i <= |devs|
    ensures Skip(EchoFrom(devs, k, sent, show) + tail, Offset(devs, k, i)) == EchoFrom(devs, i, sent, show) + tail
    decreases i - k
  {
    if k == i {
      assert Offset(devs, k, i) == 0;
      assert Skip(EchoFrom(devs, k, sent, show) + tail, 0) == EchoFrom(devs, k, sent, show) + tail;
    } else {
      var rs := EchoFrom(devs, k, sent, show) + tail;
      EchoPastDevice(devs, k, sent, show, tail);
      SkipSkip(rs, |Queries(devs[k])|, Offset(devs, k + 1, i));
      OffsetStep(devs, k, i);
      EchoWindow(devs, k + 1, i, sent, show, tail);
    }
  }

  /** Past the replies to device `k`'s queries come those of the devices after it. */
  lemma {:induction false} EchoPastDevice(devs: seq<Device>, k: nat, sent: seq<Command>, show: Value -> string, tail: seq<Option<string>>)
    requires k < |devs|
    ensures Skip(EchoFrom(devs, k, sent, show) + tail, |Queries(devs[k])|) == EchoFrom(devs, k + 1, sent, show) + tail
  {
    var mine := EchoQueries(sent, show, k, Queries(devs[k]));
    var later := EchoFrom(devs, k + 1, sent, show) + tail;
    assert EchoFrom(devs, k, sent, show) + tail == mine + later;
    assert Skip(mine + later, |mine|) == later;
  }

  /** Device `i`, read from the echoed replies, is read from the replies to
      its own queries. */
  lemma {:induction false} ReadEchoed(devs: seq<Device>, i: nat, sent: seq<Command>, show: Value -> string,
                                       sc: Scanner, tail: seq<Option<string>>)
    requires i < |devs|
    ensures ReadFrom(devs, 0, EchoFrom(devs, 0, sent, show) + tail, sc).devices[i]
         == devs[i].(config := Pulled(devs, i, sent, show, sc))
  {
    var rs := EchoFrom(devs, 0, sent, show) + tail;
    var d := devs[i];
    var mine := EchoQueries(sent, show, i, Queries(d));
    var rest := EchoFrom(devs, i + 1, sent, show) + tail;
    var w := Skip(rs, Offset(devs, 0, i));
    assert w == mine + rest by {
      EchoWindow(devs, 0, i, sent, show, tail);
    }
    assert Window(d, mine + rest, sc) == Window(d, mine, sc) by {
      QueriesDistinct(d);
      ReadConfigIgnoresLater(d.config, Queries(d), mine, rest, sc);
    }
    ReadFromWindow(devs, 0, rs, sc, i);
  }

  /** The round trip of the configuration: after `send_devices`, a
      `read_devices` served by the storing peer leaves every device as it
      was, except for the shaker direction and period of sine-capable
      devices. The opening flush throws away whatever replies were still
      waiting (`stale`) and the read that finds the socket quiet; the
      reconfigure poll reads back the 0 just written and stops after one
      `get`. */
  lemma {:induction false} PushPullRoundTrip(devs: seq<Device>, show: Value -> string, sc: Scanner, stale: seq<string>)
    requires forall i :: 0 <= i < |devs| ==> WellFormed(devs[i])
    requires Faithful(show, sc)
    ensures var echo := EchoFrom(devs, 0, SendDevices(devs), show);
      var r := ReadDevices(devs, Present(stale) + [None] + echo + [Some(show(IntV(0)))], sc);
      && r.used == |stale| + 1 + |echo| + 1
      && forall i :: 0 <= i < |devs| ==> Restored(r.devices[i], devs[i])
  {
    var sent := SendDevices(devs);
    var echo := EchoFrom(devs, 0, sent, show);
    var tail := [Some(show(IntV(0)))];
    var after := echo + tail;
    var rs := Present(stale) + [None] + echo + tail;
    assert rs == Present(stale) + [None] + after;
    FlushStale(stale, after);
    var f := |stale| + 1;
    assert Skip(rs, f) == after;
    SendDevicesPushed(devs);
    EchoLength(devs, 0, sent, show);
    SkipSkip(rs, f, |echo|);
    assert Skip(after, |echo|) == tail;
    assert !ReadsOne(Some(show(IntV(0))), sc);
    var r := ReadDevices(devs, rs, sc);
    forall i | 0 <= i < |devs|
      ensures Restored(r.devices[i], devs[i])
    {
      ReadEchoed(devs, i, sent, show, sc, tail);
      ReadFromWindow(devs, 0, after, sc, i);
      SkipSkip(rs, f, Offset(devs, 0, i));
      DeviceRoundTrip(devs, i, sent, show, sc);
    }
  }

  /** The C code crashes on this round trip as soon as a device lacks the
      gain capability: the first `get` of `read_devices` asks for a gain that
      was never set, the empty reply reads as NULL, and `sscanf` is handed
      the NULL. With a missing reply read as a failed conversion the pull
      completes and the gain keeps its value. */
  lemma {:induction false} UnsetGainCrashesPull(devs: seq<Device>, show: Value -> string, sc: Scanner)
    requires |devs| >= 1 && Gain !in devs[0].supported
    ensures var replies := [None] + EchoFrom(devs, 0, SendDevices(devs), show) + [Some(show(IntV(0)))];
      && ReadDevicesAsWritten(devs, replies, sc).None?
      && ReadDevices(devs, replies, sc).devices[0].config.gain == devs[0].config.gain
  {
    var sent := SendDevices(devs);
    var after := EchoFrom(devs, 0, sent, show) + [Some(show(IntV(0)))];
    var rs := [None] + EchoFrom(devs, 0, sent, show) + [Some(show(IntV(0)))];
    assert rs == [None] + after;
    FlushOne(after);
    assert ReadDevicesAsWritten(devs, rs, sc).None? by {
      UnsetGainUnanswered(devs, show, [Some(show(IntV(0)))]);
      OffsetStep(devs, 0, |devs|);
      assert ReplyAt(rs, 1).None?;
      assert MissingReply(rs, Flush(rs), ReadDevices(devs, rs, sc).used);
    }
    assert ReadDevices(devs, rs, sc).devices[0].config.gain == devs[0].config.gain by {
      var qs := Queries(devs[0]);
      UnsetGainUnanswered(devs, show, [Some(show(IntV(0)))]);
      assert Offset(devs, 0, 0) == 0;
      assert ReadDevices(devs, rs, sc).devices[0].config == Window(devs[0], after, sc);
      QueriesDistinct(devs[0]);
      var c := ReadConfig(devs[0].config, qs, after, sc);
      assert ConfigField(c, DeviceGain) == ConfigField(devs[0].config, DeviceGain);
    }
  }

  /** Without the gain capability, the peer has no answer to device 0's first query. */
  lemma {:induction false} UnsetGainUnanswered(devs: seq<Device>, show: Value -> string, tail: seq<Option<string>>)
    requires |devs| >= 1 && Gain !in devs[0].supported
    ensures Queries(devs[0])[0] == DeviceGain
    ensures ReplyAt(EchoFrom(devs, 0, SendDevices(devs), show) + tail, 0).None?
  {
    var sent := SendDevices(devs);
    var qs := Queries(devs[0]);
    SendDevicesSets(devs, DeviceProp(0, DeviceGain));
    assert qs[0] == DeviceGain;
    assert (EchoFrom(devs, 0, sent, show) + tail)[0] == EchoQueries(sent, show, 0, qs)[0] == None;
  }

  /** A single missing reply ahead of the rest is all the opening flush consumes. */
  lemma {:induction false} FlushOne(after: seq<Option<string>>)
    ensures Flush([None] + after) == 1
    ensures Skip([None] + after, 1) == after
  {
    assert ReplyAt([None] + after, 0).None?;
    assert ([None] + after)[1..] == after;
  }
}
