/** `read_devices` of fg-haptic.c: each configuration field of each device
    is asked for with `get` and overwritten only when the reply converts;
    then the reconfigure flag is cleared and polled until it no longer reads
    back as 1. Replies are the lines `fgfsread` returned, `None` standing
    for a timeout or an empty line. */
module ConfigPull {
  import opened Optional
  import opened Scanning
  import opened Hardware
  import opened Devices
  import opened Protocol
  import opened LineClient

  /** A `char` holding an `int`: the low 8 bits, read as signed. */
  function SChar(v: int): (r: int)
    ensures -128 <= r <= 127
    ensures -128 <= v <= 127 ==> r == v
  {
    ((v + 128) % 256) - 128
  }

  /** Float to integer conversion truncates toward zero. */
  function Trunc(x: real): (r: int)
    ensures x >= 0.0 ==> r as real <= x < r as real + 1.0
    ensures x < 0.0 ==> r as real - 1.0 < x <= r as real
  {
    if x >= 0.0 then x.Floor else -((-x).Floor)
  }

  /** The configuration properties (axis numbers below 3). */
  predicate IsConfigProp(p: Prop) {
    match p
    case PilotAxis(a) => a < 3
    case StickAxis(a) => a < 3
    case DeviceGain => true
    case DeviceAutocenter => true
    case PilotGain => true
    case StickGain => true
    case ShakerDir => true
    case ShakerPeriod => true
    case ShakerGain => true
    case _ => false
  }

  /** The configuration field a property names, as a value. */
  function ConfigField(c: Config, p: Prop): (r: Option<Value>)
    ensures r.Some? <==> IsConfigProp(p)
  {
    match p
    case PilotAxis(a) => if a < 3 then Some(IntV(c.pilotAxes.Get(a))) else None
    case StickAxis(a) => if a < 3 then Some(IntV(c.stickAxes.Get(a))) else None
    case DeviceGain => Some(RealV(c.gain))
    case DeviceAutocenter => Some(RealV(c.autocenter))
    case PilotGain => Some(RealV(c.pilotGain))
    case StickGain => Some(RealV(c.stickGain))
    case ShakerDir => Some(IntV(c.shakerDir))
    case ShakerPeriod => Some(IntV(c.shakerPeriod))
    case ShakerGain => Some(RealV(c.shakerGain))
    case _ => None
  }

  /** The value a reply line yields for a property: `%d` stored into a
      signed char for mappings, `%f` truncated into an unsigned short for
      shaker direction and period, `%f` for the gains. */
  function Parsed(p: Prop, text: string, sc: Scanner): (r: Option<Value>)
    ensures r.Some? ==> IsConfigProp(p)
  {
    match p
    case PilotAxis(a) =>
      if a < 3 && ScanInt(text, sc).Some? then Some(IntV(SChar(ScanInt(text, sc).value))) else None
    case StickAxis(a) =>
      if a < 3 && ScanInt(text, sc).Some? then Some(IntV(SChar(ScanInt(text, sc).value))) else None
    case ShakerDir | ShakerPeriod =>
      if ScanReal(text, sc).Some? then Some(IntV(Trunc(ScanReal(text, sc).value))) else None
    case DeviceGain | DeviceAutocenter | PilotGain | StickGain | ShakerGain =>
      if ScanReal(text, sc).Some? then Some(RealV(ScanReal(text, sc).value)) else None
    case _ => None
  }

  /** The field after a reply: the converted value, or the old one when the
      reply is missing or does not convert. */
  function Answer(p: Prop, reply: Option<string>, previous: Option<Value>, sc: Scanner): Option<Value> {
    if reply.Some? && Parsed(p, reply.value, sc).Some? then Parsed(p, reply.value, sc) else previous
  }

  /** Writes one field. */
  function Store(c: Config, p: Prop, reply: Option<string>, sc: Scanner): (r: Config)
    ensures forall q :: (ConfigField(r, q) ==
      if q == p then Answer(p, reply, ConfigField(c, p), sc) else ConfigField(c, q))
  {
    if reply.None? then c
    else match Parsed(p, reply.value, sc)
      case None => c
      case Some(v) =>
        match p
        case PilotAxis(a) => c.(pilotAxes := c.pilotAxes.With(a, v.i))
        case StickAxis(a) => c.(stickAxes := c.stickAxes.With(a, v.i))
        case DeviceGain => c.(gain := v.r)
        case DeviceAutocenter => c.(autocenter := v.r)
        case PilotGain => c.(pilotGain := v.r)
        case StickGain => c.(stickGain := v.r)
        case ShakerDir => c.(shakerDir := v.i)
        case ShakerPeriod => c.(shakerPeriod := v.i)
        case ShakerGain => c.(shakerGain := v.r)
  }

  /** The fields asked for, in the order of the C code. */
  function Queries(d: Device): (qs: seq<Prop>)
    ensures |qs| == 7 + 2 * AxisCount(d)
  {
    [DeviceGain, DeviceAutocenter] + AxisQueries(0, AxisCount(d))
    + [PilotGain, StickGain, ShakerDir, ShakerPeriod, ShakerGain]
  }

  function AxisQueries(x: nat, n: nat): (qs: seq<Prop>)
    requires x <= n <= 3
    ensures |qs| == 2 * (n - x)
    ensures forall k :: 0 <= k < |qs| ==> qs[k] == (if k % 2 == 0 then PilotAxis(x + k / 2) else StickAxis(x + k / 2))
    decreases n - x
  {
    if x == n then [] else [PilotAxis(x), StickAxis(x)] + AxisQueries(x + 1, n)
  }

  predicate Distinct<T(==)>(s: seq<T>) {
    forall j, k :: 0 <= j < k < |s| ==> s[j] != s[k]
  }

  /** Every query names a configuration field, and none twice. */
  lemma QueriesDistinct(d: Device)
    ensures Distinct(Queries(d))
    ensures forall k :: 0 <= k < |Queries(d)| ==> IsConfigProp(Queries(d)[k])
  {
    var axesQs := AxisQueries(0, AxisCount(d));
    var qs := Queries(d);
    forall j, k | 0 <= j < k < |qs|
      ensures qs[j] != qs[k]
    {
      if 2 <= j && k < 2 + |axesQs| {
        assert qs[j] == axesQs[j - 2] && qs[k] == axesQs[k - 2];
      }
    }
  }

  /** The reply at position `k`, `None` once the peer has gone quiet. */
  function ReplyAt(rs: seq<Option<string>>, k: nat): Option<string> {
    if k < |rs| then rs[k] else None
  }

  function Skip<T>(s: seq<T>, n: nat): seq<T> {
    if n <= |s| then s[n..] else []
  }

  /** The field updates for one device, reply `k` answering query `k`:
      every queried field ends up with its converted reply or its old value,
      and every other field is unchanged. */
  function ReadConfig(c: Config, qs: seq<Prop>, rs: seq<Option<string>>, sc: Scanner): (r: Config)
    requires Distinct(qs)
    ensures forall k :: 0 <= k < |qs| ==>
      ConfigField(r, qs[k]) == Answer(qs[k], ReplyAt(rs, k), ConfigField(c, qs[k]), sc)
    ensures forall p :: p !in qs ==> ConfigField(r, p) == ConfigField(c, p)
    decreases |qs|
  {
    if qs == [] then c
    else
      var c1 := Store(c, qs[0], ReplyAt(rs, 0), sc);
      var r := ReadConfig(c1, qs[1..], Skip(rs, 1), sc);
      assert forall k :: 1 <= k < |qs| ==> qs[k] == qs[1..][k - 1] && ReplyAt(rs, k) == ReplyAt(Skip(rs, 1), k - 1);
      assert qs[0] !in qs[1..];
      r
  }

  /** The reconfigure poll: `get /haptic/reconfigure` is issued again as
      long as the reply converts to 1; the count of `get`s issued. */
  function Poll(rs: seq<Option<string>>, sc: Scanner): (n: nat)
    ensures 1 <= n <= |rs| + 1
    ensures forall j :: 0 <= j < n - 1 ==> ReadsOne(ReplyAt(rs, j), sc)
    ensures !ReadsOne(ReplyAt(rs, n - 1), sc)
    decreases |rs|
  {
    if ReadsOne(ReplyAt(rs, 0), sc) then
      var n := 1 + Poll(rs[1..], sc);
      assert forall j :: 1 <= j < n ==> ReplyAt(rs, j) == ReplyAt(rs[1..], j - 1);
      n
    else 1
  }

  predicate ReadsOne(reply: Option<string>, sc: Scanner) {
    reply.Some? && ScanInt(reply.value, sc) == Some(1)
  }

  /** The outcome of a pull: the devices, the commands written, and how
      many replies were read. */
  datatype Pull = Pull(devices: seq<Device>, commands: seq<Command>, used: nat)

  function GetsFor(i: nat, qs: seq<Prop>): (r: seq<Command>)
    ensures |r| == |qs|
    ensures forall k :: 0 <= k < |qs| ==> r[k] == Get(DeviceProp(i, qs[k]))
  {
    if qs == [] then [] else [Get(DeviceProp(i, qs[0]))] + GetsFor(i, qs[1..])
  }

  /** The `get` lines for the query lists `qss[k..]`, list `j` asking about
      device `j`. */
  function GetsFrom(qss: seq<seq<Prop>>, k: nat): (r: seq<Command>)
    requires k <= |qss|
    ensures |r| == OffsetOf(qss, k, |qss|)
    decreases |qss| - k
  {
    if k == |qss| then [] else GetsFor(k, qss[k]) + GetsFrom(qss, k + 1)
  }

  /** The total length of the query lists `qss[k..i]`. */
  function OffsetOf(qss: seq<seq<Prop>>, k: nat, i: nat): nat
    requires k <= i <= |qss|
    decreases i - k
  {
    if k == i then 0 else |qss[k]| + OffsetOf(qss, k + 1, i)
  }

  /** Query `m` of list `i` is the command at offset `m` past the lists
      before it. */
  lemma {:induction false} GetsFromAt(qss: seq<seq<Prop>>, k: nat, i: nat, m: nat)
    requires k <= i < |qss| && m < |qss[i]|
    ensures OffsetOf(qss, k, i) + m < |GetsFrom(qss, k)|
    ensures GetsFrom(qss, k)[OffsetOf(qss, k, i) + m] == Get(DeviceProp(i, qss[i][m]))
    decreases i - k
  {
    var head := GetsFor(k, qss[k]);
    var rest := GetsFrom(qss, k + 1);
    assert GetsFrom(qss, k) == head + rest;
    if k < i {
      GetsFromAt(qss, k + 1, i, m);
      var n := OffsetOf(qss, k + 1, i) + m;
      assert OffsetOf(qss, k, i) + m == |head| + n;
      assert (head + rest)[|head| + n] == rest[n];
    } else {
      assert OffsetOf(qss, k, i) == 0;
      assert (head + rest)[m] == head[m];
    }
  }

  /** Every command for the lists `qss[k..]` asks about a query of the
      list of its device. */
  lemma {:induction false} GetsFromCommand(qss: seq<seq<Prop>>, k: nat, n: nat)
    requires k <= |qss| && n < |GetsFrom(qss, k)|
    ensures var c := GetsFrom(qss, k)[n];
      c.Get? && c.path.DeviceProp? && k <= c.path.index < |qss| && c.path.prop in qss[c.path.index]
    decreases |qss| - k
  {
    var head := GetsFor(k, qss[k]);
    var rest := GetsFrom(qss, k + 1);
    assert GetsFrom(qss, k) == head + rest;
    if n < |head| {
      assert (head + rest)[n] == head[n];
    } else {
      assert (head + rest)[n] == rest[n - |head|];
      GetsFromCommand(qss, k + 1, n - |head|);
    }
  }

  /** The lists before `i` take up exactly the commands before list `i`'s. */
  lemma {:induction false} GetsFromQueriedAt(qss: seq<seq<Prop>>, i: nat)
    requires i < |qss|
    ensures QueriedAt(GetsFrom(qss, 0), OffsetOf(qss, 0, i), i, qss[i])
  {
    var qs := qss[i];
    var cmds := GetsFrom(qss, 0);
    OffsetOfWithin(qss, 0, i);
    forall m | 0 <= m < |qs|
      ensures cmds[OffsetOf(qss, 0, i) + m] == Get(DeviceProp(i, qs[m]))
    {
      GetsFromAt(qss, 0, i, m);
    }
  }

  lemma {:induction false} OffsetOfWithin(qss: seq<seq<Prop>>, k: nat, i: nat)
    requires k <= i < |qss|
    ensures OffsetOf(qss, k, i) + |qss[i]| <= OffsetOf(qss, k, |qss|)
    decreases i - k
  {
    if k < i {
      OffsetOfWithin(qss, k + 1, i);
    }
  }

  /** The `get` commands of device `i`'s queries `qs` sit in `cmds` from
      position `at` on. */
  predicate QueriedAt(cmds: seq<Command>, at: nat, i: nat, qs: seq<Prop>) {
    && at + |qs| <= |cmds|
    && forall m :: 0 <= m < |qs| ==> cmds[at + m] == Get(DeviceProp(i, qs[m]))
  }

  /** The device loop from device `k` on. */
  function ReadFrom(devs: seq<Device>, k: nat, rs: seq<Option<string>>, sc: Scanner): (r: Pull)
    requires k <= |devs|
    ensures |r.devices| == |devs| - k
    decreases |devs| - k
  {
    if k == |devs| then Pull([], [], 0)
    else
      var d := devs[k];
      var qs := Queries(d);
      var rest := ReadFrom(devs, k + 1, Skip(rs, |qs|), sc);
      Pull([d.(config := Window(d, rs, sc))] + rest.devices, GetsFor(k, qs) + rest.commands, |qs| + rest.used)
  }

  /** The query list of every device, by device index. */
  function QueriesOf(devs: seq<Device>): (r: seq<seq<Prop>>)
    ensures |r| == |devs|
    ensures forall j :: 0 <= j < |devs| ==> r[j] == Queries(devs[j])
  {
    seq(|devs|, j requires 0 <= j < |devs| => Queries(devs[j]))
  }

  /** Where the replies of device `i` start when the device loop starts at
      device `k`: the number of queries of devices `k` to `i - 1`. */
  function Offset(devs: seq<Device>, k: nat, i: nat): nat
    requires k <= i <= |devs|
  {
    OffsetOf(QueriesOf(devs), k, i)
  }

  /** The replies of devices `k` to `i - 1` are those of device `k`
      followed by those of devices `k + 1` to `i - 1`. */
  lemma OffsetStep(devs: seq<Device>, k: nat, i: nat)
    requires k < i <= |devs|
    ensures Offset(devs, k, i) == |Queries(devs[k])| + Offset(devs, k + 1, i)
  {
  }

  /** The device loop writes the same `get` lines whatever the replies
      are: one per query of every device from `k` on, in device order. */
  lemma {:induction false} ReadFromCommands(devs: seq<Device>, k: nat, rs: seq<Option<string>>, sc: Scanner)
    requires k <= |devs|
    ensures ReadFrom(devs, k, rs, sc).commands == GetsFrom(QueriesOf(devs), k)
    decreases |devs| - k
  {
    if k < |devs| {
      var qs := Queries(devs[k]);
      var rest := ReadFrom(devs, k + 1, Skip(rs, |qs|), sc);
      ReadFromCommands(devs, k + 1, Skip(rs, |qs|), sc);
      assert ReadFrom(devs, k, rs, sc).commands == GetsFor(k, qs) + rest.commands;
      assert QueriesOf(devs)[k] == qs;
    }
  }

  /** The configuration of one device read from the replies `rs`. */
  function Window(d: Device, rs: seq<Option<string>>, sc: Scanner): Config {
    QueriesDistinct(d);
    ReadConfig(d.config, Queries(d), rs, sc)
  }

  lemma SkipSkip<T>(s: seq<T>, a: nat, b: nat)
    ensures Skip(Skip(s, a), b) == Skip(s, a + b)
  {
  }

  /** Device `i` is read from its own window of replies: those after the
      replies to the queries of the devices before it. */
  lemma {:induction false} ReadFromWindow(devs: seq<Device>, k: nat, rs: seq<Option<string>>, sc: Scanner, i: nat)
    requires k <= i < |devs|
    ensures ReadFrom(devs, k, rs, sc).devices[i - k] == devs[i].(config := Window(devs[i], Skip(rs, Offset(devs, k, i)), sc))
    decreases i - k
  {
    var qs := Queries(devs[k]);
    var rest := ReadFrom(devs, k + 1, Skip(rs, |qs|), sc);
    assert ReadFrom(devs, k, rs, sc).devices == [devs[k].(config := Window(devs[k], rs, sc))] + rest.devices;
    if k == i {
      assert Skip(rs, 0) == rs;
    } else {
      ReadFromWindow(devs, k + 1, Skip(rs, |qs|), sc, i);
      SkipSkip(rs, |qs|, Offset(devs, k + 1, i));
      assert Offset(devs, k, i) == |qs| + Offset(devs, k + 1, i);
      assert Skip(Skip(rs, |qs|), Offset(devs, k + 1, i)) == Skip(rs, Offset(devs, k, i));
      assert ReadFrom(devs, k, rs, sc).devices[i - k] == rest.devices[i - (k + 1)];
    }
  }

  /** Every device is read from its own window. */
  lemma ReadFromWindows(devs: seq<Device>, rs: seq<Option<string>>, sc: Scanner)
    ensures forall i :: 0 <= i < |devs| ==>
              ReadFrom(devs, 0, rs, sc).devices[i] == devs[i].(config := Window(devs[i], Skip(rs, Offset(devs, 0, i)), sc))
  {
    forall i | 0 <= i < |devs|
      ensures ReadFrom(devs, 0, rs, sc).devices[i] == devs[i].(config := Window(devs[i], Skip(rs, Offset(devs, 0, i)), sc))
    {
      ReadFromWindow(devs, 0, rs, sc, i);
    }
  }

  /** The device loop reads one reply per query of every device. */
  lemma {:induction false} ReadFromUsed(devs: seq<Device>, k: nat, rs: seq<Option<string>>, sc: Scanner)
    requires k <= |devs|
    ensures ReadFrom(devs, k, rs, sc).used == Offset(devs, k, |devs|)
    decreases |devs| - k
  {
    if k < |devs| {
      var n := |Queries(devs[k])|;
      ReadFromUsed(devs, k + 1, Skip(rs, n), sc);
      assert ReadFrom(devs, k, rs, sc).used == n + ReadFrom(devs, k + 1, Skip(rs, n), sc).used;
      assert Offset(devs, k, |devs|) == n + Offset(devs, k + 1, |devs|);
    }
  }

  /** `fgfsflush` on the reply stream: the number of replies it consumes,
      up to and including the first missing one (past the end of the
      script every read is missing, so it always stops). */
  function Flush(rs: seq<Option<string>>): (n: nat)
    ensures 1 <= n <= |rs| + 1
    ensures forall j :: 0 <= j < n - 1 ==> ReplyAt(rs, j).Some?
    ensures ReplyAt(rs, n - 1).None?
    decreases |rs|
  {
    if ReplyAt(rs, 0).None? then 1
    else
      var n := 1 + Flush(rs[1..]);
      assert forall j :: 1 <= j < n ==> ReplyAt(rs, j) == ReplyAt(rs[1..], j - 1);
      n
  }

  /** What `fgfsread` makes of each read of a script. */
  function Received(events: seq<ReadEvent>): (rs: seq<Option<string>>)
    ensures |rs| == |events|
    ensures forall j :: 0 <= j < |events| ==> rs[j] == Receive(events[j])
  {
    seq(|events|, j requires 0 <= j < |events| => Receive(events[j]))
  }

  /** The flush of the replies of a script stops where `fgfsflush` stops
      on the script itself; when every read yields data, it takes one read
      more, the one that finds the socket quiet. */
  lemma {:induction false} FlushIsDrain(events: seq<ReadEvent>)
    ensures (exists j :: 0 <= j < |events| && Receive(events[j]).None?) ==> Flush(Received(events)) == Drain(events)
    ensures (forall j :: 0 <= j < |events| ==> Receive(events[j]).Some?) ==> Flush(Received(events)) == |events| + 1
    decreases |events|
  {
    if events != [] {
      FlushIsDrain(events[1..]);
      assert Received(events)[1..] == Received(events[1..]);
      if Receive(events[0]).Some? {
        if exists j :: 0 <= j < |events| && Receive(events[j]).None? {
          var j :| 0 <= j < |events| && Receive(events[j]).None?;
          assert Receive(events[1..][j - 1]).None?;
        }
      }
    }
  }

  /** Replies that were waiting are thrown away: a flush of pending
      replies followed by a quiet socket consumes exactly those and the
      read that found the socket quiet. */
  lemma {:induction false} FlushStale(stale: seq<string>, rest: seq<Option<string>>)
    ensures Flush(Present(stale) + [None] + rest) == |stale| + 1
    decreases |stale|
  {
    var rs := Present(stale) + [None] + rest;
    if stale != [] {
      FlushStale(stale[1..], rest);
      assert rs[1..] == Present(stale[1..]) + [None] + rest;
    }
  }

  /** Replies that all arrived. */
  function Present(lines: seq<string>): (rs: seq<Option<string>>)
    ensures |rs| == |lines|
    ensures forall j :: 0 <= j < |lines| ==> rs[j] == Some(lines[j])
  {
    seq(|lines|, j requires 0 <= j < |lines| => Some(lines[j]))
  }

  /** `read_devices`, with a missing reply treated as one that does not
      convert (see `ReadDevicesAsWritten` for what the C code does). The
      telnet socket is flushed first; then device `i` is configured from
      its own window of the replies after the flush, the `get` lines of all
      devices are written whatever the replies are, and the reconfigure
      reset is followed by the poll. */
  function ReadDevices(devs: seq<Device>, rs: seq<Option<string>>, sc: Scanner): (r: Pull)
    ensures |r.devices| == |devs|
    ensures ReadInWindows(r.devices, devs, rs, Flush(rs), sc)
    ensures r.used == Flush(rs) + Offset(devs, 0, |devs|) + PollAfter(devs, rs, sc)
    ensures r.commands == GetsFrom(QueriesOf(devs), 0) + [Set(Reconfigure, IntV(0))]
                          + seq(PollAfter(devs, rs, sc), _ => Get(Reconfigure))
  {
    var f := Flush(rs);
    AfterFlush(devs, rs, sc, f);
    var body := ReadFrom(devs, 0, Skip(rs, f), sc);
    assert body.used == Offset(devs, 0, |devs|);
    var polls := PollAfter(devs, rs, sc);
    Pull(body.devices,
         body.commands + [Set(Reconfigure, IntV(0))] + seq(polls, _ => Get(Reconfigure)),
         f + body.used + polls)
  }

  /** The number of reconfigure polls of `read_devices`: the poll reads
      the replies after the flush and after those of every device. */
  function PollAfter(devs: seq<Device>, rs: seq<Option<string>>, sc: Scanner): nat {
    Poll(Skip(rs, Flush(rs) + Offset(devs, 0, |devs|)), sc)
  }

  /** Device `i` of `ds` is device `i` of `devs` with the configuration
      read from its own window: the replies after the first `from` and
      after those of the devices before it. Nothing else of it changes. */
  predicate ReadInWindows(ds: seq<Device>, devs: seq<Device>, rs: seq<Option<string>>, from: nat, sc: Scanner) {
    && |ds| == |devs|
    && forall i :: 0 <= i < |devs| ==>
         ds[i] == devs[i].(config := Window(devs[i], Skip(rs, from + Offset(devs, 0, i)), sc))
  }

  /** The device loop of `read_devices` run on the replies after the first
      `f`: each device's window, the replies used and the `get` lines. */
  lemma {:induction false} AfterFlush(devs: seq<Device>, rs: seq<Option<string>>, sc: Scanner, f: nat)
    ensures ReadInWindows(ReadFrom(devs, 0, Skip(rs, f), sc).devices, devs, rs, f, sc)
    ensures ReadFrom(devs, 0, Skip(rs, f), sc).used == Offset(devs, 0, |devs|)
    ensures ReadFrom(devs, 0, Skip(rs, f), sc).commands == GetsFrom(QueriesOf(devs), 0)
  {
    var after := Skip(rs, f);
    ReadFromWindows(devs, after, sc);
    ReadFromUsed(devs, 0, after, sc);
    ReadFromCommands(devs, 0, after, sc);
    forall i | 0 <= i < |devs|
      ensures Skip(after, Offset(devs, 0, i)) == Skip(rs, f + Offset(devs, 0, i))
    {
      SkipSkip(rs, f, Offset(devs, 0, i));
    }
  }

  /** The replies from `from` to `used` that were read and were missing. */
  predicate MissingReply(rs: seq<Option<string>>, from: nat, used: nat) {
    exists k :: from <= k < used && ReplyAt(rs, k).None?
  }

  /** What the C code does: every reply goes straight to `sscanf`, so a
      missing one hands it a NULL pointer and the run crashes (`None`).
      The missing reply that ends the opening flush is not handed to
      `sscanf`. Otherwise the outcome is that of `ReadDevices`. */
  function ReadDevicesAsWritten(devs: seq<Device>, rs: seq<Option<string>>, sc: Scanner): (r: Option<Pull>)
    ensures r.None? <==> MissingReply(rs, Flush(rs), ReadDevices(devs, rs, sc).used)
    ensures r.Some? ==> r.value == ReadDevices(devs, rs, sc)
  {
    var p := ReadDevices(devs, rs, sc);
    if MissingReply(rs, Flush(rs), p.used) then None else Some(p)
  }
}
