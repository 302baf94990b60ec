/** `read_fg` of fg-haptic.c: one line of the generic-protocol stream,
    `reconf|pilot x|pilot y|pilot z|stick x|stick y|stick z|trigger`, is
    accepted only when all eight conversions succeed; it then replaces the
    parameters of the first device and may raise the reconfigure request. */
module Telemetry {
  import opened Optional
  import opened Scanning
  import opened LineClient
  import opened Hardware
  import opened Devices

  /** The bridge state the decoder touches. */
  datatype Bridge = Bridge(devices: seq<Device>, reconfRequest: bool)

  /** One decoded telemetry line. */
  datatype Sample = Sample(reconf: int, params: Params)

  const SEPARATOR: char := '|'

  /** `sep`-separated conversions of the given kinds. */
  function Separated(ks: seq<Kind>): (fmt: seq<Directive>)
    requires |ks| >= 1
    ensures Kinds(fmt) == ks
  {
    if |ks| == 1 then [Conv(ks[0])]
    else [Conv(ks[0]), Lit(SEPARATOR)] + Separated(ks[1..])
  }

  const SAMPLE_KINDS: seq<Kind> :=
    [IntKind, RealKind, RealKind, RealKind, RealKind, RealKind, RealKind, IntKind]

  /** `"%d|%f|%f|%f|%f|%f|%f|%d"`. */
  function TelemetryFormat(): (fmt: seq<Directive>)
    ensures Kinds(fmt) == SAMPLE_KINDS
  {
    Separated(SAMPLE_KINDS)
  }

  /** The eight values of a sample, in the order of the format. */
  function Numbers(s: Sample): (r: seq<Number>)
    ensures |r| == 8
    ensures forall k :: 0 <= k < 8 ==> KindOf(r[k]) == SAMPLE_KINDS[k]
  {
    var p := s.params;
    [IntNum(s.reconf),
     RealNum(p.pilot.x), RealNum(p.pilot.y), RealNum(p.pilot.z),
     RealNum(p.stick.x), RealNum(p.stick.y), RealNum(p.stick.z),
     IntNum(p.shakerTrigger)]
  }

  /** The sample whose values are `v`. */
  function SampleOf(v: seq<Number>): (s: Sample)
    requires |v| == 8
    requires forall k :: 0 <= k < 8 ==> KindOf(v[k]) == SAMPLE_KINDS[k]
    ensures Numbers(s) == v
  {
    SampleKinds(v);
    Sample(v[0].i, Params(Triple(v[1].r, v[2].r, v[3].r), Triple(v[4].r, v[5].r, v[6].r), v[7].i))
  }

  lemma SampleKinds(v: seq<Number>)
    requires |v| == 8
    requires forall k :: 0 <= k < 8 ==> KindOf(v[k]) == SAMPLE_KINDS[k]
    ensures v[0].IntNum? && v[7].IntNum?
    ensures v[1].RealNum? && v[2].RealNum? && v[3].RealNum?
    ensures v[4].RealNum? && v[5].RealNum? && v[6].RealNum?
  {
    assert KindOf(v[0]) == SAMPLE_KINDS[0] && KindOf(v[7]) == SAMPLE_KINDS[7];
    assert KindOf(v[1]) == SAMPLE_KINDS[1] && KindOf(v[2]) == SAMPLE_KINDS[2];
    assert KindOf(v[3]) == SAMPLE_KINDS[3] && KindOf(v[4]) == SAMPLE_KINDS[4];
    assert KindOf(v[5]) == SAMPLE_KINDS[5] && KindOf(v[6]) == SAMPLE_KINDS[6];
  }

  /** The `sscanf` of `read_fg`: a sample exactly when all eight
      conversions succeed, and then the sample is made of the converted
      values. */
  function Decode(line: string, sc: Scanner): (r: Option<Sample>)
    ensures r.Some? <==> |ScanFormat(TelemetryFormat(), line, sc)| == 8
    ensures r.Some? ==> Numbers(r.value) == ScanFormat(TelemetryFormat(), line, sc)
  {
    var v := ScanFormat(TelemetryFormat(), line, sc);
    if |v| == 8 then Some(SampleOf(v)) else None
  }

  /** `read_fg`, given the outcome of the read on the generic socket: a
      whole sample replaces the first device's parameters and may raise the
      reconfigure request; anything else changes nothing. With no device
      the sample's parameters go nowhere; the C code writes them to
      `devices[0]` all the same (see `ReadFgAsWritten`). */
  function ReadFg(b: Bridge, e: ReadEvent, sc: Scanner): (r: Bridge)
    ensures |r.devices| == |b.devices|
    ensures Receive(e).None? ==> r == b
    ensures Receive(e).Some? && Decode(Receive(e).value, sc).None? ==> r == b
    ensures Receive(e).Some? && Decode(Receive(e).value, sc).Some? ==>
              var s := Decode(Receive(e).value, sc).value;
              && (|b.devices| > 0 ==> r.devices[0] == b.devices[0].(params := s.params))
              && (r.reconfRequest <==> b.reconfRequest || s.reconf == 1)
    ensures forall i :: 1 <= i < |b.devices| ==> r.devices[i] == b.devices[i]
    ensures b.reconfRequest ==> r.reconfRequest
  {
    match Receive(e)
    case None => b
    case Some(line) =>
      match Decode(line, sc)
      case None => b
      case Some(s) =>
        var devs := if |b.devices| == 0 then b.devices else b.devices[0 := b.devices[0].(params := s.params)];
        Bridge(devs, b.reconfRequest || s.reconf == 1)
  }

  /** `read_fg` as written: the `memcpy` into `devices[0]` runs whenever a
      whole sample arrives, so with no device it writes past the
      zero-length array (`None`); otherwise it is `ReadFg`. */
  function ReadFgAsWritten(b: Bridge, e: ReadEvent, sc: Scanner): (r: Option<Bridge>)
    ensures r.None? <==> |b.devices| == 0 && Receive(e).Some? && Decode(Receive(e).value, sc).Some?
    ensures r.Some? ==> r.value == ReadFg(b, e, sc)
  {
    match Receive(e)
    case None => Some(b)
    case Some(line) =>
      match Decode(line, sc)
      case None => Some(b)
      case Some(s) => if |b.devices| == 0 then None else Some(ReadFg(b, e, sc))
  }

  /** A telemetry read changes nothing but parameters. */
  lemma ReadFgOnlyParams(b: Bridge, e: ReadEvent, sc: Scanner)
    ensures var r := ReadFg(b, e, sc);
      forall i :: 0 <= i < |b.devices| ==> r.devices[i] == b.devices[i].(params := r.devices[i].params)
  {
  }

  /** What the simulator sends: the values printed one by one, separated
      by `|`. */
  function Joined(v: seq<Number>, render: Number -> string): string
    requires |v| >= 1
  {
    if |v| == 1 then render(v[0])
    else render(v[0]) + [SEPARATOR] + Joined(v[1..], render)
  }

  function Encode(s: Sample, render: Number -> string): string {
    Joined(Numbers(s), render)
  }

  /** Each printed number is read back whole by its conversion when it is
      followed by the end of the line or a separator. */
  ghost predicate ReadsBack(render: Number -> string, sc: Scanner) {
    forall n: Number, rest: string :: (rest == [] || rest[0] == SEPARATOR) ==> ConvertsBack(n, render, sc, rest)
  }

  /** `n` printed and followed by `rest` converts back to `n`, consuming
      exactly the printed text. */
  predicate ConvertsBack(n: Number, render: Number -> string, sc: Scanner, rest: string) {
    ScanOneAt(KindOf(n), render(n) + rest, sc) == Some((n, |render(n)|))
  }

  /** One printed number followed by a separator or the end converts back
      to itself, consuming exactly its text. */
  lemma ScanOneBack(n: Number, render: Number -> string, sc: Scanner, rest: string)
    requires ReadsBack(render, sc)
    requires rest == [] || rest[0] == SEPARATOR
    ensures ScanOneAt(KindOf(n), render(n) + rest, sc) == Some((n, |render(n)|))
  {
    assert ConvertsBack(n, render, sc, rest);
  }

  lemma {:induction false} ScanJoined(v: seq<Number>, ks: seq<Kind>, render: Number -> string, sc: Scanner,
                                       rest: string)
    requires |v| >= 1 && |ks| == |v|
    requires forall k :: 0 <= k < |v| ==> KindOf(v[k]) == ks[k]
    requires ReadsBack(render, sc)
    requires rest == [] || rest[0] == SEPARATOR
    ensures |ScanFormat(Separated(ks), Joined(v, render) + rest, sc)| >= |v|
    ensures ScanFormat(Separated(ks), Joined(v, render) + rest, sc)[..|v|] == v
    decreases |v|
  {
    if |v| == 1 {
      ScanLast(v[0], ks, render, sc, rest);
      assert v == [v[0]];
    } else {
      var tail := Joined(v[1..], render) + rest;
      assert Joined(v, render) + rest == render(v[0]) + ([SEPARATOR] + tail);
      ScanOneBack(v[0], render, sc, [SEPARATOR] + tail);
      ScanStep(v[0], ks, render, sc, tail);
      ScanJoined(v[1..], ks[1..], render, sc, rest);
      var later := ScanFormat(Separated(ks[1..]), tail, sc);
      assert ([v[0]] + later)[..|v|] == [v[0]] + later[..|v| - 1];
      assert v == [v[0]] + v[1..];
    }
  }

  /** The last number of a line converts back to itself alone. */
  lemma ScanLast(n: Number, ks: seq<Kind>, render: Number -> string, sc: Scanner, rest: string)
    requires |ks| == 1 && KindOf(n) == ks[0] && ReadsBack(render, sc)
    requires rest == [] || rest[0] == SEPARATOR
    ensures ScanFormat(Separated(ks), render(n) + rest, sc) == [n]
  {
    ScanOneBack(n, render, sc, rest);
    assert Drop(render(n) + rest, |render(n)|) == rest;
    assert Separated(ks) == [Conv(ks[0])];
    assert [Conv(ks[0])][1..] == [];
  }

  /** A number followed by a separator converts back to itself, and the
      scan goes on after the separator with the rest of the format. */
  lemma ScanStep(n: Number, ks: seq<Kind>, render: Number -> string, sc: Scanner, tail: string)
    requires |ks| >= 2 && KindOf(n) == ks[0]
    requires ConvertsBack(n, render, sc, [SEPARATOR] + tail)
    ensures ScanFormat(Separated(ks), render(n) + ([SEPARATOR] + tail), sc)
            == [n] + ScanFormat(Separated(ks[1..]), tail, sc)
  {
    var head := render(n);
    var input := head + ([SEPARATOR] + tail);
    assert Drop(input, |head|) == [SEPARATOR] + tail;
    ScanSeparator(ks[1..], tail, sc);
  }

  /** A separator in the format matches a separator in the input. */
  lemma ScanSeparator(ks: seq<Kind>, tail: string, sc: Scanner)
    requires |ks| >= 1
    ensures ScanFormat([Lit(SEPARATOR)] + Separated(ks), [SEPARATOR] + tail, sc) == ScanFormat(Separated(ks), tail, sc)
  {
    assert ([Lit(SEPARATOR)] + Separated(ks))[1..] == Separated(ks);
    assert ([SEPARATOR] + tail)[1..] == tail;
  }

  /** Decoding inverts encoding when the scanner reads back what was
      printed. */
  lemma DecodeEncode(s: Sample, render: Number -> string, sc: Scanner)
    requires ReadsBack(render, sc)
    ensures Decode(Encode(s, render), sc) == Some(s)
  {
    var v := Numbers(s);
    ScanJoined(v, SAMPLE_KINDS, render, sc, []);
    assert Joined(v, render) + [] == Encode(s, render);
    var got := ScanFormat(TelemetryFormat(), Encode(s, render), sc);
    assert |got| == 8;
    assert got == v;
    assert SampleOf(got) == s;
  }

  /** A telemetry line that arrives whole replaces the first device's
      parameters with the ones sent, and raises the reconfigure request
      exactly when it was raised or the line asks for it. */
  lemma TelemetryRoundTrip(b: Bridge, s: Sample, render: Number -> string, sc: Scanner, term: string)
    requires ReadsBack(render, sc)
    requires var line := Encode(s, render);
      line != [] && NUL !in line && !IsTerminator(line[|line| - 1])
    requires forall k :: 0 <= k < |term| ==> IsTerminator(term[k])
    ensures var r := ReadFg(b, Chunk(Encode(s, render) + term), sc);
      && (|b.devices| > 0 ==> r.devices == b.devices[0 := b.devices[0].(params := s.params)])
      && (r.reconfRequest <==> b.reconfRequest || s.reconf == 1)
  {
    TerminatedLineRoundTrip(Encode(s, render), term);
    DecodeEncode(s, render, sc);
  }

  /** With no device, a whole telemetry line makes the C code write past
      the device array; read as intended, it only raises the request it
      carries. */
  lemma NoDeviceLine(s: Sample, render: Number -> string, sc: Scanner, term: string)
    requires ReadsBack(render, sc)
    requires var line := Encode(s, render);
      line != [] && NUL !in line && !IsTerminator(line[|line| - 1])
    requires forall k :: 0 <= k < |term| ==> IsTerminator(term[k])
    ensures var e := Chunk(Encode(s, render) + term);
      && ReadFgAsWritten(Bridge([], false), e, sc).None?
      && ReadFg(Bridge([], false), e, sc) == Bridge([], s.reconf == 1)
  {
    TerminatedLineRoundTrip(Encode(s, render), term);
    DecodeEncode(s, render, sc);
  }
}
