/** The force composition of the control loop in fg-haptic.c: per force
    axis, the mapped stick force times the stick gain plus the mapped pilot
    force times the pilot gain, clamped to [-1, 1] and scaled to the
    constant-force level range. Arithmetic is over `real`; the
    single-precision rounding of the C code is not modelled. */
module Force {
  import opened Optional
  import opened Hardware
  import opened Devices

  /** The level of a full-scale force. */
  const FULL_SCALE: real := 32760.0

  /** The `CLAMP(x, l, h)` macro: `h` above `h`, `l` below `l`, `x`
      otherwise. */
  function Clamp(v: real, lo: real, hi: real): (r: real)
    ensures v > hi ==> r == hi
    ensures v <= hi && v < lo ==> r == lo
    ensures lo <= v <= hi ==> r == v
    ensures lo <= hi ==> lo <= r <= hi
  {
    if v > hi then hi else if v < lo then lo else v
  }

  /** A mapping names a telemetry axis when it is 0, 1 or 2. */
  predicate Indexes(mapping: int) {
    0 <= mapping <= 2
  }

  /** One mapped term: the mapped telemetry value times the gain when the
      mapping names an axis, nothing otherwise. The C code tests only for
      a negative mapping; see `ContributionAsWritten`. */
  function Contribution(mapping: int, values: Triple<real>, gain: real): (r: real)
    ensures !Indexes(mapping) ==> r == 0.0
    ensures Indexes(mapping) && gain == 1.0 ==> r == values.Get(mapping)
  {
    if Indexes(mapping) then values.Get(mapping) * gain else 0.0
  }

  /** The mapped term as the loop writes it: every mapping that is not
      negative indexes the triple, so one above 2 reads past its end,
      which has no value (`None`). */
  function ContributionAsWritten(mapping: int, values: Triple<real>, gain: real): (r: Option<real>)
    ensures r.None? <==> mapping > 2
    ensures r.Some? ==> r.value == Contribution(mapping, values, gain)
  {
    if mapping > 2 then None
    else if mapping >= 0 then Some(values.Get(mapping) * gain)
    else Some(0.0)
  }

  /** A mapping of 3, which `read_devices` stores as it is, reads past the
      telemetry triple as written, and adds nothing once such a mapping is
      ignored like a negative one. */
  lemma MappingPastTriple(values: Triple<real>, gain: real)
    ensures ContributionAsWritten(3, values, gain) == None
    ensures Contribution(3, values, gain) == 0.0
  {
  }

  /** The unclamped force of axis `a`. */
  function Raw(c: Config, p: Params, a: nat): real
    requires a < 3
  {
    Contribution(c.stickAxes.Get(a), p.stick, c.stickGain)
      + Contribution(c.pilotAxes.Get(a), p.pilot, c.pilotGain)
  }

  /** A force in telemetry units as a constant-force level. */
  function Scaled(v: real): (r: real)
    ensures -FULL_SCALE <= r <= FULL_SCALE
    ensures -1.0 <= v <= 1.0 ==> r == v * FULL_SCALE
    ensures v > 1.0 ==> r == FULL_SCALE
    ensures v < -1.0 ==> r == -FULL_SCALE
  {
    Clamp(v, -1.0, 1.0) * FULL_SCALE
  }

  /** The constant-force level of axis `a`: within the full scale (so it
      fits a `signed short` without wrapping), proportional to the raw
      force inside [-1, 1] and saturated outside it. */
  function Level(c: Config, p: Params, a: nat): (r: real)
    requires a < 3
    ensures -FULL_SCALE <= r <= FULL_SCALE
    ensures -32768.0 <= r <= 32767.0
    ensures -1.0 <= Raw(c, p, a) <= 1.0 ==> r == Raw(c, p, a) * FULL_SCALE
    ensures Raw(c, p, a) > 1.0 ==> r == FULL_SCALE
    ensures Raw(c, p, a) < -1.0 ==> r == -FULL_SCALE
  {
    Scaled(Raw(c, p, a))
  }

  /** An axis whose stick and pilot mappings name no telemetry axis,
      negative or above 2, gets no force, whatever the telemetry says. */
  lemma UnmappedAxisIsIdle(c: Config, p: Params, a: nat)
    requires a < 3
    requires !Indexes(c.stickAxes.Get(a)) && !Indexes(c.pilotAxes.Get(a))
    ensures Level(c, p, a) == 0.0
  {
  }

  /** Telemetry of all zeros, as every device but the first keeps, gives
      no force on any axis. */
  lemma ZeroTelemetryIsIdle(c: Config, a: nat)
    requires a < 3
    ensures Level(c, ZeroParams(), a) == 0.0
  {
    var m := c.stickAxes.Get(a);
    var n := c.pilotAxes.Get(a);
    assert Indexes(m) ==> ZeroParams().stick.Get(m) == 0.0;
    assert Indexes(n) ==> ZeroParams().pilot.Get(n) == 0.0;
  }

  /** Scaling preserves order: a larger force never gives a smaller
      level. */
  lemma ScaledMonotone(u: real, v: real)
    requires u <= v
    ensures Scaled(u) <= Scaled(v)
  {
  }

  /** Telemetry with every value negated. */
  function Negated(p: Params): (r: Params)
    ensures forall a :: 0 <= a < 3 ==> r.stick.Get(a) == -p.stick.Get(a) && r.pilot.Get(a) == -p.pilot.Get(a)
    ensures r.shakerTrigger == p.shakerTrigger
  {
    Params(Triple(-p.pilot.x, -p.pilot.y, -p.pilot.z), Triple(-p.stick.x, -p.stick.y, -p.stick.z), p.shakerTrigger)
  }

  /** Reversed telemetry reverses every force: composition and clamping
      are symmetric about zero. */
  lemma LevelOdd(c: Config, p: Params, a: nat)
    requires a < 3
    ensures Level(c, Negated(p), a) == -Level(c, p, a)
  {
    var m := c.stickAxes.Get(a);
    var n := c.pilotAxes.Get(a);
    assert Contribution(m, Negated(p).stick, c.stickGain) == -Contribution(m, p.stick, c.stickGain);
    assert Contribution(n, Negated(p).pilot, c.pilotGain) == -Contribution(n, p.pilot, c.pilotGain);
    assert Raw(c, Negated(p), a) == -Raw(c, p, a);
  }

  /** With a non-negative stick gain, a stronger stick force on the axis mapped
      to `a` never weakens the level of `a`. */
  lemma LevelMonotoneInStick(c: Config, p: Params, a: nat, v: real)
    requires a < 3 && c.stickGain >= 0.0
    requires Indexes(c.stickAxes.Get(a)) && v >= p.stick.Get(c.stickAxes.Get(a))
    ensures var q := p.(stick := p.stick.With(c.stickAxes.Get(a), v));
      Level(c, p, a) <= Level(c, q, a)
  {
    var m := c.stickAxes.Get(a);
    var q := p.(stick := p.stick.With(m, v));
    assert Contribution(m, p.stick, c.stickGain) <= Contribution(m, q.stick, c.stickGain) by {
      assert (v - p.stick.Get(m)) * c.stickGain >= 0.0;
    }
    assert Raw(c, p, a) <= Raw(c, q, a);
    ScaledMonotone(Raw(c, p, a), Raw(c, q, a));
  }
}
