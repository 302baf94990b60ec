/** The narrow slice of the SDL haptic API the bridge relies on: capability
    flags, effect slots, and the hardware calls it issues, recorded as a
    trace instead of being performed. */
module Hardware {

  /** The capability flags the bridge tests (`SDL_HAPTIC_*`). */
  datatype Cap = Constant | Sine | Spring | Gain | Autocenter

  /** The number of effect slots per device in fg-haptic.c and test-haptic.c. */
  const EFFECTS: nat := 9
  /** At most this many force axes are used. */
  const AXES: nat := 3

  /** Effect slot indices of fg-haptic.c and test-haptic.c. */
  const CONST_X: nat := 0
  const CONST_Y: nat := 1
  const STICK_SHAKER: nat := 2

  /** The identifier an effect slot holds when nothing is uploaded there. */
  const NO_EFFECT: int := -1

  /** The `type` an uploaded effect carries. */
  datatype EffectKind = ConstantForce | SineWave | SpringCondition

  /** One SDL call. `NewEffect` names the slot whose effect is uploaded; the
      identifier the hardware hands back is part of the bridge's state, not
      of the call. */
  datatype HwOp =
    | NewEffect(slot: nat, kind: EffectKind)
    | Update(id: int)
    | Run(id: int)
    | Destroy(id: int)
    | SetGain(percent: real)
    | SetAutocenter(percent: real)

  /** A call made on the device with the given array index. */
  datatype HwCall = HwCall(device: nat, op: HwOp)

  /** `SDL_HapticNewEffect` for the effect of slot `slot` on device `i`:
      the identifier the hardware hands back, negative on failure. */
  type Uploader = (nat, nat) -> int

  /** Three values indexed by axis 0, 1, 2 (x, y, z). */
  datatype Triple<T> = Triple(x: T, y: T, z: T) {

    function Get(a: int): T
      requires 0 <= a < 3
    {
      if a == 0 then x else if a == 1 then y else z
    }

    function With(a: int, v: T): (r: Triple<T>)
      requires 0 <= a < 3
      ensures r.Get(a) == v
      ensures forall b :: 0 <= b < 3 && b != a ==> r.Get(b) == Get(b)
    {
      if a == 0 then Triple(v, y, z) else if a == 1 then Triple(x, v, z) else Triple(x, y, v)
    }
  }

  /** `reload_effect` (fg-haptic.c and test-haptic.c): nothing for a device
      that is not open; otherwise an update of the effect in place, followed
      by a run exactly when `run` is asked for. Failures of either call are
      only printed, so they do not change the trace. */
  function Reload(device: nat, open: bool, id: int, run: bool): (r: seq<HwCall>)
    ensures !open ==> r == []
    ensures open ==> |r| == (if run then 2 else 1)
    ensures open ==> r[0] == HwCall(device, Update(id))
    ensures open && run ==> r[1] == HwCall(device, Run(id))
    ensures forall k :: 0 <= k < |r| ==> r[k].device == device
  {
    if !open then []
    else [HwCall(device, Update(id))] + (if run then [HwCall(device, Run(id))] else [])
  }

  /** The calls of a trace made on device `i`. */
  function CallsOn(calls: seq<HwCall>, i: nat): (r: seq<HwCall>)
    ensures forall c :: c in r ==> c in calls && c.device == i
  {
    if calls == [] then []
    else (if calls[0].device == i then [calls[0]] else []) + CallsOn(calls[1..], i)
  }

  /** No call of the trace made on device `i` is left out. */
  lemma {:induction false} CallsOnComplete(calls: seq<HwCall>, i: nat)
    ensures forall c :: c in calls && c.device == i ==> c in CallsOn(calls, i)
    decreases |calls|
  {
    if calls != [] {
      CallsOnComplete(calls[1..], i);
      assert forall c :: c in calls ==> c == calls[0] || c in calls[1..];
    }
  }

  lemma {:induction false} CallsOnAppend(a: seq<HwCall>, b: seq<HwCall>, i: nat)
    ensures CallsOn(a + b, i) == CallsOn(a, i) + CallsOn(b, i)
    decreases |a|
  {
    if a == [] {
      assert a + b == b;
    } else {
      assert (a + b)[1..] == a[1..] + b;
      CallsOnAppend(a[1..], b, i);
    }
  }

  lemma {:induction false} CallsOnAll(calls: seq<HwCall>, i: nat)
    requires forall c :: c in calls ==> c.device == i
    ensures CallsOn(calls, i) == calls
    decreases |calls|
  {
    if calls != [] {
      assert forall c :: c in calls[1..] ==> c in calls;
      CallsOnAll(calls[1..], i);
    }
  }

  lemma {:induction false} CallsOnOthers(calls: seq<HwCall>, i: nat)
    requires forall c :: c in calls ==> c.device != i
    ensures CallsOn(calls, i) == []
    decreases |calls|
  {
    if calls != [] {
      assert forall c :: c in calls[1..] ==> c in calls;
      CallsOnOthers(calls[1..], i);
    }
  }

  /** A trace on devices below `n` with no call on any of them is empty. */
  lemma CallsOnNone(calls: seq<HwCall>, n: nat)
    requires forall c :: c in calls ==> c.device < n
    requires forall i :: 0 <= i < n ==> CallsOn(calls, i) == []
    ensures calls == []
  {
    if calls != [] {
      CallsOnFirst(calls);
    }
  }

  /** The first call of a trace is among the calls on its device. */
  lemma CallsOnFirst(calls: seq<HwCall>)
    requires calls != []
    ensures CallsOn(calls, calls[0].device) != []
  {
    assert CallsOn(calls, calls[0].device) == [calls[0]] + CallsOn(calls[1..], calls[0].device);
  }
}
