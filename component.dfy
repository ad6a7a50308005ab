/**
 * A LUXSim detector component: a placed volume that carries record levels,
 * the step records of the current event, its radioactive sources with their
 * cumulative selection ratios, and a cached volume and mass.
 */
module Component {
  import opened Wire
  import opened Format

  /** CLHEP `cm3` in the internal unit mm^3. */
  const Cm3: real := 1000.0
  /** CLHEP `g` in the internal units (MeV ns^2 / mm^2). */
  const Gram: real := 10000000000000000000000.0 / 1.602176634

  newtype PositiveReal = r: real | r > 0.0 witness 1.0

  datatype Point3 = Point3(x: real, y: real, z: real)

  const Origin: Point3 := Point3(0.0, 0.0, 0.0)

  /** The generator behind a source: its catalog name and its activity multiplier. */
  datatype SourceType = SourceType(name: Bytes, activityMultiplier: real)

  /** The `source` struct. */
  datatype Source = Source(
    kind: SourceType, activity: real, ratio: real,
    mass: int, number: int, parentIsotope: Bytes, sourceAge: real,
    particleName: Bytes, particleEnergy: real,
    pointSource: bool, posSource: Point3)

  // ---------------------------------------------------------------------------
  // Source ratios
  // ---------------------------------------------------------------------------

  /** The activity a source contributes, its decay-chain multiplier included. */
  function Weight(s: Source): real
  {
    s.activity * s.kind.activityMultiplier
  }

  function TotalWeight(ss: seq<Source>): real
  {
    if ss == [] then 0.0 else TotalWeight(ss[..|ss| - 1]) + Weight(ss[|ss| - 1])
  }

  /**
   * The sources after `CalculateRatios`: ratio `i` is the share of the total
   * activity held by sources `0..i`.  With a zero total the ratios are left
   * undivided (the source divides by zero there).
   */
  function WithRatios(ss: seq<Source>): (r: seq<Source>)
    ensures |r| == |ss|
  {
    seq(|ss|, i requires 0 <= i < |ss| => ss[i].(ratio := Share(ss, i)))
  }

  /** The share of the total activity held by sources `0..i`. */
  function Share(ss: seq<Source>, i: nat): real
    requires i < |ss|
  {
    Divided(TotalWeight(ss[..i + 1]), TotalWeight(ss))
  }

  /** `x / t`, except that a zero total leaves `x` undivided. */
  function Divided(x: real, t: real): real
  {
    if t != 0.0 then x / t else x
  }

  lemma TotalWeightPrefixMonotone(ss: seq<Source>, i: nat, j: nat)
    requires i <= j <= |ss|
    requires forall k :: 0 <= k < |ss| ==> Weight(ss[k]) >= 0.0
    ensures TotalWeight(ss[..i]) <= TotalWeight(ss[..j])
    decreases j - i
  {
    if i < j {
      TotalWeightPrefixMonotone(ss, i, j - 1);
      assert ss[..j][..j - 1] == ss[..j - 1];
    }
  }

  lemma DivideMonotone(a: real, b: real, t: real)
    requires a <= b && t > 0.0
    ensures a / t <= b / t
  {
    assert b / t - a / t == (b - a) / t;
  }

  lemma DivideSelf(t: real)
    requires t > 0.0
    ensures t / t == 1.0
  {
  }

  lemma DivideUnit(a: real, t: real)
    requires 0.0 <= a <= t && t > 0.0
    ensures 0.0 <= a / t <= 1.0
  {
    DivideMonotone(a, t, t);
    DivideMonotone(0.0, a, t);
  }

  lemma DividedSum(a: real, b: real, t: real)
    ensures Divided(a, t) + Divided(b, t) == Divided(a + b, t)
  {
    if t != 0.0 {
      assert a / t + b / t == (a + b) / t;
    }
  }

  lemma RatioIsShare(ss: seq<Source>, i: nat)
    requires i < |ss| && TotalWeight(ss) != 0.0
    ensures WithRatios(ss)[i].ratio == TotalWeight(ss[..i + 1]) / TotalWeight(ss)
  {
    assert WithRatios(ss)[i].ratio == Share(ss, i);
  }

  lemma RatioInUnit(ss: seq<Source>, i: nat)
    requires forall k :: 0 <= k < |ss| ==> Weight(ss[k]) >= 0.0
    requires i < |ss| && TotalWeight(ss) > 0.0
    ensures 0.0 <= WithRatios(ss)[i].ratio <= 1.0
  {
    RatioIsShare(ss, i);
    assert ss[..|ss|] == ss;
    assert ss[..0] == [];
    TotalWeightPrefixMonotone(ss, 0, i + 1);
    TotalWeightPrefixMonotone(ss, i + 1, |ss|);
    DivideUnit(TotalWeight(ss[..i + 1]), TotalWeight(ss));
  }

  lemma RatioMonotone(ss: seq<Source>, i: nat, j: nat)
    requires forall k :: 0 <= k < |ss| ==> Weight(ss[k]) >= 0.0
    requires i <= j < |ss| && TotalWeight(ss) > 0.0
    ensures WithRatios(ss)[i].ratio <= WithRatios(ss)[j].ratio
  {
    RatioIsShare(ss, i);
    RatioIsShare(ss, j);
    TotalWeightPrefixMonotone(ss, i + 1, j + 1);
    DivideMonotone(TotalWeight(ss[..i + 1]), TotalWeight(ss[..j + 1]), TotalWeight(ss));
  }

  /**
   * With non-negative activities and a positive total, the ratios form a
   * cumulative distribution: they lie in [0, 1], never decrease, and the
   * last one is exactly 1.
   */
  lemma {:induction false} RatiosAreCumulativeDistribution(ss: seq<Source>)
    requires forall k :: 0 <= k < |ss| ==> Weight(ss[k]) >= 0.0
    requires TotalWeight(ss) > 0.0
    ensures forall i :: 0 <= i < |ss| ==> 0.0 <= WithRatios(ss)[i].ratio <= 1.0
    ensures forall i, j :: 0 <= i <= j < |ss| ==> WithRatios(ss)[i].ratio <= WithRatios(ss)[j].ratio
    ensures |ss| > 0 ==> WithRatios(ss)[|ss| - 1].ratio == 1.0
  {
    forall i | 0 <= i < |ss|
      ensures 0.0 <= WithRatios(ss)[i].ratio <= 1.0
    {
      RatioInUnit(ss, i);
    }
    forall i, j | 0 <= i <= j < |ss|
      ensures WithRatios(ss)[i].ratio <= WithRatios(ss)[j].ratio
    {
      RatioMonotone(ss, i, j);
    }
    if |ss| > 0 {
      var last := |ss| - 1;
      RatioIsShare(ss, last);
      assert ss[..last + 1] == ss;
      DivideSelf(TotalWeight(ss));
    }
  }

  // ---------------------------------------------------------------------------
  // The volume tree and the path search of DetermineCenterAndExtent
  // ---------------------------------------------------------------------------

  /** A physical volume, identified by `placement`, with its daughters in order. */
  datatype Volume = Volume(placement: int, daughters: seq<Volume>)

  /** `p` is `v` itself or a placement somewhere below it. */
  predicate Contains(v: Volume, p: int)
    decreases v, 1
  {
    v.placement == p || RemContains(v, 0, p)
  }

  /** `p` lies in one of the daughters of `v` with index `i` or more. */
  predicate RemContains(v: Volume, i: nat, p: int)
    requires i <= |v.daughters|
    decreases v, 0, |v.daughters| - i
  {
    i < |v.daughters| && (Contains(v.daughters[i], p) || RemContains(v, i + 1, p))
  }

  function Size(v: Volume): nat
    decreases v, 1
  {
    1 + RemSize(v, 0)
  }

  /** The number of volumes in the daughters of `v` with index `i` or more. */
  function RemSize(v: Volume, i: nat): nat
    requires i <= |v.daughters|
    decreases v, 0, |v.daughters| - i
  {
    if i == |v.daughters| then 0 else Size(v.daughters[i]) + RemSize(v, i + 1)
  }

  /** `path` starts at `ref`, ends at placement `p`, and each element is a daughter of the one before. */
  predicate IsPath(ref: Volume, path: seq<Volume>, p: int)
  {
    |path| > 0 && path[0] == ref && path[|path| - 1].placement == p
    && forall k :: 0 <= k < |path| - 1 ==> path[k + 1] in path[k].daughters
  }

  lemma {:induction false} RemContainsOf(v: Volume, i: nat, j: nat, p: int)
    requires i <= j < |v.daughters| && Contains(v.daughters[j], p)
    ensures RemContains(v, i, p)
    decreases j - i
  {
    if i < j {
      RemContainsOf(v, i + 1, j, p);
    }
  }

  /** A path from `ref` to `p` exists only if `p` lies below `ref`. */
  lemma {:induction false} PathContains(ref: Volume, path: seq<Volume>, p: int)
    requires IsPath(ref, path, p)
    ensures Contains(ref, p)
    decreases |path|
  {
    if |path| > 1 {
      var rest := path[1..];
      assert IsPath(path[1], rest, p) by {
        forall k | 0 <= k < |rest| - 1
          ensures rest[k + 1] in rest[k].daughters
        {
          assert rest[k] == path[k + 1] && rest[k + 1] == path[k + 2];
        }
      }
      PathContains(path[1], rest, p);
      var j :| 0 <= j < |ref.daughters| && ref.daughters[j] == path[1];
      RemContainsOf(ref, 0, j, p);
    }
  }

  /** The search state: a stack of volumes with, for each, how many daughters have been entered. */
  predicate Frames(stack: seq<Volume>, idx: seq<int>)
  {
    |stack| == |idx| && forall k :: 0 <= k < |stack| ==> 0 <= idx[k] <= |stack[k].daughters|
  }

  /** `p` is a stacked volume or lies in a daughter not entered yet. */
  predicate Frontier(stack: seq<Volume>, idx: seq<int>, p: int)
    requires Frames(stack, idx)
  {
    exists k :: 0 <= k < |stack| && (stack[k].placement == p || RemContains(stack[k], idx[k], p))
  }

  /** Each stacked volume is the daughter most recently entered from the one below it. */
  predicate Chain(stack: seq<Volume>, idx: seq<int>)
    requires Frames(stack, idx)
  {
    forall k :: 0 <= k < |stack| - 1 ==> 0 < idx[k] && stack[k + 1] == stack[k].daughters[idx[k] - 1]
  }

  /** The termination measure of the search: twice the unexplored size of each frame, plus one per frame. */
  function Measure(stack: seq<Volume>, idx: seq<int>): nat
    requires Frames(stack, idx)
  {
    if stack == [] then 0
    else
      var n := |stack| - 1;
      Measure(stack[..n], idx[..n]) + 2 * RemSize(stack[n], idx[n]) + 1
  }

  /** Entering the next daughter of the top volume. */
  function Push(stack: seq<Volume>, idx: seq<int>): (r: (seq<Volume>, seq<int>))
    requires Frames(stack, idx) && stack != []
    requires idx[|idx| - 1] < |stack[|stack| - 1].daughters|
    ensures Frames(r.0, r.1)
  {
    var n := |stack| - 1;
    (stack + [stack[n].daughters[idx[n]]], idx[n := idx[n] + 1] + [0])
  }

  lemma MeasurePush(stack: seq<Volume>, idx: seq<int>)
    requires Frames(stack, idx) && stack != []
    requires idx[|idx| - 1] < |stack[|stack| - 1].daughters|
    ensures Measure(Push(stack, idx).0, Push(stack, idx).1) + 1 == Measure(stack, idx)
  {
    var n := |stack| - 1;
    var (s1, x1) := Push(stack, idx);
    var d := stack[n].daughters[idx[n]];
    assert s1[..n + 1] == stack && x1[..n + 1] == idx[n := idx[n] + 1];
    assert stack[..n] == stack[..n] && idx[n := idx[n] + 1][..n] == idx[..n];
    assert RemSize(d, 0) + 1 == Size(d);
  }

  lemma ChainPush(stack: seq<Volume>, idx: seq<int>)
    requires Frames(stack, idx) && stack != [] && Chain(stack, idx)
    requires idx[|idx| - 1] < |stack[|stack| - 1].daughters|
    ensures Chain(Push(stack, idx).0, Push(stack, idx).1)
    ensures Push(stack, idx).0[0] == stack[0]
  {
  }

  lemma ChainPop(stack: seq<Volume>, idx: seq<int>)
    requires Frames(stack, idx) && stack != [] && Chain(stack, idx)
    ensures Frames(stack[..|stack| - 1], idx[..|idx| - 1])
    ensures Chain(stack[..|stack| - 1], idx[..|idx| - 1])
  {
  }

  lemma MeasurePop(stack: seq<Volume>, idx: seq<int>)
    requires Frames(stack, idx) && stack != []
    requires idx[|idx| - 1] >= |stack[|stack| - 1].daughters|
    ensures Frames(stack[..|stack| - 1], idx[..|idx| - 1])
    ensures Measure(stack[..|stack| - 1], idx[..|idx| - 1]) < Measure(stack, idx)
  {
  }

  /** A chain from `ref` ending at `p` is a path. */
  lemma ChainIsPath(ref: Volume, stack: seq<Volume>, idx: seq<int>, p: int)
    requires Frames(stack, idx) && stack != [] && Chain(stack, idx)
    requires stack[0] == ref && stack[|stack| - 1].placement == p
    ensures IsPath(ref, stack, p)
  {
    forall k | 0 <= k < |stack| - 1
      ensures stack[k + 1] in stack[k].daughters
    {
      assert stack[k + 1] == stack[k].daughters[idx[k] - 1];
    }
  }

  lemma FrontierPush(stack: seq<Volume>, idx: seq<int>, p: int)
    requires Frames(stack, idx) && stack != []
    requires idx[|idx| - 1] < |stack[|stack| - 1].daughters|
    requires stack[|stack| - 1].placement != p
    requires Frontier(stack, idx, p)
    ensures Frontier(Push(stack, idx).0, Push(stack, idx).1, p)
  {
    var n := |stack| - 1;
    var (s1, x1) := Push(stack, idx);
    var top, i := stack[n], idx[n];
    var k :| 0 <= k < |stack| && (stack[k].placement == p || RemContains(stack[k], idx[k], p));
    if k < n {
      assert s1[k] == stack[k] && x1[k] == idx[k];
    } else if RemContains(top, i + 1, p) {
      assert s1[n] == top && x1[n] == i + 1;
    } else {
      assert RemContains(top, i, p);
      assert Contains(top.daughters[i], p);
      assert s1[n + 1] == top.daughters[i] && x1[n + 1] == 0;
      assert s1[n + 1].placement == p || RemContains(s1[n + 1], x1[n + 1], p);
    }
  }

  lemma FrontierPop(stack: seq<Volume>, idx: seq<int>, p: int)
    requires Frames(stack, idx) && stack != []
    requires idx[|idx| - 1] >= |stack[|stack| - 1].daughters|
    requires stack[|stack| - 1].placement != p
    requires Frontier(stack, idx, p)
    ensures Frontier(stack[..|stack| - 1], idx[..|idx| - 1], p)
  {
    var n := |stack| - 1;
    var k :| 0 <= k < |stack| && (stack[k].placement == p || RemContains(stack[k], idx[k], p));
    assert k < n;
    assert stack[..n][k] == stack[k] && idx[..n][k] == idx[k];
  }

  /**
   * The explicit-stack depth-first search of `DetermineCenterAndExtent`: the
   * physical stack grows from `ref` until its top is placement `p`.  The
   * source has no exit for an unreachable `p` (it calls `back()` on an empty
   * stack); here the search then reports `None`.
   */
  method FindPath(ref: Volume, p: int) returns (r: Option<seq<Volume>>)
    ensures r.Some? ==> IsPath(ref, r.value, p)
    ensures r.None? <==> !Contains(ref, p)
  {
    var stack := [ref];
    var idx := [0];
    while stack != [] && stack[|stack| - 1].placement != p
      invariant Frames(stack, idx) && Chain(stack, idx)
      invariant stack != [] ==> stack[0] == ref
      invariant Contains(ref, p) ==> Frontier(stack, idx, p)
      decreases Measure(stack, idx)
    {
      var n := |stack| - 1;
      if idx[n] < |stack[n].daughters| {
        MeasurePush(stack, idx);
        ChainPush(stack, idx);
        if Contains(ref, p) {
          FrontierPush(stack, idx, p);
        }
        stack, idx := Push(stack, idx).0, Push(stack, idx).1;
      } else {
        MeasurePop(stack, idx);
        ChainPop(stack, idx);
        if Contains(ref, p) {
          FrontierPop(stack, idx, p);
        }
        stack, idx := stack[..n], idx[..n];
      }
    }
    if stack == [] {
      r := None;
    } else {
      ChainIsPath(ref, stack, idx, p);
      PathContains(ref, stack, p);
      r := Some(stack);
    }
  }

  // ---------------------------------------------------------------------------
  // The three passes of CalculateRatios
  // ---------------------------------------------------------------------------

  /** The sum of the `ratio` fields. */
  function RatioSum(ss: seq<Source>): real
  {
    if ss == [] then 0.0 else RatioSum(ss[..|ss| - 1]) + ss[|ss| - 1].ratio
  }

  /** First pass: each ratio becomes the source's weight, and the weights are totalled. */
  method WeighSources(s0: seq<Source>) returns (ss: seq<Source>, total: real)
    ensures total == TotalWeight(s0)
    ensures |ss| == |s0| && forall k :: 0 <= k < |s0| ==> ss[k] == s0[k].(ratio := Weight(s0[k]))
  {
    ss := s0;
    total := 0.0;
    var i := 0;
    while i < |ss|
      invariant 0 <= i <= |ss| && |ss| == |s0|
      invariant total == TotalWeight(s0[..i])
      invariant forall k :: 0 <= k < i ==> ss[k] == s0[k].(ratio := Weight(s0[k]))
      invariant forall k :: i <= k < |ss| ==> ss[k] == s0[k]
    {
      assert s0[..i + 1][..i] == s0[..i];
      ss := ss[i := ss[i].(ratio := ss[i].activity * ss[i].kind.activityMultiplier)];
      total := total + ss[i].ratio;
      i := i + 1;
    }
    assert s0[..i] == s0;
  }

  /**
   * Second pass: each ratio is divided by the total.  The source divides
   * unconditionally, so a zero total yields NaN or infinite ratios; the
   * model then leaves them undivided.
   */
  method DivideRatios(w: seq<Source>, total: real) returns (ss: seq<Source>)
    ensures |ss| == |w| && forall k :: 0 <= k < |w| ==> ss[k] == w[k].(ratio := Divided(w[k].ratio, total))
  {
    ss := w;
    var i := 0;
    while i < |ss|
      invariant 0 <= i <= |ss| && |ss| == |w|
      invariant forall k :: 0 <= k < i ==> ss[k] == w[k].(ratio := Divided(w[k].ratio, total))
      invariant forall k :: i <= k < |ss| ==> ss[k] == w[k]
    {
      if total != 0.0 {
        ss := ss[i := ss[i].(ratio := ss[i].ratio / total)];
      }
      i := i + 1;
    }
  }

  /** Third pass: each ratio becomes the running sum of the ratios up to it. */
  method AccumulateRatios(d: seq<Source>) returns (ss: seq<Source>)
    ensures |ss| == |d| && forall k :: 0 <= k < |d| ==> ss[k] == d[k].(ratio := RatioSum(d[..k + 1]))
  {
    ss := d;
    if |d| > 0 {
      assert d[..1][..0] == [];
      assert d[0] == d[0].(ratio := RatioSum(d[..1]));
    }
    var i := 1;
    while i < |ss|
      invariant 1 <= i && (i <= |ss| || |ss| == 0) && |ss| == |d|
      invariant forall k :: 0 <= k < i && k < |d| ==> ss[k] == d[k].(ratio := RatioSum(d[..k + 1]))
      invariant forall k :: i <= k < |ss| ==> ss[k] == d[k]
    {
      assert d[..i + 1][..i] == d[..i];
      ss := ss[i := ss[i].(ratio := ss[i].ratio + ss[i - 1].ratio)];
      i := i + 1;
    }
  }

  /** The running sums of the divided weights are the cumulative shares. */
  lemma {:induction false} CumulativeShares(s0: seq<Source>, d: seq<Source>, total: real, k: nat)
    requires total == TotalWeight(s0) && k < |s0| && |d| == |s0|
    requires forall j :: 0 <= j < |s0| ==> d[j].ratio == Divided(Weight(s0[j]), total)
    ensures RatioSum(d[..k + 1]) == Divided(TotalWeight(s0[..k + 1]), total)
  {
    assert d[..k + 1][..k] == d[..k];
    assert s0[..k + 1][..k] == s0[..k];
    if k == 0 {
      assert d[..0] == [] && s0[..0] == [];
    } else {
      CumulativeShares(s0, d, total, k - 1);
    }
    DividedSum(TotalWeight(s0[..k]), Weight(s0[k]), total);
  }

  /** Double to `int` conversion in C++: truncation toward zero. */
  function Trunc(x: real): (r: int)
    ensures x >= 0.0 ==> r as real <= x < r as real + 1.0
    ensures x < 0.0 ==> r as real - 1.0 < x <= r as real
  {
    if x >= 0.0 then x.Floor else -((-x).Floor)
  }

  // ---------------------------------------------------------------------------
  // The component
  // ---------------------------------------------------------------------------

  /** The three record levels a component carries. */
  datatype LevelKind = Deposits | OpticalPhotons | ThermalElectrons

  /** Everything about a component that its methods change. */
  datatype State = State(
    recordLevel: int, recordLevelOptPhot: int, recordLevelThermElec: int,
    eventRecord: seq<Step>, compId: int, sources: seq<Source>, totalActivity: real,
    capturePhotons: bool, globalCenter: Point3, volume: real, mass: real, volumePrecision: int)

  /** The level of one kind. */
  function LevelIn(s: State, kind: LevelKind): int
  {
    match kind
    case Deposits => s.recordLevel
    case OpticalPhotons => s.recordLevelOptPhot
    case ThermalElectrons => s.recordLevelThermElec
  }

  /** The state with the level of one kind set. */
  function WithLevel(s: State, kind: LevelKind, level: int): (r: State)
    ensures LevelIn(r, kind) == level
    ensures forall k :: k != kind ==> LevelIn(r, k) == LevelIn(s, k)
  {
    match kind
    case Deposits => s.(recordLevel := level)
    case OpticalPhotons => s.(recordLevelOptPhot := level)
    case ThermalElectrons => s.(recordLevelThermElec := level)
  }

  /** The state after `GetMass`: a known mass is kept, otherwise it follows from the (possibly sampled) volume. */
  function MassKnown(s: State, density: real, sampled: real): State
  {
    if s.mass >= 0.0 then s
    else
      var v := if s.volume < 0.0 then sampled else s.volume;
      s.(volume := v, mass := v / Cm3 * density)
  }

  /** The state after `SetMass(m)`. */
  function MassSet(s: State, m: real, density: real): State
    requires density > 0.0
  {
    s.(mass := m / Gram, volume := m / Gram * Gram / density)
  }

  /** The state after `SetVolume(v)`: the mass follows only while it is unknown. */
  function VolumeSet(s: State, v: real, density: real, sampled: real): State
  {
    if s.mass >= 0.0 then s.(volume := v / Cm3)
    else
      var w := if v / Cm3 < 0.0 then sampled else v / Cm3;
      s.(volume := w, mass := w / Cm3 * density)
  }

  /** Setting a level twice is setting it once. */
  lemma WithLevelTwice(s: State, kind: LevelKind, level: int)
    ensures WithLevel(WithLevel(s, kind, level), kind, level) == WithLevel(s, kind, level)
  {
  }

  class DetectorComponent {
    const name: Bytes
    /** The placement in the volume tree that this component is. */
    const placement: int
    /** The density of the component's material in g/cm3. */
    const density: PositiveReal

    var recordLevel: int
    var recordLevelOptPhot: int
    var recordLevelThermElec: int
    var eventRecord: seq<Step>
    var compId: int
    var sources: seq<Source>
    var totalActivity: real
    var capturePhotons: bool
    var globalCenter: Point3
    var volume: real
    var mass: real
    var volumePrecision: int

    function Snapshot(): State
      reads this
    {
      State(recordLevel, recordLevelOptPhot, recordLevelThermElec, eventRecord, compId, sources, totalActivity,
            capturePhotons, globalCenter, volume, mass, volumePrecision)
    }

    function Level(kind: LevelKind): int
      reads this
    {
      LevelIn(Snapshot(), kind)
    }

    /** Every constructor ends in `Initialize()`. */
    constructor (name: Bytes, placement: int, density: PositiveReal)
      ensures this.name == name && this.placement == placement && this.density == density
      ensures recordLevel == 0 && recordLevelOptPhot == 0 && recordLevelThermElec == 0
      ensures eventRecord == [] && sources == [] && !capturePhotons && globalCenter == Origin
      ensures volume == -1.0 && mass == -1.0 && volumePrecision == 100000000
    {
      this.name := name;
      this.placement := placement;
      this.density := density;
      recordLevel, recordLevelOptPhot, recordLevelThermElec := 0, 0, 0;
      eventRecord, sources := [], [];
      capturePhotons := false;
      globalCenter := Origin;
      volume, mass := -1.0, -1.0;
      volumePrecision := 100000000;
    }

    /**
     * Resets the bookkeeping; the registration with the manager that the
     * source performs here is `Manager.InitializeComponent`.
     */
    method Initialize()
      modifies this
      ensures recordLevel == 0 && recordLevelOptPhot == 0 && recordLevelThermElec == 0
      ensures eventRecord == [] && sources == [] && !capturePhotons && globalCenter == Origin
      ensures volume == -1.0 && mass == -1.0 && volumePrecision == 100000000
      ensures compId == old(compId) && totalActivity == old(totalActivity)
    {
      eventRecord := [];
      sources := [];
      capturePhotons := false;
      globalCenter := Origin;
      recordLevel, recordLevelOptPhot, recordLevelThermElec := 0, 0, 0;
      volume, mass := -1.0, -1.0;
      volumePrecision := 100000000;
    }

    method SetRecordLevel(level: int)
      modifies this`recordLevel
      ensures recordLevel == level
    {
      recordLevel := level;
    }

    method SetRecordLevelOptPhot(level: int)
      modifies this`recordLevelOptPhot
      ensures recordLevelOptPhot == level
    {
      recordLevelOptPhot := level;
    }

    method SetRecordLevelThermElec(level: int)
      modifies this`recordLevelThermElec
      ensures recordLevelThermElec == level
    {
      recordLevelThermElec := level;
    }

    /** The setter of one kind of level. */
    method SetLevel(kind: LevelKind, level: int)
      modifies this`recordLevel, this`recordLevelOptPhot, this`recordLevelThermElec
      ensures Snapshot() == WithLevel(old(Snapshot()), kind, level)
    {
      match kind
      case Deposits => SetRecordLevel(level);
      case OpticalPhotons => SetRecordLevelOptPhot(level);
      case ThermalElectrons => SetRecordLevelThermElec(level);
    }

    method AddDeposition(s: Step)
      modifies this`eventRecord
      ensures eventRecord == old(eventRecord) + [s]
      ensures Snapshot() == old(Snapshot()).(eventRecord := eventRecord)
    {
      eventRecord := eventRecord + [s];
    }

    method ClearRecord()
      modifies this`eventRecord
      ensures eventRecord == []
      ensures Snapshot() == old(Snapshot()).(eventRecord := [])
    {
      eventRecord := [];
    }

    method SetId(id: int)
      modifies this`compId
      ensures compId == id
    {
      compId := id;
    }

    method AddSource(kind: SourceType, activity: real, mass: int, number: int, parentIsotope: Bytes,
                     sourceAge: real, particleName: Bytes, particleEnergy: real,
                     pointSource: bool, posSource: Point3)
      modifies this`sources
      ensures sources == old(sources) + [Source(kind, activity, 0.0, mass, number, parentIsotope, sourceAge,
                                                particleName, particleEnergy, pointSource, posSource)]
      ensures Snapshot() == old(Snapshot()).(sources := sources)
    {
      sources := sources + [Source(kind, activity, 0.0, mass, number, parentIsotope, sourceAge,
                                   particleName, particleEnergy, pointSource, posSource)];
    }

    method ResetSources()
      modifies this`sources, this`totalActivity
      ensures sources == [] && totalActivity == 0.0
      ensures Snapshot() == old(Snapshot()).(sources := [], totalActivity := 0.0)
    {
      sources := [];
      totalActivity := 0.0;
    }

    /** Three passes: weights and their total, division by the total, then running sums. */
    method CalculateRatios()
      modifies this`sources, this`totalActivity
      ensures totalActivity == TotalWeight(old(sources))
      ensures sources == WithRatios(old(sources))
    {
      ghost var s0 := sources;
      var w, total := WeighSources(sources);
      var d := DivideRatios(w, total);
      var c := AccumulateRatios(d);
      forall k | 0 <= k < |s0|
        ensures c[k] == WithRatios(s0)[k]
      {
        CumulativeShares(s0, d, total, k);
      }
      sources := c;
      totalActivity := total;
    }

    /**
     * Sets the centre to the origin when `ref` is this component; otherwise
     * returns the physical stack from `ref` down to this component, over which
     * the source then composes translations and rotations.
     */
    method DetermineCenterAndExtent(ref: Volume) returns (stack: Option<seq<Volume>>)
      requires Contains(ref, placement)
      modifies this`globalCenter
      ensures ref.placement == placement ==> globalCenter == Origin && stack.None?
      ensures ref.placement != placement ==> stack.Some? && IsPath(ref, stack.value, placement)
    {
      if ref.placement == placement {
        globalCenter := Origin;
        return None;
      }
      stack := FindPath(ref, placement);
    }

    // -------------------------------------------------------------------------
    // The volume and mass cache; -1 means "not known yet".  The Monte Carlo
    // estimate of the volume is the parameter `sampled`.
    // -------------------------------------------------------------------------

    method CalculateVolume(takeOutDaughters: bool, sampled: real) returns (v: real)
      modifies this`volume
      ensures !takeOutDaughters && old(volume) >= 0.0 ==> volume == old(volume)
      ensures takeOutDaughters || old(volume) < 0.0 ==> volume == sampled
      ensures v == volume
    {
      if !takeOutDaughters && volume >= 0.0 {
        return volume;
      }
      volume := sampled;
      v := volume;
    }

    method CalculateMass(sampled: real) returns (m: real)
      modifies this`volume, this`mass
      ensures old(mass) >= 0.0 ==> mass == old(mass) && volume == old(volume)
      ensures old(mass) < 0.0 ==>
        var v := if old(volume) < 0.0 then sampled else old(volume);
        volume == v && mass == v / Cm3 * density as real
      ensures m == mass
    {
      if mass >= 0.0 {
        return mass;
      }
      if volume < 0.0 {
        var _ := CalculateVolume(true, sampled);
      }
      mass := volume / Cm3 * density as real;
      m := mass;
    }

    method GetVolume(sampled: real) returns (v: real)
      modifies this`volume
      ensures volume == if old(volume) < 0.0 then sampled else old(volume)
      ensures v == volume
    {
      if volume < 0.0 {
        var _ := CalculateVolume(true, sampled);
      }
      v := volume;
    }

    /** Stores `v/cm3`; the mass follows only while it is still unknown. */
    method SetVolume(v: real, sampled: real)
      modifies this`volume, this`mass
      ensures old(mass) >= 0.0 ==> mass == old(mass) && volume == v / Cm3
      ensures old(mass) < 0.0 ==>
        var w := if v / Cm3 < 0.0 then sampled else v / Cm3;
        volume == w && mass == w / Cm3 * density as real
      ensures Snapshot() == VolumeSet(old(Snapshot()), v, density as real, sampled)
    {
      volume := v / Cm3;
      var _ := CalculateMass(sampled);
    }

    method GetMass(sampled: real) returns (m: real)
      modifies this`volume, this`mass
      ensures old(mass) >= 0.0 ==> mass == old(mass) && volume == old(volume)
      ensures old(mass) < 0.0 ==>
        var v := if old(volume) < 0.0 then sampled else old(volume);
        volume == v && mass == v / Cm3 * density as real
      ensures m == mass
      ensures Snapshot() == MassKnown(old(Snapshot()), density as real, sampled)
    {
      if mass < 0.0 {
        var _ := CalculateMass(sampled);
      }
      m := mass;
    }

    method SetMass(m: real)
      modifies this`volume, this`mass
      ensures mass == m / Gram
      ensures volume == m / Gram * Gram / density as real
      ensures Snapshot() == MassSet(old(Snapshot()), m, density as real)
    {
      mass := m / Gram;
      volume := mass * Gram / density as real;
    }

    /**
     * A new precision re-estimates the volume (`sampled`) and then asks for
     * the mass, which is recomputed only if it is still unknown.
     */
    method SetVolumePrecision(prec: real, sampled: real)
      requires -TWO31 as real < prec < TWO31 as real
      modifies this`volume, this`mass, this`volumePrecision
      ensures prec == old(volumePrecision) as real ==>
        volumePrecision == old(volumePrecision) && volume == old(volume) && mass == old(mass)
      ensures prec != old(volumePrecision) as real ==>
        volumePrecision == Trunc(prec) && volume == sampled
        && mass == (if old(mass) >= 0.0 then old(mass) else sampled / Cm3 * density as real)
    {
      if prec != volumePrecision as real {
        volumePrecision := Trunc(prec);
        var _ := CalculateVolume(true, sampled);
        var _ := CalculateMass(sampled);
      }
    }
  }
}
