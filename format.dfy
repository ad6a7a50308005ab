/**
 * The LUXSim binary output format: the values a file holds and the exact
 * byte sequence the writer emits for them.  Both readers are proved against
 * these encoders.
 */
module Format {
  import opened Wire

  /** The four strings written by the output constructor. */
  datatype Header = Header(productionTime: Bytes, geant4Version: Bytes, revision: Bytes, computerName: Bytes)

  /** The three strings written once by `RecordInputHistory`. */
  datatype History = History(commands: Bytes, diffs: Bytes, componentTable: Bytes)

  /**
   * One primary particle (the manager's `primaryParticleInfo`), with energy,
   * time and position already expressed in the output units (keV, ns, mm).
   */
  datatype Primary = Primary(name: Bytes, energy: F64, time: F64, position: Vec3, direction: Vec3)

  /** One step entry (the manager's `stepRecord`). */
  datatype Step = Step(
    stepNumber: int, particleId: int,
    particleName: Bytes, creatorProcess: Bytes, stepProcess: Bytes,
    trackId: int, parentId: int,
    particleEnergy: F64, direction: Vec3, energyDeposition: F64, position: Vec3, stepTime: F64)

  /**
   * One record as it appears in the file.  `totalEnergy`, `numOpt` and
   * `numTherm` are only present in the stream when the matching level is
   * positive; otherwise a reader reports zero for them.
   */
  datatype Record = Record(
    primaries: seq<Primary>,
    recordLevel: int, optLevel: int, thermLevel: int, volumeId: int, eventNum: int,
    totalEnergy: F64, numOpt: int, numTherm: int,
    steps: seq<Step>)

  // ---------------------------------------------------------------------------
  // Encoders
  // ---------------------------------------------------------------------------

  /** A string: its length as an int32, then its bytes, with no terminator. */
  function EncodeString(s: Bytes): (r: Bytes)
    ensures |r| == 4 + |s|
  {
    EncodeInt32(|s|) + s
  }

  function EncodeHeader(h: Header): Bytes
  {
    EncodeString(h.productionTime) + EncodeString(h.geant4Version)
    + EncodeString(h.revision) + EncodeString(h.computerName)
  }

  function EncodeHistory(h: History): Bytes
  {
    EncodeString(h.commands) + EncodeString(h.diffs) + EncodeString(h.componentTable)
  }

  function EncodePrimary(p: Primary): Bytes
  {
    EncodeString(p.name) + p.energy + p.time + EncodeVec3(p.position) + EncodeVec3(p.direction)
  }

  function EncodePrimaries(ps: seq<Primary>): Bytes
  {
    ConcatMap(ps, EncodePrimary)
  }

  /** The fixed part of a step entry: 4 int32 fields followed by 9 doubles. */
  function StepPayload(s: Step): (r: Bytes)
    ensures |r| == 4 * 4 + 9 * 8
  {
    EncodeInt32(s.stepNumber) + EncodeInt32(s.particleId) + EncodeInt32(s.trackId) + EncodeInt32(s.parentId)
    + s.particleEnergy + EncodeVec3(s.direction) + s.energyDeposition + EncodeVec3(s.position) + s.stepTime
  }

  function EncodeStep(s: Step): Bytes
  {
    EncodeString(s.particleName) + EncodeString(s.creatorProcess) + EncodeString(s.stepProcess)
    + StepPayload(s)
  }

  function EncodeSteps(ss: seq<Step>): Bytes
  {
    ConcatMap(ss, EncodeStep)
  }

  /** The gated totals of a record: each present only when its level is positive. */
  function EncodeTotals(r: Record): Bytes
  {
    (if r.recordLevel > 0 then r.totalEnergy else [])
    + (if r.optLevel > 0 then EncodeInt32(r.numOpt) else [])
    + (if r.thermLevel > 0 then EncodeInt32(r.numTherm) else [])
  }

  function EncodeRecord(r: Record): Bytes
  {
    EncodeInt32(|r.primaries|) + EncodePrimaries(r.primaries)
    + EncodeInt32(r.recordLevel) + EncodeInt32(r.optLevel) + EncodeInt32(r.thermLevel)
    + EncodeInt32(r.volumeId) + EncodeInt32(r.eventNum)
    + EncodeTotals(r)
    + EncodeInt32(|r.steps|) + EncodeSteps(r.steps)
  }

  function EncodeRecords(rs: seq<Record>): Bytes
  {
    ConcatMap(rs, EncodeRecord)
  }

  function EncodeOptHistory(h: Option<History>): Bytes
  {
    if h.Some? then EncodeHistory(h.value) else []
  }

  /** A complete, closed file: the patched record count, the header, the history and the records. */
  function EncodeFile(count: int, h: Header, hist: Option<History>, rs: seq<Record>): (r: Bytes)
    ensures |r| >= 4 && r[..4] == EncodeInt32(count)
  {
    EncodeInt32(count) + EncodeHeader(h) + EncodeOptHistory(hist) + EncodeRecords(rs)
  }

  lemma {:induction false} ConcatMapAppend<T>(xs: seq<T>, x: T, f: T -> Bytes)
    ensures ConcatMap(xs + [x], f) == ConcatMap(xs, f) + f(x)
  {
    if xs == [] {
      assert [x][1..] == [];
    } else {
      assert (xs + [x])[1..] == xs[1..] + [x];
      ConcatMapAppend(xs[1..], x, f);
    }
  }

  lemma EncodeRecordsAppend(rs: seq<Record>, r: Record)
    ensures EncodeRecords(rs + [r]) == EncodeRecords(rs) + EncodeRecord(r)
  {
    ConcatMapAppend(rs, r, EncodeRecord);
  }

  /** The four parts of a file, grouped from the right. */
  lemma FileParts(count: int, h: Header, hist: Option<History>, rs: seq<Record>)
    ensures EncodeFile(count, h, hist, rs)
            == EncodeInt32(count) + (EncodeHeader(h) + (EncodeOptHistory(hist) + EncodeRecords(rs)))
  {
  }

  /** The bytes after the record count do not depend on it. */
  lemma FileBody(count: int, h: Header, hist: Option<History>, rs: seq<Record>)
    ensures EncodeFile(count, h, hist, rs)[4..] == EncodeHeader(h) + EncodeOptHistory(hist) + EncodeRecords(rs)
  {
    assert EncodeFile(count, h, hist, rs) == EncodeInt32(count) + (EncodeHeader(h) + EncodeOptHistory(hist) + EncodeRecords(rs));
  }

  /** Writing one more record appends its encoding to the file. */
  lemma FileAppend(h: Header, hist: Option<History>, rs: seq<Record>, r: Record)
    ensures EncodeFile(0, h, hist, rs + [r]) == EncodeFile(0, h, hist, rs) + EncodeRecord(r)
  {
    EncodeRecordsAppend(rs, r);
  }

  lemma EncodePrimariesAppend(ps: seq<Primary>, p: Primary)
    ensures EncodePrimaries(ps + [p]) == EncodePrimaries(ps) + EncodePrimary(p)
  {
    ConcatMapAppend(ps, p, EncodePrimary);
  }

  lemma EncodeStepsAppend(ss: seq<Step>, s: Step)
    ensures EncodeSteps(ss + [s]) == EncodeSteps(ss) + EncodeStep(s)
  {
    ConcatMapAppend(ss, s, EncodeStep);
  }

  /** A record after its primaries: the record-level fields and the steps. */
  function RecordFieldBytes(r: Record): Bytes
  {
    EncodeInt32(r.recordLevel) + EncodeInt32(r.optLevel) + EncodeInt32(r.thermLevel)
    + EncodeInt32(r.volumeId) + EncodeInt32(r.eventNum)
    + EncodeTotals(r)
    + EncodeInt32(|r.steps|) + EncodeSteps(r.steps)
  }

  lemma RecordSplit(r: Record, rest: Bytes)
    ensures EncodeRecord(r) + rest == EncodeInt32(|r.primaries|) + (EncodePrimaries(r.primaries) + (RecordFieldBytes(r) + rest))
  {
  }

  lemma RecordFieldSplit(r: Record, rest: Bytes)
    ensures RecordFieldBytes(r) + rest
            == EncodeInt32(r.recordLevel) + (EncodeInt32(r.optLevel) + (EncodeInt32(r.thermLevel)
               + (EncodeInt32(r.volumeId) + (EncodeInt32(r.eventNum)
               + (EncodeTotals(r) + (EncodeInt32(|r.steps|) + (EncodeSteps(r.steps) + rest)))))))
  {
  }

  // ---------------------------------------------------------------------------
  // Values the format can carry without loss
  // ---------------------------------------------------------------------------

  predicate StringOk(s: Bytes) { |s| < TWO31 }

  predicate PrimaryOk(p: Primary) { StringOk(p.name) }

  predicate StepOk(s: Step)
  {
    IsInt32(s.stepNumber) && IsInt32(s.particleId) && IsInt32(s.trackId) && IsInt32(s.parentId)
    && StringOk(s.particleName) && StringOk(s.creatorProcess) && StringOk(s.stepProcess)
  }

  /**
   * A record the format represents exactly: every integer fits an int32, and
   * a total whose level is not positive holds the zero a reader reports for it.
   */
  predicate RecordOk(r: Record)
  {
    |r.primaries| < TWO31 && |r.steps| < TWO31
    && (forall i :: 0 <= i < |r.primaries| ==> PrimaryOk(r.primaries[i]))
    && (forall i :: 0 <= i < |r.steps| ==> StepOk(r.steps[i]))
    && IsInt32(r.recordLevel) && IsInt32(r.optLevel) && IsInt32(r.thermLevel)
    && IsInt32(r.volumeId) && IsInt32(r.eventNum)
    && IsInt32(r.numOpt) && IsInt32(r.numTherm)
    && (r.recordLevel <= 0 ==> r.totalEnergy == Zero64)
    && (r.optLevel <= 0 ==> r.numOpt == 0)
    && (r.thermLevel <= 0 ==> r.numTherm == 0)
  }

  predicate HeaderOk(h: Header)
  {
    StringOk(h.productionTime) && StringOk(h.geant4Version) && StringOk(h.revision) && StringOk(h.computerName)
  }

  predicate HistoryOk(h: History)
  {
    StringOk(h.commands) && StringOk(h.diffs) && StringOk(h.componentTable)
  }

  predicate FileOk(h: Header, hist: Option<History>, rs: seq<Record>)
  {
    HeaderOk(h) && (hist.Some? ==> HistoryOk(hist.value))
    && |rs| < TWO31 && forall i :: 0 <= i < |rs| ==> RecordOk(rs[i])
  }

  // ---------------------------------------------------------------------------
  // Derived quantities the readers report
  // ---------------------------------------------------------------------------

  function AllPrimaries(rs: seq<Record>): seq<Primary>
  {
    if rs == [] then [] else rs[0].primaries + AllPrimaries(rs[1..])
  }

  function AllSteps(rs: seq<Record>): seq<Step>
  {
    if rs == [] then [] else rs[0].steps + AllSteps(rs[1..])
  }

  /** Number of steps in all records before record `i`. */
  function StepsBefore(rs: seq<Record>, i: nat): nat
    requires i <= |rs|
  {
    |AllSteps(rs[..i])|
  }

  lemma {:induction false} AllPrimariesAppend(rs: seq<Record>, r: Record)
    ensures AllPrimaries(rs + [r]) == AllPrimaries(rs) + r.primaries
  {
    if rs == [] {
      assert [r][1..] == [];
    } else {
      assert (rs + [r])[1..] == rs[1..] + [r];
      AllPrimariesAppend(rs[1..], r);
    }
  }

  lemma {:induction false} AllStepsAppend(rs: seq<Record>, r: Record)
    ensures AllSteps(rs + [r]) == AllSteps(rs) + r.steps
  {
    if rs == [] {
      assert [r][1..] == [];
    } else {
      assert (rs + [r])[1..] == rs[1..] + [r];
      AllStepsAppend(rs[1..], r);
    }
  }

  lemma {:induction false} AllStepsConcat(a: seq<Record>, b: seq<Record>)
    ensures AllSteps(a + b) == AllSteps(a) + AllSteps(b)
  {
    if a == [] {
      assert a + b == b;
    } else {
      assert (a + b)[1..] == a[1..] + b;
      AllStepsConcat(a[1..], b);
    }
  }

  /** Step `j` of record `i` is entry `StepsBefore(rs, i) + j` of all the steps. */
  lemma StepsOfRecordAt(rs: seq<Record>, i: nat, j: nat)
    requires i < |rs| && j < |rs[i].steps|
    ensures StepsBefore(rs, i) + j < |AllSteps(rs)|
    ensures AllSteps(rs)[StepsBefore(rs, i) + j] == rs[i].steps[j]
  {
    assert rs == (rs[..i] + [rs[i]]) + rs[i + 1..];
    AllStepsConcat(rs[..i] + [rs[i]], rs[i + 1..]);
    AllStepsAppend(rs[..i], rs[i]);
  }
}
