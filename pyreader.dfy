/**
 * The Python reader (`tools/LUXSimPythonReader.py`, Python 2): `GetAttribute`
 * over a forward-only file cursor, `LoadFile`, which decodes the whole file
 * into per-record and per-entry columns, and the per-file decisions of the
 * driver.  A raised exception is an `Err` carrying its class.
 */
module PyReader {
  import opened Wire
  import opened Format

  /** The exceptions the reader can raise: `struct.error`, `TypeError`, `NameError`, `ValueError`. */
  datatype PyError = StructError | TypeError | NameError | ValueError

  /** The `struct` format characters the reader uses: 'c', 'i', 'I', 'd'. */
  datatype Fmt = Char | Int | UInt | Double

  function CalcSize(f: Fmt): nat
  {
    match f
    case Char => 1
    case Int => 4
    case UInt => 4
    case Double => 8
  }

  /** A value `GetAttribute` returns: a byte string, an integer or a double. */
  datatype Value = Chars(bytes: Bytes) | Integer(i: int) | Real64(d: F64)

  /** `f.read(n)`: at most `n` bytes, and everything that remains when `n` is negative. */
  function FileRead(rest: Bytes, n: int): (r: (Bytes, Bytes))
    ensures r.0 + r.1 == rest
    ensures n >= 0 ==> |r.0| == if n < |rest| then n else |rest|
    ensures n < 0 ==> r.1 == []
  {
    if n < 0 || n >= |rest| then (rest, []) else (rest[..n], rest[n..])
  }

  /** `unpack(fmt, b)[0]` for a single format character. */
  function Unpack(f: Fmt, b: Bytes): Value
    requires |b| == CalcSize(f)
  {
    match f
    case Char => Chars(b)
    case Int => Integer(DecodeInt32(b))
    case UInt => Integer(DecodeUInt32(b))
    case Double => Real64(b)
  }

  /**
   * `GetAttribute(f, fmt, length)`.  With length 1 it unpacks one value; with
   * any other length it unpacks `fmt * length` and joins the items, which only
   * works for characters.  `unpack` raises unless it gets exactly the bytes
   * the format describes, so a short read never yields partial data.
   */
  function GetAttribute(rest: Bytes, f: Fmt, length: int): (r: Result<(Value, Bytes), PyError>)
    ensures f == Char && length >= 0 ==>
              (r.Ok? <==> length <= |rest|)
              && (r.Ok? ==> r.value == (Chars(rest[..length]), rest[length..]))
    ensures f != Char && length == 1 ==>
              (r.Ok? <==> CalcSize(f) <= |rest|)
              && (r.Ok? ==> r.value == (Unpack(f, rest[..CalcSize(f)]), rest[CalcSize(f)..]))
    ensures f != Char && length != 1 && r.Ok? ==> length <= 0 && r.value.0 == Chars([])
    ensures r.Err? && r.error == TypeError ==> f != Char && length > 1
    ensures r.Err? ==> r.error != NameError
  {
    var (data, after) := FileRead(rest, length * CalcSize(f));
    if length == 1 then
      if |data| == CalcSize(f) then Ok((Unpack(f, data), after)) else Err(StructError)
    else if |data| != (if length > 0 then length * CalcSize(f) else 0) then Err(StructError)
    else if length > 1 && f != Char then Err(TypeError)
    else Ok((Chars(data), after))
  }

  // ---------------------------------------------------------------------------
  // The calls the reader makes, one per field type
  // ---------------------------------------------------------------------------

  // Each read below is `GetAttribute` with one format, its value taken out of
  // `Value`; the lemmas after them prove that correspondence.

  /** `GetAttribute(f, 'i')`. */
  function GetInt(rest: Bytes): Result<(int, Bytes), PyError>
  {
    if 4 <= |rest| then Ok((DecodeInt32(rest[..4]), rest[4..])) else Err(StructError)
  }

  /** `GetAttribute(f, 'I')`. */
  function GetUInt(rest: Bytes): Result<(int, Bytes), PyError>
  {
    if 4 <= |rest| then Ok((DecodeUInt32(rest[..4]), rest[4..])) else Err(StructError)
  }

  /** `GetAttribute(f, 'd')`. */
  function GetDouble(rest: Bytes): Result<(F64, Bytes), PyError>
  {
    if 8 <= |rest| then var d: F64 := rest[..8]; Ok((d, rest[8..])) else Err(StructError)
  }

  /** `GetAttribute(f, 'c', n)`. */
  function GetChars(rest: Bytes, n: int): Result<(Bytes, Bytes), PyError>
  {
    if n >= 0 then (if n <= |rest| then Ok((rest[..n], rest[n..])) else Err(StructError))
    else if rest == [] then Ok(([], [])) else Err(StructError)
  }

  function AsInt(r: Result<(Value, Bytes), PyError>): Result<(int, Bytes), PyError>
  {
    match r
    case Ok((Integer(i), after)) => Ok((i, after))
    case Ok(_) => Err(TypeError)
    case Err(e) => Err(e)
  }

  function AsDouble(r: Result<(Value, Bytes), PyError>): Result<(F64, Bytes), PyError>
  {
    match r
    case Ok((Real64(d), after)) => Ok((d, after))
    case Ok(_) => Err(TypeError)
    case Err(e) => Err(e)
  }

  function AsChars(r: Result<(Value, Bytes), PyError>): Result<(Bytes, Bytes), PyError>
  {
    match r
    case Ok((Chars(b), after)) => Ok((b, after))
    case Ok(_) => Err(TypeError)
    case Err(e) => Err(e)
  }

  lemma GetIntIsGetAttribute(rest: Bytes)
    ensures GetInt(rest) == AsInt(GetAttribute(rest, Int, 1))
  {
  }

  lemma GetUIntIsGetAttribute(rest: Bytes)
    ensures GetUInt(rest) == AsInt(GetAttribute(rest, UInt, 1))
  {
  }

  lemma GetDoubleIsGetAttribute(rest: Bytes)
    ensures GetDouble(rest) == AsDouble(GetAttribute(rest, Double, 1))
  {
  }

  lemma GetCharsIsGetAttribute(rest: Bytes, n: int)
    ensures GetChars(rest, n) == AsChars(GetAttribute(rest, Char, n))
  {
  }

  /** A length read with 'i' followed by that many characters. */
  function GetString(rest: Bytes): (r: Result<(Bytes, Bytes), PyError>)
  {
    var n :- GetInt(rest);
    GetChars(n.1, n.0)
  }

  /** `[GetAttribute(f, 'd') for i in range(3)]`. */
  function GetVec3(rest: Bytes): (r: Result<(Vec3, Bytes), PyError>)
    ensures r.Ok? <==> 24 <= |rest|
    ensures r.Ok? ==> EncodeVec3(r.value.0) == rest[..24] && r.value.1 == rest[24..]
  {
    var x :- GetDouble(rest);
    var y :- GetDouble(x.1);
    var z :- GetDouble(y.1);
    Ok((Vec3(x.0, y.0, z.0), z.1))
  }

  // Reads at a fixed offset into a block that is long enough.

  lemma GetIntAt(r: Bytes, i: nat)
    requires i + 4 <= |r|
    ensures GetInt(r[i..]) == Ok((DecodeInt32(r[i..i + 4]), r[i + 4..]))
  {
    assert r[i..][..4] == r[i..i + 4];
    assert r[i..][4..] == r[i + 4..];
  }

  lemma GetDoubleAt(r: Bytes, i: nat)
    requires i + 8 <= |r|
    ensures GetDouble(r[i..]) == Ok((r[i..i + 8], r[i + 8..]))
  {
    assert r[i..][..8] == r[i..i + 8];
    assert r[i..][8..] == r[i + 8..];
  }

  lemma GetVec3At(r: Bytes, i: nat)
    requires i + 24 <= |r|
    ensures GetVec3(r[i..]) == Ok((Vec3(r[i..i + 8], r[i + 8..i + 16], r[i + 16..i + 24]), r[i + 24..]))
  {
    GetDoubleAt(r, i);
    GetDoubleAt(r, i + 8);
    GetDoubleAt(r, i + 16);
  }

  // ---------------------------------------------------------------------------
  // Primaries and steps
  // ---------------------------------------------------------------------------

  /** The 64 bytes that follow a primary's name: energy, time, position, direction. */
  function PrimaryFields(name: Bytes, b: Bytes): Primary
    requires |b| >= 64
  {
    Primary(name, b[0..8], b[8..16], Vec3(b[16..24], b[24..32], b[32..40]), Vec3(b[40..48], b[48..56], b[56..64]))
  }

  /**
   * One primary (lines 240-269).  The five reads after the name take 64
   * consecutive bytes and raise `struct.error` as soon as fewer remain, which
   * is what reading them as one block does; `PyPrimaryIsFieldwise` proves it.
   */
  function PyPrimary(rest: Bytes): Result<(Primary, Bytes), PyError>
  {
    var name :- GetString(rest);
    var r := name.1;
    if |r| < 64 then Err(StructError) else Ok((PrimaryFields(name.0, r), r[64..]))
  }

  /** The reads of a primary field by field, as the source writes them. */
  function PyPrimaryFieldwise(rest: Bytes): Result<(Primary, Bytes), PyError>
  {
    var name :- GetString(rest);
    var energy :- GetDouble(name.1);
    var time :- GetDouble(energy.1);
    var position :- GetVec3(time.1);
    var direction :- GetVec3(position.1);
    Ok((Primary(name.0, energy.0, time.0, position.0, direction.0), direction.1))
  }

  lemma PyPrimaryIsFieldwise(rest: Bytes)
    ensures PyPrimary(rest) == PyPrimaryFieldwise(rest)
  {
    var name := GetString(rest);
    if name.Ok? {
      var r := name.value.1;
      if |r| >= 64 {
        assert r[0..] == r;
        GetDoubleAt(r, 0);
        GetDoubleAt(r, 8);
        GetVec3At(r, 16);
        GetVec3At(r, 40);
      }
    }
  }

  /** The 88 bytes that follow a step's names: four int32 fields, then nine doubles. */
  function StepFields(names: (Bytes, Bytes, Bytes), b: Bytes): Step
    requires |b| >= 88
  {
    Step(DecodeInt32(b[0..4]), DecodeInt32(b[4..8]), names.0, names.1, names.2,
         DecodeInt32(b[8..12]), DecodeInt32(b[12..16]),
         b[16..24], Vec3(b[24..32], b[32..40], b[40..48]), b[48..56],
         Vec3(b[56..64], b[64..72], b[72..80]), b[80..88])
  }

  /** One step (lines 300-372): three names, then the fixed 88 bytes read as one block. */
  function PyStep(rest: Bytes): Result<(Step, Bytes), PyError>
  {
    var particleName :- GetString(rest);
    var creatorProcess :- GetString(particleName.1);
    var stepProcess :- GetString(creatorProcess.1);
    var r := stepProcess.1;
    if |r| < 88 then Err(StructError)
    else Ok((StepFields((particleName.0, creatorProcess.0, stepProcess.0), r), r[88..]))
  }

  /** The reads of a step's fixed part field by field, as the source writes them. */
  function StepTailFieldwise(names: (Bytes, Bytes, Bytes), r: Bytes): Result<(Step, Bytes), PyError>
  {
    var stepNumber :- GetInt(r);
    var particleId :- GetInt(stepNumber.1);
    var trackId :- GetInt(particleId.1);
    var parentId :- GetInt(trackId.1);
    var energy :- GetDouble(parentId.1);
    var direction :- GetVec3(energy.1);
    var deposit :- GetDouble(direction.1);
    var position :- GetVec3(deposit.1);
    var time :- GetDouble(position.1);
    Ok((Step(stepNumber.0, particleId.0, names.0, names.1, names.2,
             trackId.0, parentId.0, energy.0, direction.0, deposit.0, position.0, time.0), time.1))
  }

  lemma StepTailIsFieldwise(names: (Bytes, Bytes, Bytes), r: Bytes)
    ensures (if |r| < 88 then Err(StructError) else Ok((StepFields(names, r), r[88..])))
            == StepTailFieldwise(names, r)
  {
    if |r| >= 88 {
      assert r[0..] == r;
      GetIntAt(r, 0);
      GetIntAt(r, 4);
      GetIntAt(r, 8);
      GetIntAt(r, 12);
      GetDoubleAt(r, 16);
      GetVec3At(r, 24);
      GetDoubleAt(r, 48);
      GetVec3At(r, 56);
      GetDoubleAt(r, 80);
    }
  }

  // ---------------------------------------------------------------------------
  // Records
  // ---------------------------------------------------------------------------

  /** A gated double: read only when its level is positive, else the zero of `np.zeros`. */
  function OptDouble(rest: Bytes, level: int): (r: Result<(F64, Bytes), PyError>)
    ensures level <= 0 ==> r == Ok((Zero64, rest))
    ensures level > 0 ==> r == GetDouble(rest)
  {
    if level > 0 then GetDouble(rest) else Ok((Zero64, rest))
  }

  /** A gated int32: read only when its level is positive, else 0. */
  function OptInt(rest: Bytes, level: int): (r: Result<(int, Bytes), PyError>)
    ensures level <= 0 ==> r == Ok((0, rest))
    ensures level > 0 ==> r == GetInt(rest)
  {
    if level > 0 then GetInt(rest) else Ok((0, rest))
  }

  /** A decoded record together with the step count as read (`hits_size`). */
  datatype Row = Row(record: Record, hitsSize: int)

  /** The steps of a row are as many as its `hits_size` says when that is positive, else none. */
  predicate RowConsistent(row: Row)
  {
    |row.record.steps| == if row.hitsSize > 0 then row.hitsSize else 0
  }

  /**
   * Line 283 stores the record's event number once per primary into a slice
   * of `primary_event_num`, which line 213 creates as a 1×3 array and nothing
   * grows: the slice always has three columns, and numpy broadcasts a list of
   * `k` numbers into it only when `k` is 1 or 3.  Any other count of
   * primaries raises `ValueError`.
   */
  predicate EventColumnFits(k: int)
  {
    k == 1 || k == 3
  }

  /** One record (lines 233-372). */
  function PyRecord(rest: Bytes): (r: Result<(Row, Bytes), PyError>)
    ensures r.Ok? ==> RowConsistent(r.value.0) && EventColumnFits(|r.value.0.record.primaries|)
  {
    var primarySize :- GetInt(rest);
    var primaries :- Many(PyPrimary, primarySize.1, primarySize.0);
    RecordAfterPrimaries(primaries.0, primaries.1)
  }

  /**
   * The rest of a record once its primaries are read (lines 271-372): the
   * five numbers of lines 273-281 are read, and line 283 then raises unless
   * the primaries fit the event-number column.
   */
  function RecordAfterPrimaries(primaries: seq<Primary>, rest: Bytes): (r: Result<(Row, Bytes), PyError>)
    ensures EventColumnFits(|primaries|) ==> r == RecordAfterPrimariesIntended(primaries, rest)
    ensures !EventColumnFits(|primaries|) ==> (r == Err(ValueError) <==> |rest| >= 20) && r.Err?
  {
    var level :- GetInt(rest);
    var optLevel :- GetInt(level.1);
    var thermLevel :- GetInt(optLevel.1);
    var volumeId :- GetInt(thermLevel.1);
    var eventNum :- GetInt(volumeId.1);
    if !EventColumnFits(|primaries|) then Err(ValueError)
    else RecordAfterPrimariesIntended(primaries, rest)
  }

  /** One record with `primary_event_num` grown with the primaries, as evidently intended. */
  function PyRecordIntended(rest: Bytes): (r: Result<(Row, Bytes), PyError>)
    ensures r.Ok? ==> RowConsistent(r.value.0)
    ensures r.Ok? && EventColumnFits(|r.value.0.record.primaries|) <==> PyRecord(rest).Ok?
    ensures PyRecord(rest).Ok? ==> r == PyRecord(rest)
  {
    var primarySize :- GetInt(rest);
    var primaries :- Many(PyPrimary, primarySize.1, primarySize.0);
    RecordAfterPrimariesIntended(primaries.0, primaries.1)
  }

  /** Lines 271-372 without the failing store of line 283. */
  function RecordAfterPrimariesIntended(primaries: seq<Primary>, rest: Bytes): (r: Result<(Row, Bytes), PyError>)
    ensures r.Ok? ==> RowConsistent(r.value.0) && r.value.0.record.primaries == primaries
  {
    var level :- GetInt(rest);
    var optLevel :- GetInt(level.1);
    var thermLevel :- GetInt(optLevel.1);
    var volumeId :- GetInt(thermLevel.1);
    var eventNum :- GetInt(volumeId.1);
    var energy :- OptDouble(eventNum.1, level.0);
    var numOpt :- OptInt(energy.1, optLevel.0);
    var numTherm :- OptInt(numOpt.1, thermLevel.0);
    var hitsSize :- GetInt(numTherm.1);
    var steps :- Many(PyStep, hitsSize.1, hitsSize.0);
    Ok((Row(Record(primaries, level.0, optLevel.0, thermLevel.0, volumeId.0, eventNum.0,
                   energy.0, numOpt.0, numTherm.0, steps.0), hitsSize.0), steps.1))
  }

  /** Every row `LoadFile` decodes holds as many steps as its `hits_size` allows. */
  lemma PyRecordsConsistent(rest: Bytes, n: nat)
    ensures Many(PyRecord, rest, n).Ok? ==>
              forall i :: 0 <= i < n ==> RowConsistent(Many(PyRecord, rest, n).value.0[i])
  {
    ManyAll(PyRecord, RowConsistent, rest, n);
  }

  function PyHeader(rest: Bytes): Result<(Header, Bytes), PyError>
  {
    var productionTime :- GetString(rest);
    var geant4Version :- GetString(productionTime.1);
    var revision :- GetString(geant4Version.1);
    var computerName :- GetString(revision.1);
    Ok((Header(productionTime.0, geant4Version.0, revision.0, computerName.0), computerName.1))
  }

  function PyHistory(rest: Bytes): Result<(History, Bytes), PyError>
  {
    var commands :- GetString(rest);
    var diffs :- GetString(commands.1);
    var components :- GetString(diffs.1);
    Ok((History(commands.0, diffs.0, components.0), components.1))
  }

  /** The record count, the header and the history, and the bytes after them. */
  datatype Preamble = Preamble(recordLength: nat, header: Header, history: Option<History>)

  /**
   * Lines 154-192 as written: the three history strings are read only when
   * the cursor is not at the end of the file, and line 192 then uses their
   * lengths, which are unbound when they were not read.
   */
  function PyPreamble(file: Bytes): (r: Result<(Preamble, Bytes), PyError>)
    ensures r.Ok? ==> r.value.0.history.Some?
  {
    var count :- GetUInt(file);
    var header :- PyHeader(count.1);
    if header.1 != [] then
      var history :- PyHistory(header.1);
      Ok((Preamble(count.0, header.0, Some(history.0)), history.1))
    else
      Err(NameError)
  }

  /** The same lines as evidently intended: a file that ends after the header has no history. */
  function PyPreambleIntended(file: Bytes): (r: Result<(Preamble, Bytes), PyError>)
    ensures r.Ok? ==> (r.value.0.history.None? <==> r.value.1 == [] && PyPreamble(file) == Err(NameError))
    ensures PyPreamble(file).Ok? ==> r == PyPreamble(file)
  {
    var count :- GetUInt(file);
    var header :- PyHeader(count.1);
    if header.1 != [] then
      var history :- PyHistory(header.1);
      Ok((Preamble(count.0, header.0, Some(history.0)), history.1))
    else
      Ok((Preamble(count.0, header.0, None), []))
  }

  // ---------------------------------------------------------------------------
  // Reading back what the writer wrote
  // ---------------------------------------------------------------------------

  lemma GetIntOf(x: int, rest: Bytes)
    requires IsInt32(x)
    ensures GetInt(EncodeInt32(x) + rest) == Ok((x, rest))
  {
    var b := EncodeInt32(x) + rest;
    assert b[..4] == EncodeInt32(x) && b[4..] == rest;
    Int32RoundTrip(x);
  }

  lemma GetUIntOf(x: int, rest: Bytes)
    requires IsInt32(x) && x >= 0
    ensures GetUInt(EncodeInt32(x) + rest) == Ok((x, rest))
  {
    var b := EncodeInt32(x) + rest;
    assert b[..4] == EncodeInt32(x) && b[4..] == rest;
    UInt32RoundTrip(x);
  }

  /** A string of fewer than 2^31 bytes reads back as itself, and the cursor lands right after it. */
  lemma GetStringOf(s: Bytes, rest: Bytes)
    requires StringOk(s)
    ensures GetString(EncodeString(s) + rest) == Ok((s, rest))
  {
    assert EncodeString(s) + rest == EncodeInt32(|s|) + (s + rest);
    GetIntOf(|s|, s + rest);
    assert (s + rest)[..|s|] == s && (s + rest)[|s|..] == rest;
  }

  lemma PyPrimaryOf(p: Primary, rest: Bytes)
    requires PrimaryOk(p)
    ensures PyPrimary(EncodePrimary(p) + rest) == Ok((p, rest))
  {
    var b := p.energy + p.time + EncodeVec3(p.position) + EncodeVec3(p.direction) + rest;
    assert EncodePrimary(p) + rest == EncodeString(p.name) + b;
    GetStringOf(p.name, b);
    assert b[0..8] == p.energy && b[8..16] == p.time;
    assert b[16..24] == p.position.x && b[24..32] == p.position.y && b[32..40] == p.position.z;
    assert b[40..48] == p.direction.x && b[48..56] == p.direction.y && b[56..64] == p.direction.z;
    assert b[64..] == rest;
  }

  lemma StepFieldsOf(s: Step, rest: Bytes)
    requires StepOk(s)
    ensures |StepPayload(s) + rest| >= 88
    ensures StepFields((s.particleName, s.creatorProcess, s.stepProcess), StepPayload(s) + rest) == s
    ensures (StepPayload(s) + rest)[88..] == rest
  {
    var b := StepPayload(s) + rest;
    assert b[0..4] == EncodeInt32(s.stepNumber) && b[4..8] == EncodeInt32(s.particleId);
    assert b[8..12] == EncodeInt32(s.trackId) && b[12..16] == EncodeInt32(s.parentId);
    Int32RoundTrip(s.stepNumber);
    Int32RoundTrip(s.particleId);
    Int32RoundTrip(s.trackId);
    Int32RoundTrip(s.parentId);
    assert b[16..24] == s.particleEnergy;
    assert b[24..32] == s.direction.x && b[32..40] == s.direction.y && b[40..48] == s.direction.z;
    assert b[48..56] == s.energyDeposition;
    assert b[56..64] == s.position.x && b[64..72] == s.position.y && b[72..80] == s.position.z;
    assert b[80..88] == s.stepTime;
    assert b[88..] == rest;
  }

  lemma PyStepOf(s: Step, rest: Bytes)
    requires StepOk(s)
    ensures PyStep(EncodeStep(s) + rest) == Ok((s, rest))
  {
    var b := StepPayload(s) + rest;
    var b2 := EncodeString(s.stepProcess) + b;
    var b1 := EncodeString(s.creatorProcess) + b2;
    assert EncodeStep(s) + rest == EncodeString(s.particleName) + b1;
    GetStringOf(s.particleName, b1);
    GetStringOf(s.creatorProcess, b2);
    GetStringOf(s.stepProcess, b);
    StepFieldsOf(s, rest);
  }

  /** The row a record reads back as: its steps were written with their count. */
  function RowOf(r: Record): (row: Row)
    ensures RowConsistent(row) && row.record == r
  {
    Row(r, |r.steps|)
  }

  function RowBytes(row: Row): Bytes
  {
    EncodeRecord(row.record)
  }

  lemma PrimariesOf(ps: seq<Primary>, rest: Bytes)
    requires forall i :: 0 <= i < |ps| ==> PrimaryOk(ps[i])
    ensures Many(PyPrimary, EncodePrimaries(ps) + rest, |ps|) == Ok((ps, rest))
  {
    forall i, r | 0 <= i < |ps|
      ensures PyPrimary(EncodePrimary(ps[i]) + r) == Ok((ps[i], r))
    {
      PyPrimaryOf(ps[i], r);
    }
    ManyOf(PyPrimary, EncodePrimary, ps, rest);
  }

  lemma StepsOf(ss: seq<Step>, rest: Bytes)
    requires forall i :: 0 <= i < |ss| ==> StepOk(ss[i])
    ensures Many(PyStep, EncodeSteps(ss) + rest, |ss|) == Ok((ss, rest))
  {
    forall i, r | 0 <= i < |ss|
      ensures PyStep(EncodeStep(ss[i]) + r) == Ok((ss[i], r))
    {
      PyStepOf(ss[i], r);
    }
    ManyOf(PyStep, EncodeStep, ss, rest);
  }

  /** The gated totals of a well-formed record read back as the record holds them. */
  lemma TotalsOf(r: Record, rest: Bytes)
    requires RecordOk(r)
    ensures OptDouble(EncodeTotals(r) + rest, r.recordLevel).Ok?
    ensures var e := OptDouble(EncodeTotals(r) + rest, r.recordLevel).value;
            e.0 == r.totalEnergy
            && OptInt(e.1, r.optLevel).Ok?
            && OptInt(e.1, r.optLevel).value.0 == r.numOpt
            && OptInt(OptInt(e.1, r.optLevel).value.1, r.thermLevel) == Ok((r.numTherm, rest))
  {
    var b3 := (if r.thermLevel > 0 then EncodeInt32(r.numTherm) else []) + rest;
    var b2 := (if r.optLevel > 0 then EncodeInt32(r.numOpt) else []) + b3;
    var b1 := (if r.recordLevel > 0 then r.totalEnergy else []) + b2;
    assert EncodeTotals(r) + rest == b1;
    if r.recordLevel > 0 {
      assert b1[..8] == r.totalEnergy && b1[8..] == b2;
    } else {
      assert b1 == b2;
    }
    if r.optLevel > 0 {
      GetIntOf(r.numOpt, b3);
    } else {
      assert b2 == b3;
    }
    if r.thermLevel > 0 {
      GetIntOf(r.numTherm, rest);
    } else {
      assert b3 == rest;
    }
  }

  /** The bytes of a record after its primaries. */
  lemma RecordAfterPrimariesOf(r: Record, rest: Bytes)
    requires RecordOk(r)
    ensures RecordAfterPrimariesIntended(r.primaries, RecordFieldBytes(r) + rest) == Ok((RowOf(r), rest))
  {
    var b9 := EncodeSteps(r.steps) + rest;
    var b8 := EncodeInt32(|r.steps|) + b9;
    var b7 := EncodeTotals(r) + b8;
    var b6 := EncodeInt32(r.eventNum) + b7;
    var b5 := EncodeInt32(r.volumeId) + b6;
    var b4 := EncodeInt32(r.thermLevel) + b5;
    var b3 := EncodeInt32(r.optLevel) + b4;
    RecordFieldSplit(r, rest);
    GetIntOf(r.recordLevel, b3);
    GetIntOf(r.optLevel, b4);
    GetIntOf(r.thermLevel, b5);
    GetIntOf(r.volumeId, b6);
    GetIntOf(r.eventNum, b7);
    TotalsOf(r, b8);
    GetIntOf(|r.steps|, b9);
    StepsOf(r.steps, rest);
  }

  /** A record as written reads back, as evidently intended, whatever the number of its primaries. */
  lemma PyRecordIntendedOf(r: Record, rest: Bytes)
    requires RecordOk(r)
    ensures PyRecordIntended(EncodeRecord(r) + rest) == Ok((RowOf(r), rest))
  {
    RecordSplit(r, rest);
    var b2 := RecordFieldBytes(r) + rest;
    var b1 := EncodePrimaries(r.primaries) + b2;
    GetIntOf(|r.primaries|, b1);
    PrimariesOf(r.primaries, b2);
    RecordAfterPrimariesOf(r, rest);
  }

  /** A record with one or three primaries reads back as written. */
  lemma PyRecordOf(r: Record, rest: Bytes)
    requires RecordOk(r) && EventColumnFits(|r.primaries|)
    ensures PyRecord(EncodeRecord(r) + rest) == Ok((RowOf(r), rest))
  {
    PyRecordIntendedOf(r, rest);
  }

  /** Any other number of primaries, two say, makes line 283 raise `ValueError`. */
  lemma MisfitRecordRaises(r: Record, rest: Bytes)
    requires RecordOk(r) && !EventColumnFits(|r.primaries|)
    ensures PyRecord(EncodeRecord(r) + rest) == Err(ValueError)
    ensures PyRecordIntended(EncodeRecord(r) + rest) == Ok((RowOf(r), rest))
  {
    RecordSplit(r, rest);
    var b2 := RecordFieldBytes(r) + rest;
    var b1 := EncodePrimaries(r.primaries) + b2;
    GetIntOf(|r.primaries|, b1);
    PrimariesOf(r.primaries, b2);
    RecordFieldSplit(r, rest);
    assert |b2| >= 20;
    PyRecordIntendedOf(r, rest);
  }

  /** The rows of `rs`, one per record. */
  function RowsOf(rs: seq<Record>): (rows: seq<Row>)
    ensures |rows| == |rs| && forall i :: 0 <= i < |rs| ==> rows[i] == RowOf(rs[i])
  {
    Column(rs, RowOf)
  }

  lemma {:induction false} RowBytesOf(rs: seq<Record>)
    ensures ConcatMap(RowsOf(rs), RowBytes) == EncodeRecords(rs)
  {
    if rs != [] {
      assert RowsOf(rs)[1..] == RowsOf(rs[1..]);
      RowBytesOf(rs[1..]);
    }
  }

  /** Records that each read back as written read back one after another. */
  lemma PyRecordsOf(rs: seq<Record>, rest: Bytes)
    requires forall i :: 0 <= i < |rs| ==> RecordOk(rs[i]) && EventColumnFits(|rs[i].primaries|)
    ensures Many(PyRecord, EncodeRecords(rs) + rest, |rs|) == Ok((RowsOf(rs), rest))
  {
    var rows := RowsOf(rs);
    forall i, r | 0 <= i < |rows|
      ensures PyRecord(RowBytes(rows[i]) + r) == Ok((rows[i], r))
    {
      PyRecordOf(rs[i], r);
    }
    ManyOf(PyRecord, RowBytes, rows, rest);
    RowBytesOf(rs);
  }

  lemma PyRecordsIntendedOf(rs: seq<Record>, rest: Bytes)
    requires forall i :: 0 <= i < |rs| ==> RecordOk(rs[i])
    ensures Many(PyRecordIntended, EncodeRecords(rs) + rest, |rs|) == Ok((RowsOf(rs), rest))
  {
    var rows := RowsOf(rs);
    forall i, r | 0 <= i < |rows|
      ensures PyRecordIntended(RowBytes(rows[i]) + r) == Ok((rows[i], r))
    {
      PyRecordIntendedOf(rs[i], r);
    }
    ManyOf(PyRecordIntended, RowBytes, rows, rest);
    RowBytesOf(rs);
  }

  /** The first record whose primaries do not fit the event-number column ends the loop with `ValueError`. */
  lemma {:induction false} PyRecordsRaise(rs: seq<Record>, rest: Bytes)
    requires forall i :: 0 <= i < |rs| ==> RecordOk(rs[i])
    requires exists i :: 0 <= i < |rs| && !EventColumnFits(|rs[i].primaries|)
    ensures Many(PyRecord, EncodeRecords(rs) + rest, |rs|) == Err(ValueError)
  {
    var after := EncodeRecords(rs[1..]) + rest;
    assert EncodeRecords(rs) + rest == EncodeRecord(rs[0]) + after;
    if EventColumnFits(|rs[0].primaries|) {
      PyRecordOf(rs[0], after);
      var tail := Many(PyRecord, after, |rs| - 1);
      assert Many(PyRecord, EncodeRecord(rs[0]) + after, |rs|) == Cons(RowOf(rs[0]), tail);
      var i :| 0 <= i < |rs| && !EventColumnFits(|rs[i].primaries|);
      var rs' := rs[1..];
      assert rs'[i - 1] == rs[i];
      assert forall j :: 0 <= j < |rs'| ==> rs'[j] == rs[j + 1];
      PyRecordsRaise(rs', rest);
    } else {
      MisfitRecordRaises(rs[0], after);
    }
  }

  lemma PyHeaderOf(h: Header, rest: Bytes)
    requires HeaderOk(h)
    ensures PyHeader(EncodeHeader(h) + rest) == Ok((h, rest))
  {
    var b3 := EncodeString(h.computerName) + rest;
    var b2 := EncodeString(h.revision) + b3;
    var b1 := EncodeString(h.geant4Version) + b2;
    assert EncodeHeader(h) + rest == EncodeString(h.productionTime) + b1;
    GetStringOf(h.productionTime, b1);
    GetStringOf(h.geant4Version, b2);
    GetStringOf(h.revision, b3);
    GetStringOf(h.computerName, rest);
  }

  lemma PyHistoryOf(h: History, rest: Bytes)
    requires HistoryOk(h)
    ensures PyHistory(EncodeHistory(h) + rest) == Ok((h, rest))
  {
    var b2 := EncodeString(h.componentTable) + rest;
    var b1 := EncodeString(h.diffs) + b2;
    assert EncodeHistory(h) + rest == EncodeString(h.commands) + b1;
    GetStringOf(h.commands, b1);
    GetStringOf(h.diffs, b2);
    GetStringOf(h.componentTable, rest);
  }

  // ---------------------------------------------------------------------------
  // The columns LoadFile returns
  // ---------------------------------------------------------------------------

  /**
   * The `record` dictionary's arrays, one field per key.  Names are byte
   * strings; a position or direction is a row of three doubles.
   */
  datatype Columns = Columns(
    recordLevel: seq<int>, opticalPhotonRecordLevel: seq<int>, thermalElectronRecordLevel: seq<int>,
    volumeId: seq<int>, eventNum: seq<int>,
    totalEnergyDeposition: seq<F64>, numOpticalPhotons: seq<int>, numThermalElectrons: seq<int>,
    hitsSize: seq<int>, recordHitsInd: seq<int>,
    primaryName: seq<Bytes>, primaryEnergy: seq<F64>, primaryTime: seq<F64>,
    primaryPosition: seq<Vec3>, primaryDirection: seq<Vec3>,
    particleName: seq<Bytes>, creatorProcessName: seq<Bytes>, stepProcessName: seq<Bytes>,
    stepNum: seq<int>, particleId: seq<int>, trackId: seq<int>, parentId: seq<int>,
    particleEnergy: seq<F64>, particleDirection: seq<Vec3>, energyDeposition: seq<F64>,
    position: seq<Vec3>, stepTime: seq<F64>)

  /** The `info` dictionary. */
  datatype Info = Info(filename: string, header: Header, history: Option<History>)

  datatype Loaded = Loaded(record: Columns, info: Info)

  function Recs(rows: seq<Row>): (rs: seq<Record>)
    ensures |rs| == |rows| && forall i :: 0 <= i < |rows| ==> rs[i] == rows[i].record
  {
    Column(rows, (row: Row) => row.record)
  }

  /** The number of steps in `rows`: the final value of `step_counter`. */
  function StepCount(rows: seq<Row>): nat
  {
    if rows == [] then 0 else StepCount(rows[..|rows| - 1]) + |rows[|rows| - 1].record.steps|
  }

  /** `record_hits_ind`: the number of steps decoded before each record. */
  function StepOffsets(rows: seq<Row>): (r: seq<int>)
    ensures |r| == |rows|
  {
    seq(|rows|, i requires 0 <= i < |rows| => StepCount(rows[..i]))
  }

  /**
   * A name column: the first name is stored into the one-character array
   * `np.array([''])` and so keeps at most one byte; `np.append` widens the
   * array for every later name.  With saving switched off the column stays `['']`.
   */
  function NameColumn(names: seq<Bytes>, save: bool): (r: seq<Bytes>)
    ensures save ==> |r| == |names| && (forall i :: 1 <= i < |names| ==> r[i] == names[i])
    ensures save && names != [] ==> r[0] == names[0][..if |names[0]| < 1 then |names[0]| else 1]
    ensures !save ==> r == [[]]
  {
    if !save then [[]]
    else if names == [] then []
    else [names[0][..if |names[0]| < 1 then |names[0]| else 1]] + names[1..]
  }

  /** The columns of the decoded rows, each array trimmed to its counter (lines 374-427). */
  function ColumnsOf(rows: seq<Row>, hitsInd: seq<int>, saveHitNames: bool, savePrimaryNames: bool): Columns
  {
    var rs := Recs(rows);
    var ps := AllPrimaries(rs);
    var ss := AllSteps(rs);
    Columns(
      Column(rs, (r: Record) => r.recordLevel), Column(rs, (r: Record) => r.optLevel),
      Column(rs, (r: Record) => r.thermLevel), Column(rs, (r: Record) => r.volumeId),
      Column(rs, (r: Record) => r.eventNum), Column(rs, (r: Record) => r.totalEnergy),
      Column(rs, (r: Record) => r.numOpt), Column(rs, (r: Record) => r.numTherm),
      Column(rows, (row: Row) => row.hitsSize), hitsInd,
      NameColumn(Column(ps, (p: Primary) => p.name), savePrimaryNames),
      Column(ps, (p: Primary) => p.energy), Column(ps, (p: Primary) => p.time),
      Column(ps, (p: Primary) => p.position), Column(ps, (p: Primary) => p.direction),
      NameColumn(Column(ss, (s: Step) => s.particleName), saveHitNames),
      NameColumn(Column(ss, (s: Step) => s.creatorProcess), saveHitNames),
      NameColumn(Column(ss, (s: Step) => s.stepProcess), saveHitNames),
      Column(ss, (s: Step) => s.stepNumber), Column(ss, (s: Step) => s.particleId),
      Column(ss, (s: Step) => s.trackId), Column(ss, (s: Step) => s.parentId),
      Column(ss, (s: Step) => s.particleEnergy), Column(ss, (s: Step) => s.direction),
      Column(ss, (s: Step) => s.energyDeposition), Column(ss, (s: Step) => s.position),
      Column(ss, (s: Step) => s.stepTime))
  }

  /** What `LoadFile` returns: `None` for an empty file, else the record and info dictionaries. */
  function Load(file: Bytes, path: string, saveHitNames: bool, savePrimaryNames: bool): (r: Result<Option<Loaded>, PyError>)
    ensures file == [] ==> r == Ok(None)
    ensures r.Ok? && r.value.Some? ==> r.value.value.info.history.Some?
  {
    if file == [] then Ok(None)
    else
      var pre :- PyPreamble(file);
      var rows :- Many(PyRecord, pre.1, pre.0.recordLength);
      Ok(Some(Loaded(ColumnsOf(rows.0, StepOffsets(rows.0), saveHitNames, savePrimaryNames),
                     Info(path, pre.0.header, pre.0.history))))
  }

  /**
   * `Load` as evidently intended: a file that ends after its header has no
   * history, and `primary_event_num` grows with the primaries.
   */
  function LoadIntended(file: Bytes, path: string, saveHitNames: bool, savePrimaryNames: bool): (r: Result<Option<Loaded>, PyError>)
    ensures file == [] ==> r == Ok(None)
    ensures Load(file, path, saveHitNames, savePrimaryNames).Ok? ==> r == Load(file, path, saveHitNames, savePrimaryNames)
  {
    if file == [] then Ok(None)
    else
      var pre :- PyPreambleIntended(file);
      ManyAgrees(PyRecord, PyRecordIntended, pre.1, pre.0.recordLength);
      var rows :- Many(PyRecordIntended, pre.1, pre.0.recordLength);
      Ok(Some(Loaded(ColumnsOf(rows.0, StepOffsets(rows.0), saveHitNames, savePrimaryNames),
                     Info(path, pre.0.header, pre.0.history))))
  }

  // ---------------------------------------------------------------------------
  // Loading a file the writer produced
  // ---------------------------------------------------------------------------

  lemma RecsOfRows(rs: seq<Record>)
    ensures Recs(RowsOf(rs)) == rs
  {
  }

  lemma {:induction false} StepCountOf(rows: seq<Row>)
    ensures StepCount(rows) == |AllSteps(Recs(rows))|
    decreases |rows|
  {
    if rows != [] {
      var init := rows[..|rows| - 1];
      StepCountOf(init);
      assert Recs(rows) == Recs(init) + [rows[|rows| - 1].record];
      AllStepsAppend(Recs(init), rows[|rows| - 1].record);
    }
  }

  /** The number of steps in the records before each one, as the writer laid them out. */
  function Offsets(rs: seq<Record>): (r: seq<int>)
    ensures |r| == |rs| && forall i :: 0 <= i < |rs| ==> r[i] == StepsBefore(rs, i)
  {
    seq(|rs|, i requires 0 <= i < |rs| => StepsBefore(rs, i))
  }

  /** `record_hits_ind` of a file read back: the number of steps in the records before. */
  lemma StepOffsetsOf(rs: seq<Record>)
    ensures StepOffsets(RowsOf(rs)) == Offsets(rs)
  {
    forall i | 0 <= i < |rs|
      ensures StepCount(RowsOf(rs)[..i]) == StepsBefore(rs, i)
    {
      StepCountOf(RowsOf(rs)[..i]);
      assert Recs(RowsOf(rs)[..i]) == rs[..i];
    }
  }

  lemma FileLayout(h: Header, hist: Option<History>, rs: seq<Record>)
    ensures EncodeFile(|rs|, h, hist, rs)
            == EncodeInt32(|rs|) + (EncodeHeader(h) + (EncodeOptHistory(hist) + (EncodeRecords(rs) + [])))
  {
  }

  /**
   * Reading back a closed file with a history whose records each have one
   * or three primaries: the record columns hold the records in order,
   * `hits_size` their step counts and `record_hits_ind` the steps before each.
   */
  lemma LoadRoundTrip(h: Header, hist: History, rs: seq<Record>, path: string, saveHitNames: bool, savePrimaryNames: bool)
    requires FileOk(h, Some(hist), rs)
    requires forall i :: 0 <= i < |rs| ==> EventColumnFits(|rs[i].primaries|)
    ensures Load(EncodeFile(|rs|, h, Some(hist), rs), path, saveHitNames, savePrimaryNames)
            == Ok(Some(Loaded(ColumnsOf(RowsOf(rs), Offsets(rs), saveHitNames, savePrimaryNames),
                              Info(path, h, Some(hist)))))
  {
    FileLayout(h, Some(hist), rs);
    var b2 := EncodeRecords(rs) + [];
    var b1 := EncodeHistory(hist) + b2;
    var b0 := EncodeHeader(h) + b1;
    GetUIntOf(|rs|, b0);
    PyHeaderOf(h, b1);
    assert |b1| >= 12;
    PyHistoryOf(hist, b2);
    PyRecordsOf(rs, []);
    StepOffsetsOf(rs);
  }

  /**
   * The same as evidently intended, which reads back every closed file: with
   * or without history, with any number of primaries per record.
   */
  lemma LoadIntendedRoundTrip(h: Header, hist: Option<History>, rs: seq<Record>, path: string,
                              saveHitNames: bool, savePrimaryNames: bool)
    requires FileOk(h, hist, rs) && (hist.Some? || rs == [])
    ensures LoadIntended(EncodeFile(|rs|, h, hist, rs), path, saveHitNames, savePrimaryNames)
            == Ok(Some(Loaded(ColumnsOf(RowsOf(rs), Offsets(rs), saveHitNames, savePrimaryNames),
                              Info(path, h, hist))))
  {
    FileLayout(h, hist, rs);
    StepOffsetsOf(rs);
    if hist.Some? {
      var b2 := EncodeRecords(rs) + [];
      var b1 := EncodeHistory(hist.value) + b2;
      var b0 := EncodeHeader(h) + b1;
      GetUIntOf(|rs|, b0);
      PyHeaderOf(h, b1);
      assert |b1| >= 12;
      PyHistoryOf(hist.value, b2);
      PyRecordsIntendedOf(rs, []);
    } else {
      var b0 := EncodeHeader(h) + [];
      assert EncodeFile(|rs|, h, hist, rs) == EncodeInt32(|rs|) + b0;
      GetUIntOf(|rs|, b0);
      PyHeaderOf(h, []);
    }
  }

  /**
   * A closed file with a history and a record whose primaries are neither one
   * nor three: `LoadFile` raises `ValueError`, where the intended reader
   * returns the records.
   */
  lemma MisfitFileRaises(h: Header, hist: History, rs: seq<Record>, path: string, saveHitNames: bool, savePrimaryNames: bool)
    requires FileOk(h, Some(hist), rs)
    requires exists i :: 0 <= i < |rs| && !EventColumnFits(|rs[i].primaries|)
    ensures Load(EncodeFile(|rs|, h, Some(hist), rs), path, saveHitNames, savePrimaryNames) == Err(ValueError)
    ensures LoadIntended(EncodeFile(|rs|, h, Some(hist), rs), path, saveHitNames, savePrimaryNames)
            == Ok(Some(Loaded(ColumnsOf(RowsOf(rs), Offsets(rs), saveHitNames, savePrimaryNames),
                              Info(path, h, Some(hist)))))
  {
    FileLayout(h, Some(hist), rs);
    var b2 := EncodeRecords(rs) + [];
    var b1 := EncodeHistory(hist) + b2;
    var b0 := EncodeHeader(h) + b1;
    GetUIntOf(|rs|, b0);
    PyHeaderOf(h, b1);
    assert |b1| >= 12;
    PyHistoryOf(hist, b2);
    PyRecordsRaise(rs, []);
    LoadIntendedRoundTrip(h, Some(hist), rs, path, saveHitNames, savePrimaryNames);
  }

  /** A file that ends right after its header, as written before any history: `LoadFile` raises. */
  lemma HeaderOnlyFileRaises(h: Header, path: string, saveHitNames: bool, savePrimaryNames: bool)
    requires HeaderOk(h)
    ensures Load(EncodeFile(0, h, None, []), path, saveHitNames, savePrimaryNames) == Err(NameError)
    ensures LoadIntended(EncodeFile(0, h, None, []), path, saveHitNames, savePrimaryNames)
            == Ok(Some(Loaded(ColumnsOf([], [], saveHitNames, savePrimaryNames), Info(path, h, None))))
  {
    LoadIntendedRoundTrip(h, None, [], path, saveHitNames, savePrimaryNames);
    assert RowsOf([]) == [] && Offsets([]) == [];
  }

  // ---------------------------------------------------------------------------
  // LoadFile
  // ---------------------------------------------------------------------------

  method ReadRecord(rest: Bytes) returns (res: Result<(Row, Bytes), PyError>)
    ensures res == PyRecord(rest)
  {
    var primarySize :- GetInt(rest);
    var primaries :- ReadMany(PyPrimary, primarySize.1, primarySize.0);
    var level :- GetInt(primaries.1);
    var optLevel :- GetInt(level.1);
    var thermLevel :- GetInt(optLevel.1);
    var volumeId :- GetInt(thermLevel.1);
    var eventNum :- GetInt(volumeId.1);
    if !EventColumnFits(|primaries.0|) {
      return Err(ValueError);
    }
    var energy :- OptDouble(eventNum.1, level.0);
    var numOpt :- OptInt(energy.1, optLevel.0);
    var numTherm :- OptInt(numOpt.1, thermLevel.0);
    var hitsSize :- GetInt(numTherm.1);
    var steps :- ReadMany(PyStep, hitsSize.1, hitsSize.0);
    return Ok((Row(Record(primaries.0, level.0, optLevel.0, thermLevel.0, volumeId.0, eventNum.0,
                          energy.0, numOpt.0, numTherm.0, steps.0), hitsSize.0), steps.1));
  }

  lemma StepCountAppend(rows: seq<Row>, row: Row)
    ensures StepCount(rows + [row]) == StepCount(rows) + |row.record.steps|
  {
    assert (rows + [row])[..|rows|] == rows;
  }

  /** The offsets of the earlier rows do not change when a row is added. */
  lemma StepOffsetsAppend(rows: seq<Row>, row: Row)
    ensures StepOffsets(rows + [row]) == StepOffsets(rows) + [StepCount(rows)]
  {
    var rows' := rows + [row];
    forall i | 0 <= i <= |rows|
      ensures StepCount(rows'[..i]) == StepCount(rows[..i])
    {
      assert rows'[..i] == rows[..i];
    }
    assert rows == rows[..|rows|];
  }

  /**
   * `LoadFile`: the record loop with `step_counter`, which becomes
   * `record_hits_ind` of each record before its steps are read.
   */
  method LoadFile(file: Bytes, path: string, saveHitNames: bool, savePrimaryNames: bool)
    returns (r: Result<Option<Loaded>, PyError>)
    ensures r == Load(file, path, saveHitNames, savePrimaryNames)
  {
    if |file| == 0 {
      return Ok(None);
    }
    var pre :- PyPreamble(file);
    var recordLength := pre.0.recordLength;
    var rest := pre.1;
    var rows: seq<Row> := [];
    var hitsInd: seq<int> := [];
    var stepCounter := 0;
    var recordCounter := 0;
    ghost var left: nat := recordLength;
    PrependNothing(Many(PyRecord, rest, recordLength));
    while recordCounter < recordLength
      invariant 0 <= recordCounter <= recordLength
      invariant left == recordLength - recordCounter
      invariant Many(PyRecord, pre.1, recordLength) == Prepend(rows, Many(PyRecord, rest, left))
      invariant stepCounter == StepCount(rows)
      invariant hitsInd == StepOffsets(rows)
    {
      var row := ReadRecord(rest);
      if row.Err? {
        assert Many(PyRecord, rest, left) == Err(row.error);
        return Err(row.error);
      }
      ghost var tail := Many(PyRecord, row.value.1, left - 1);
      assert Many(PyRecord, rest, left) == Cons(row.value.0, tail);
      PrependCons(rows, row.value.0, tail);
      StepOffsetsAppend(rows, row.value.0);
      StepCountAppend(rows, row.value.0);
      hitsInd := hitsInd + [stepCounter];
      stepCounter := stepCounter + |row.value.0.record.steps|;
      rows := rows + [row.value.0];
      rest := row.value.1;
      recordCounter := recordCounter + 1;
      left := left - 1;
    }
    assert rows + [] == rows;
    return Ok(Some(Loaded(ColumnsOf(rows, hitsInd, saveHitNames, savePrimaryNames),
                          Info(path, pre.0.header, pre.0.history))));
  }

  // ---------------------------------------------------------------------------
  // The driver: one pass of the file loop
  // ---------------------------------------------------------------------------

  /** `filename.split('.')[0]`: the text before the first '.', or all of it. */
  function Stem(filename: string): (r: string)
    ensures |r| <= |filename| && r == filename[..|r|] && '.' !in r
    ensures |r| < |filename| ==> filename[|r|] == '.'
  {
    if filename == [] || filename[0] == '.' then [] else [filename[0]] + Stem(filename[1..])
  }

  /** The name of the archive a file is saved to (line 95). */
  function SaveFileName(filename: string): (r: string)
    ensures |r| == |Stem(filename)| + 4 && r[..|Stem(filename)|] == Stem(filename) && r[|Stem(filename)|..] == ".npz"
  {
    Stem(filename) + ".npz"
  }

  /** A numpy array of the record dictionary. */
  datatype NpArray = Ints(ints: seq<int>) | Doubles(doubles: seq<F64>) | Triples(triples: seq<Vec3>) | Strings(strings: seq<Bytes>)

  /** The `record` dictionary LoadFile returns (lines 398-427, without `primary_event_num`). */
  function RecordDict(c: Columns): map<string, NpArray>
  {
    map[
      "record_level" := Ints(c.recordLevel),
      "opticalphoton_record_level" := Ints(c.opticalPhotonRecordLevel),
      "thermalelectron_record_level" := Ints(c.thermalElectronRecordLevel),
      "volume_id" := Ints(c.volumeId),
      "event_num" := Ints(c.eventNum),
      "total_energy_deposition" := Doubles(c.totalEnergyDeposition),
      "num_opticalphotons" := Ints(c.numOpticalPhotons),
      "num_thermalelectrons" := Ints(c.numThermalElectrons),
      "hits_size" := Ints(c.hitsSize),
      "record_hits_ind" := Ints(c.recordHitsInd),
      "primary_name" := Strings(c.primaryName),
      "primary_energy" := Doubles(c.primaryEnergy),
      "primary_time" := Doubles(c.primaryTime),
      "primary_position" := Triples(c.primaryPosition),
      "primary_direction" := Triples(c.primaryDirection),
      "particle_name" := Strings(c.particleName),
      "creator_process_name" := Strings(c.creatorProcessName),
      "step_process_name" := Strings(c.stepProcessName),
      "step_num" := Ints(c.stepNum),
      "particle_id" := Ints(c.particleId),
      "track_id" := Ints(c.trackId),
      "parent_id" := Ints(c.parentId),
      "particle_energy" := Doubles(c.particleEnergy),
      "particle_direction" := Triples(c.particleDirection),
      "energy_deposition" := Doubles(c.energyDeposition),
      "position" := Triples(c.position),
      "step_time" := Doubles(c.stepTime)
    ]
  }

  const HitNameKeys: set<string> := {"particle_name", "creator_process_name", "step_process_name"}

  /** The keys deleted before saving (lines 112-117). */
  function DroppedKeys(saveHitNames: bool, savePrimaryNames: bool): set<string>
  {
    (if savePrimaryNames then {} else {"primary_name"}) + (if saveHitNames then {} else HitNameKeys)
  }

  /** The arrays `np.savez_compressed` writes: the record dictionary; the info dictionary is not saved. */
  function SavedArrays(c: Columns, saveHitNames: bool, savePrimaryNames: bool): (m: map<string, NpArray>)
    ensures "primary_name" in m <==> savePrimaryNames
    ensures forall k :: k in HitNameKeys ==> (k in m <==> saveHitNames)
    ensures forall k :: k in m ==> k in RecordDict(c) && m[k] == RecordDict(c)[k]
    ensures forall k :: k in RecordDict(c) && k != "primary_name" && k !in HitNameKeys ==> k in m
  {
    RecordDict(c) - DroppedKeys(saveHitNames, savePrimaryNames)
  }

  /** What one pass of the loop body does with a file. */
  datatype Outcome = Skipped | Raised(error: PyError) | Saved(path: string, arrays: map<string, NpArray>)

  /**
   * Lines 92-125 for one file.  `saveFileExists` is `os.path.isfile(save_filename)`,
   * which looks for the bare archive name in the working directory, and
   * `contents` the bytes of the file.  `LoadFile` returns `None` for an empty
   * file, and line 103 then raises `TypeError` unpacking it; the `if not record` test at
   * line 104 never fires, since the dictionary is never empty.
   */
  function ProcessFile(fileDirectory: string, filename: string, saveDirectory: string, overwrite: bool,
                       saveFileExists: bool, contents: Bytes, saveHitNames: bool, savePrimaryNames: bool): (o: Outcome)
    ensures o.Skipped? <==> !overwrite && saveFileExists
    ensures o.Saved? ==> o.path == saveDirectory + "/" + SaveFileName(filename)
    ensures !o.Skipped? && contents == [] ==> o == Raised(TypeError)
    ensures var l := Load(contents, fileDirectory + "/" + filename, saveHitNames, savePrimaryNames);
            !o.Skipped? && l.Err? ==> o == Raised(l.error)
  {
    if !overwrite && saveFileExists then Skipped
    else
      match Load(contents, fileDirectory + "/" + filename, saveHitNames, savePrimaryNames)
      case Err(e) => Raised(e)
      case Ok(None) => Raised(TypeError)
      case Ok(Some(loaded)) =>
        Saved(saveDirectory + "/" + SaveFileName(filename), SavedArrays(loaded.record, saveHitNames, savePrimaryNames))
  }

  /** The same pass as evidently intended: an empty file is reported and skipped, and the preamble is read as intended. */
  function ProcessFileIntended(fileDirectory: string, filename: string, saveDirectory: string, overwrite: bool,
                               saveFileExists: bool, contents: Bytes, saveHitNames: bool, savePrimaryNames: bool): (o: Outcome)
    ensures o.Skipped? <==> (!overwrite && saveFileExists) || contents == []
    ensures o.Saved? ==> o.path == saveDirectory + "/" + SaveFileName(filename)
  {
    if !overwrite && saveFileExists then Skipped
    else
      match LoadIntended(contents, fileDirectory + "/" + filename, saveHitNames, savePrimaryNames)
      case Err(e) => Raised(e)
      case Ok(None) => Skipped
      case Ok(Some(loaded)) =>
        Saved(saveDirectory + "/" + SaveFileName(filename), SavedArrays(loaded.record, saveHitNames, savePrimaryNames))
  }

  /**
   * A closed file with a history, whose records each have one or three
   * primaries, is saved with the columns of its records.
   */
  lemma ProcessRoundTrip(fileDirectory: string, filename: string, saveDirectory: string, overwrite: bool,
                         saveFileExists: bool, h: Header, hist: History, rs: seq<Record>,
                         saveHitNames: bool, savePrimaryNames: bool)
    requires FileOk(h, Some(hist), rs) && (overwrite || !saveFileExists)
    requires forall i :: 0 <= i < |rs| ==> EventColumnFits(|rs[i].primaries|)
    ensures ProcessFile(fileDirectory, filename, saveDirectory, overwrite, saveFileExists,
                        EncodeFile(|rs|, h, Some(hist), rs), saveHitNames, savePrimaryNames)
            == Saved(saveDirectory + "/" + SaveFileName(filename),
                     SavedArrays(ColumnsOf(RowsOf(rs), Offsets(rs), saveHitNames, savePrimaryNames),
                                 saveHitNames, savePrimaryNames))
  {
    LoadRoundTrip(h, hist, rs, fileDirectory + "/" + filename, saveHitNames, savePrimaryNames);
  }

  /** With any other number of primaries in some record, the pass raises `ValueError` instead. */
  lemma ProcessMisfitRaises(fileDirectory: string, filename: string, saveDirectory: string, overwrite: bool,
                            saveFileExists: bool, h: Header, hist: History, rs: seq<Record>,
                            saveHitNames: bool, savePrimaryNames: bool)
    requires FileOk(h, Some(hist), rs) && (overwrite || !saveFileExists)
    requires exists i :: 0 <= i < |rs| && !EventColumnFits(|rs[i].primaries|)
    ensures ProcessFile(fileDirectory, filename, saveDirectory, overwrite, saveFileExists,
                        EncodeFile(|rs|, h, Some(hist), rs), saveHitNames, savePrimaryNames)
            == Raised(ValueError)
  {
    MisfitFileRaises(h, hist, rs, fileDirectory + "/" + filename, saveHitNames, savePrimaryNames);
  }

  /** As evidently intended, every closed file is saved with the columns of its records. */
  lemma ProcessIntendedRoundTrip(fileDirectory: string, filename: string, saveDirectory: string, overwrite: bool,
                                 saveFileExists: bool, h: Header, hist: Option<History>, rs: seq<Record>,
                                 saveHitNames: bool, savePrimaryNames: bool)
    requires FileOk(h, hist, rs) && (hist.Some? || rs == []) && (overwrite || !saveFileExists)
    ensures ProcessFileIntended(fileDirectory, filename, saveDirectory, overwrite, saveFileExists,
                                EncodeFile(|rs|, h, hist, rs), saveHitNames, savePrimaryNames)
            == Saved(saveDirectory + "/" + SaveFileName(filename),
                     SavedArrays(ColumnsOf(RowsOf(rs), Offsets(rs), saveHitNames, savePrimaryNames),
                                 saveHitNames, savePrimaryNames))
  {
    LoadIntendedRoundTrip(h, hist, rs, fileDirectory + "/" + filename, saveHitNames, savePrimaryNames);
  }
}
