/**
 * The MATLAB reader `LUXSimMatlabReader_LoadFile.c`: a MEX function that
 * reads a closed LUXSim file in two passes.  A counting pass walks the
 * records with `fread` and `fseek` to total the primaries and steps, the
 * arrays are allocated with those totals, and a filling pass reads every
 * field into them.
 *
 * C leaves much of what such a reader does with a damaged file undefined:
 * an `int` read short stays uninitialised, and a negative length or count
 * writes outside its buffer.  The model reports those outcomes as a
 * `CFault` and describes exactly every outcome C defines.
 */
module CReader {
  import opened Wire
  import opened Format
  import opened Text

  /** Why the result of a load is not defined by C. */
  datatype CFault =
    | ShortRead     // a value was used that a short read left unset or partly read
    | NegativeSize  // a negative length or count overran or failed an allocation

  // ---------------------------------------------------------------------------
  // Single reads
  // ---------------------------------------------------------------------------

  /**
   * `fread` of an `int` into a local variable.  A short read leaves the
   * variable unset, so it is a fault.
   */
  function FreadInt(rest: Bytes): Result<(int, Bytes), CFault>
  {
    if |rest| < 4 then Err(ShortRead) else Ok((DecodeInt32(rest[..4]), rest[4..]))
  }

  /**
   * `fread` of a double into an `mxCalloc`ed array.  At the end of the file
   * nothing is read and the zero the allocation left stays.  A partly read
   * value is indeterminate.
   */
  function FreadDouble(rest: Bytes): Result<(F64, Bytes), CFault>
  {
    if |rest| >= 8 then var d: F64 := rest[..8]; Ok((d, rest[8..]))
    else if rest == [] then Ok((Zero64, []))
    else Err(ShortRead)
  }

  function FreadVec3(rest: Bytes): Result<(Vec3, Bytes), CFault>
  {
    var x :- FreadDouble(rest);
    var y :- FreadDouble(x.1);
    var z :- FreadDouble(y.1);
    Ok((Vec3(x.0, y.0, z.0), z.1))
  }

  /**
   * A name inside a record: its length, then that many bytes into a
   * zero-filled buffer.  `mxCreateString` keeps the bytes before the first
   * NUL.  A negative length overruns the buffer.  Every read that can come
   * after a name in a record is an `int` or ends in one, so a name cut short
   * already decides that the load has no defined result.
   */
  function FreadName(rest: Bytes): Result<(Bytes, Bytes), CFault>
  {
    var n :- FreadInt(rest);
    if n.0 < 0 then Err(NegativeSize)
    else if n.0 > |n.1| then Err(ShortRead)
    else Ok((CString(n.1[..n.0]), n.1[n.0..]))
  }

  /**
   * A header string.  A short read keeps the bytes that were there and sets
   * the end-of-file flag; the flag is the third component.  Reading exactly
   * up to the end of the file does not set it.
   */
  function HeaderString(rest: Bytes): (r: Result<(Bytes, Bytes, bool), CFault>)
    ensures r.Ok? && r.value.2 ==> r.value.1 == []
  {
    var n :- FreadInt(rest);
    if n.0 < 0 then Err(NegativeSize)
    else if n.0 > |n.1| then Ok((CString(n.1), [], true))
    else Ok((CString(n.1[..n.0]), n.1[n.0..], false))
  }

  /** `fseek` forward by `n` bytes: past the end every later read finds nothing. */
  function SkipBytes(rest: Bytes, n: nat): (r: Bytes)
    ensures |rest| >= n ==> r == rest[n..]
    ensures |rest| < n ==> r == []
  {
    if n <= |rest| then rest[n..] else []
  }

  lemma SkipBytesTwice(rest: Bytes, a: nat, b: nat)
    ensures SkipBytes(SkipBytes(rest, a), b) == SkipBytes(rest, a + b)
  {
    if a + b <= |rest| {
      assert rest[a..][b..] == rest[a + b..];
    }
  }

  /** A successful read of an int ends where a 4-byte `fseek` does. */
  lemma FreadIntSkips(rest: Bytes)
    ensures FreadInt(rest).Ok? ==> FreadInt(rest).value.1 == SkipBytes(rest, 4)
  {
  }

  lemma FreadDoubleSkips(rest: Bytes)
    ensures FreadDouble(rest).Ok? ==> FreadDouble(rest).value.1 == SkipBytes(rest, 8)
  {
  }

  lemma FreadVec3Skips(rest: Bytes)
    ensures FreadVec3(rest).Ok? ==> FreadVec3(rest).value.1 == SkipBytes(rest, 24)
  {
    var x := FreadDouble(rest);
    if x.Ok? {
      var y := FreadDouble(x.value.1);
      if y.Ok? {
        SkipBytesTwice(rest, 8, 8);
        SkipBytesTwice(rest, 16, 8);
      }
    }
  }

  // ---------------------------------------------------------------------------
  // The preamble (lines 63-145)
  // ---------------------------------------------------------------------------

  /** The record count and the seven strings of the `info` struct. */
  datatype CPreamble = CPreamble(numRecords: int, header: Header, history: History)

  /**
   * The record count, the four header strings and, unless the end-of-file
   * flag is set, the three history strings.  When the flag is set the
   * history strings are empty.
   */
  function ReadPreamble(file: Bytes): (r: Result<(CPreamble, Bytes), CFault>)
  {
    var count :- FreadInt(file);
    var header :- ReadHeader(count.1);
    if !header.2 then
      var history :- ReadHistory(header.1);
      Ok((CPreamble(count.0, header.0, history.0), history.1))
    else
      Ok((CPreamble(count.0, header.0, History([], [], [])), header.1))
  }

  /** The four header strings, and the end-of-file flag as the last of them left it. */
  function ReadHeader(rest: Bytes): Result<(Header, Bytes, bool), CFault>
  {
    var productionTime :- HeaderString(rest);
    var geant4Version :- HeaderString(productionTime.1);
    var revision :- HeaderString(geant4Version.1);
    var computerName :- HeaderString(revision.1);
    Ok((Header(productionTime.0, geant4Version.0, revision.0, computerName.0), computerName.1, computerName.2))
  }

  /** The three history strings. */
  function ReadHistory(rest: Bytes): Result<(History, Bytes), CFault>
  {
    var commands :- HeaderString(rest);
    var diffs :- HeaderString(commands.1);
    var components :- HeaderString(diffs.1);
    Ok((History(commands.0, diffs.0, components.0), components.1))
  }

  // ---------------------------------------------------------------------------
  // The counting pass (lines 172-250)
  // ---------------------------------------------------------------------------

  /** A primary: its name length, then one seek over the name and the eight doubles. */
  function SkipPrimary(rest: Bytes): Result<((), Bytes), CFault>
  {
    var n :- FreadInt(rest);
    if n.0 < 0 then Err(NegativeSize) else Ok(((), SkipBytes(n.1, n.0 + 64)))
  }

  function SkipName(rest: Bytes): Result<Bytes, CFault>
  {
    var n :- FreadInt(rest);
    if n.0 < 0 then Err(NegativeSize) else Ok(SkipBytes(n.1, n.0))
  }

  /** A step as the counting pass skips it: two names, then four ints and nine doubles. */
  function SkipHitAsWritten(rest: Bytes): Result<((), Bytes), CFault>
  {
    var particleName :- SkipName(rest);
    var processName :- SkipName(particleName);
    Ok(((), SkipBytes(processName, 88)))
  }

  /** The same skip over the three names the writer emits. */
  function SkipHitIntended(rest: Bytes): Result<((), Bytes), CFault>
  {
    var particleName :- SkipName(rest);
    var creatorProcess :- SkipName(particleName);
    var stepProcess :- SkipName(creatorProcess);
    Ok(((), SkipBytes(stepProcess, 88)))
  }

  /**
   * One record in the counting pass: its primary count and its step count.
   * A negative count makes the totals smaller than the entries the filling
   * pass writes, so it is a fault here.
   */
  function SkipRecordWith(skipHit: Reader<(), CFault>, rest: Bytes): (r: Result<((nat, nat), Bytes), CFault>)
  {
    var primarySize :- FreadInt(rest);
    if primarySize.0 < 0 then Err(NegativeSize)
    else
      var primaries :- Many(SkipPrimary, primarySize.1, primarySize.0);
      var hitSize :- SkipFields(primaries.1);
      var hits :- Many(skipHit, hitSize.1, hitSize.0);
      Ok(((primarySize.0, hitSize.0), hits.1))
  }

  /**
   * The record-level fields in the counting pass: the three levels are read,
   * the two other ints and the gated totals are passed over with `fseek`,
   * and the step count is read.
   */
  function SkipFields(rest: Bytes): (r: Result<(nat, Bytes), CFault>)
  {
    var level :- FreadInt(rest);
    var optLevel :- FreadInt(level.1);
    var thermLevel :- FreadInt(optLevel.1);
    var gated := 8 + (if level.0 > 0 then 8 else 0) + (if optLevel.0 > 0 then 4 else 0)
                 + (if thermLevel.0 > 0 then 4 else 0);
    var hitSize :- FreadInt(SkipBytes(thermLevel.1, gated));
    if hitSize.0 < 0 then Err(NegativeSize) else Ok((hitSize.0, hitSize.1))
  }

  function SkipRecordAsWritten(rest: Bytes): Result<((nat, nat), Bytes), CFault>
  {
    SkipRecordWith(SkipHitAsWritten, rest)
  }

  function SkipRecordIntended(rest: Bytes): Result<((nat, nat), Bytes), CFault>
  {
    SkipRecordWith(SkipHitIntended, rest)
  }

  /** The sums of the primary and the step counts: `pri_len` and `hit_len`. */
  function Totals(cs: seq<(nat, nat)>): (nat, nat)
  {
    if cs == [] then (0, 0)
    else
      var t := Totals(cs[..|cs| - 1]);
      (t.0 + cs[|cs| - 1].0, t.1 + cs[|cs| - 1].1)
  }

  /** The counting pass over `n` records. */
  function CountPass(skipRecord: Reader<(nat, nat), CFault>, rest: Bytes, n: int): Result<(nat, nat), CFault>
  {
    var counts :- Many(skipRecord, rest, n);
    Ok(Totals(counts.0))
  }

  // ---------------------------------------------------------------------------
  // The filling pass (lines 310-522)
  // ---------------------------------------------------------------------------

  /** A primary as the output arrays hold it; `energy` is None where it is not defined. */
  datatype CPrimary = CPrimary(name: Bytes, energy: Option<F64>, time: F64, position: Vec3, direction: Vec3)

  /** A step entry as the output arrays hold it. */
  datatype CHit = CHit(
    particleName: Bytes, processName: Bytes,
    stepNumber: int, particleId: int, trackId: int, parentId: int,
    particleEnergy: F64, direction: Vec3, energyDeposition: F64, position: Vec3, stepTime: F64)

  /** The record-level array entries of one record. */
  datatype CHead = CHead(
    recordLevel: int, optLevel: int, thermLevel: int, volumeId: int, eventNum: int,
    totalEnergy: F64, numOpt: int, numTherm: int, hitsSize: int)

  datatype CRecord = CRecord(head: CHead, primaries: seq<CPrimary>, hits: seq<CHit>)

  /** The 64 bytes after a primary's name (lines 338-363): energy, time, position and direction. */
  function PrimaryTail(rest: Bytes): Result<((F64, F64, Vec3, Vec3), Bytes), CFault>
  {
    var energy :- FreadDouble(rest);
    var time :- FreadDouble(energy.1);
    var position :- FreadVec3(time.1);
    var direction :- FreadVec3(position.1);
    Ok(((energy.0, time.0, position.0, direction.0), direction.1))
  }

  /**
   * A primary as the filling pass reads it (lines 325-366).  The energy is
   * read into `primary_energy` and then overwritten with the never-assigned
   * local `pri_energy`, so the array holds no defined value.
   */
  function CPrimaryAsWritten(rest: Bytes): Result<(CPrimary, Bytes), CFault>
  {
    var name :- FreadName(rest);
    var tail :- PrimaryTail(name.1);
    var (_, time, position, direction) := tail.0;
    Ok((CPrimary(name.0, None, time, position, direction), tail.1))
  }

  /** The same read keeping the energy it reads, as it does for the time. */
  function CPrimaryIntended(rest: Bytes): Result<(CPrimary, Bytes), CFault>
  {
    var name :- FreadName(rest);
    var tail :- PrimaryTail(name.1);
    var (energy, time, position, direction) := tail.0;
    Ok((CPrimary(name.0, Some(energy), time, position, direction), tail.1))
  }

  /** The fixed part of a step entry (lines 476-513), after its names. */
  function HitTail(names: (Bytes, Bytes), rest: Bytes): Result<(CHit, Bytes), CFault>
  {
    var stepNumber :- FreadInt(rest);
    var particleId :- FreadInt(stepNumber.1);
    var trackId :- FreadInt(particleId.1);
    var parentId :- FreadInt(trackId.1);
    var energy :- FreadDouble(parentId.1);
    var direction :- FreadVec3(energy.1);
    var deposit :- FreadDouble(direction.1);
    var position :- FreadVec3(deposit.1);
    var time :- FreadDouble(position.1);
    Ok((CHit(names.0, names.1, stepNumber.0, particleId.0, trackId.0, parentId.0,
             energy.0, direction.0, deposit.0, position.0, time.0), time.1))
  }

  /** A step entry as the filling pass reads it (lines 456-513): two names, then the fixed part. */
  function CHitAsWritten(rest: Bytes): Result<(CHit, Bytes), CFault>
  {
    var particleName :- FreadName(rest);
    var processName :- FreadName(particleName.1);
    HitTail((particleName.0, processName.0), processName.1)
  }

  /**
   * A step entry read over the three names the writer emits; the creator
   * process goes to `process_name` and the step process is passed over.
   */
  function CHitIntended(rest: Bytes): Result<(CHit, Bytes), CFault>
  {
    var particleName :- FreadName(rest);
    var creatorProcess :- FreadName(particleName.1);
    var stepProcess :- FreadName(creatorProcess.1);
    HitTail((particleName.0, creatorProcess.0), stepProcess.1)
  }

  /** A gated double (line 410): read only when the level is positive, else the allocation's zero. */
  function GatedDouble(rest: Bytes, level: int): Result<(F64, Bytes), CFault>
  {
    if level > 0 then FreadDouble(rest) else Ok((Zero64, rest))
  }

  /** A gated int (lines 413-427): read only when the level is positive, else 0. */
  function GatedInt(rest: Bytes, level: int): Result<(int, Bytes), CFault>
  {
    if level > 0 then FreadInt(rest) else Ok((0, rest))
  }

  /** One record in the filling pass, with the given primary and step readers. */
  function CRecordWith(readPrimary: Reader<CPrimary, CFault>, readHit: Reader<CHit, CFault>, rest: Bytes)
    : (r: Result<(CRecord, Bytes), CFault>)
  {
    var primarySize :- FreadInt(rest);
    if primarySize.0 < 0 then Err(NegativeSize)
    else
      var primaries :- Many(readPrimary, primarySize.1, primarySize.0);
      RecordAfterPrimaries(readHit, primaries.0, primaries.1)
  }

  /** The rest of a record once its primaries are read: the record-level fields and the steps. */
  function RecordAfterPrimaries(readHit: Reader<CHit, CFault>, primaries: seq<CPrimary>, rest: Bytes)
    : (r: Result<(CRecord, Bytes), CFault>)
  {
    var fields :- RecordFields(rest);
    var hits :- Many(readHit, fields.1, fields.0.hitsSize);
    Ok((CRecord(fields.0, primaries, hits.0), hits.1))
  }

  /**
   * The record-level fields after the primaries (lines 368-432).
   * A negative step count makes `hit_len` fall short of the entries written.
   */
  function RecordFields(rest: Bytes): (r: Result<(CHead, Bytes), CFault>)
    ensures r.Ok? ==> r.value.0.hitsSize >= 0
  {
    var level :- FreadInt(rest);
    var optLevel :- FreadInt(level.1);
    var thermLevel :- FreadInt(optLevel.1);
    var volumeId :- FreadInt(thermLevel.1);
    var eventNum :- FreadInt(volumeId.1);
    var energy :- GatedDouble(eventNum.1, level.0);
    var numOpt :- GatedInt(energy.1, optLevel.0);
    var numTherm :- GatedInt(numOpt.1, thermLevel.0);
    var hitSize :- FreadInt(numTherm.1);
    if hitSize.0 < 0 then Err(NegativeSize)
    else
      Ok((CHead(level.0, optLevel.0, thermLevel.0, volumeId.0, eventNum.0,
                energy.0, numOpt.0, numTherm.0, hitSize.0), hitSize.1))
  }

  function CRecordAsWritten(rest: Bytes): Result<(CRecord, Bytes), CFault>
  {
    CRecordWith(CPrimaryAsWritten, CHitAsWritten, rest)
  }

  function CRecordIntended(rest: Bytes): Result<(CRecord, Bytes), CFault>
  {
    CRecordWith(CPrimaryIntended, CHitIntended, rest)
  }

  // ---------------------------------------------------------------------------
  // The two passes agree
  // ---------------------------------------------------------------------------

  /** `reader` ends wherever `skip` ends, and succeeds only where `skip` does. */
  ghost predicate Follows<T, U>(reader: Reader<T, CFault>, skip: Reader<U, CFault>)
  {
    forall r :: reader(r).Ok? ==> skip(r).Ok? && skip(r).value.1 == reader(r).value.1
  }

  lemma FreadNameSkips(rest: Bytes)
    ensures FreadName(rest).Ok? ==> SkipName(rest) == Ok(FreadName(rest).value.1)
  {
  }

  lemma PrimaryTailSkips(rest: Bytes)
    ensures PrimaryTail(rest).Ok? ==> PrimaryTail(rest).value.1 == SkipBytes(rest, 64)
  {
    var e := FreadDouble(rest);
    if e.Ok? {
      FreadDoubleSkips(rest);
      var t := FreadDouble(e.value.1);
      if t.Ok? {
        FreadDoubleSkips(e.value.1);
        SkipBytesTwice(rest, 8, 8);
        var p := FreadVec3(t.value.1);
        if p.Ok? {
          FreadVec3Skips(t.value.1);
          SkipBytesTwice(rest, 16, 24);
          FreadVec3Skips(p.value.1);
          SkipBytesTwice(rest, 40, 24);
        }
      }
    }
  }

  lemma HitTailSkips(names: (Bytes, Bytes), rest: Bytes)
    ensures HitTail(names, rest).Ok? ==> HitTail(names, rest).value.1 == SkipBytes(rest, 88)
  {
    if HitTail(names, rest).Ok? {
      var a := FreadInt(rest).value.1;
      var b := FreadInt(a).value.1;
      var c := FreadInt(b).value.1;
      var d := FreadInt(c).value.1;
      SkipBytesTwice(rest, 4, 4);
      SkipBytesTwice(rest, 8, 4);
      SkipBytesTwice(rest, 12, 4);
      var e := FreadDouble(d).value.1;
      FreadDoubleSkips(d);
      SkipBytesTwice(rest, 16, 8);
      var f := FreadVec3(e).value.1;
      FreadVec3Skips(e);
      SkipBytesTwice(rest, 24, 24);
      var g := FreadDouble(f).value.1;
      FreadDoubleSkips(f);
      SkipBytesTwice(rest, 48, 8);
      var h := FreadVec3(g).value.1;
      FreadVec3Skips(g);
      SkipBytesTwice(rest, 56, 24);
      FreadDoubleSkips(h);
      SkipBytesTwice(rest, 80, 8);
    }
  }

  /** Both primary readers cover exactly the bytes the counting pass skips. */
  lemma PrimariesFollow()
    ensures Follows(CPrimaryAsWritten, SkipPrimary) && Follows(CPrimaryIntended, SkipPrimary)
  {
    forall r | CPrimaryAsWritten(r).Ok? || CPrimaryIntended(r).Ok?
      ensures SkipPrimary(r).Ok?
      ensures CPrimaryAsWritten(r).Ok? ==> SkipPrimary(r).value.1 == CPrimaryAsWritten(r).value.1
      ensures CPrimaryIntended(r).Ok? ==> SkipPrimary(r).value.1 == CPrimaryIntended(r).value.1
    {
      var n := FreadInt(r).value;
      var name := FreadName(r).value;
      assert name.1 == SkipBytes(n.1, n.0);
      PrimaryTailSkips(name.1);
      SkipBytesTwice(n.1, n.0, 64);
    }
  }

  /** Each step reader covers exactly the bytes its counting-pass skip passes over. */
  lemma HitsFollow()
    ensures Follows(CHitAsWritten, SkipHitAsWritten) && Follows(CHitIntended, SkipHitIntended)
  {
    forall r | CHitAsWritten(r).Ok?
      ensures SkipHitAsWritten(r).Ok? && SkipHitAsWritten(r).value.1 == CHitAsWritten(r).value.1
    {
      var a := FreadName(r).value;
      var b := FreadName(a.1).value;
      FreadNameSkips(r);
      FreadNameSkips(a.1);
      HitTailSkips((a.0, b.0), b.1);
    }
    forall r | CHitIntended(r).Ok?
      ensures SkipHitIntended(r).Ok? && SkipHitIntended(r).value.1 == CHitIntended(r).value.1
    {
      var a := FreadName(r).value;
      var b := FreadName(a.1).value;
      var c := FreadName(b.1).value;
      FreadNameSkips(r);
      FreadNameSkips(a.1);
      FreadNameSkips(b.1);
      HitTailSkips((a.0, b.0), c.1);
    }
  }

  /** The record-level fields end where the counting pass reads the same step count. */
  lemma FieldsFollow(rest: Bytes)
    ensures RecordFields(rest).Ok? ==>
              SkipFields(rest) == Ok((RecordFields(rest).value.0.hitsSize, RecordFields(rest).value.1))
  {
    if RecordFields(rest).Ok? {
      var level := FreadInt(rest).value;
      var optLevel := FreadInt(level.1).value;
      var thermLevel := FreadInt(optLevel.1).value;
      var volumeId := FreadInt(thermLevel.1).value;
      var eventNum := FreadInt(volumeId.1).value;
      SkipBytesTwice(thermLevel.1, 4, 4);
      var energy := GatedDouble(eventNum.1, level.0).value;
      var g1 := if level.0 > 0 then 8 else 0;
      FreadDoubleSkips(eventNum.1);
      assert energy.1 == SkipBytes(eventNum.1, g1);
      SkipBytesTwice(thermLevel.1, 8, g1);
      var numOpt := GatedInt(energy.1, optLevel.0).value;
      var g2 := if optLevel.0 > 0 then 4 else 0;
      assert numOpt.1 == SkipBytes(energy.1, g2);
      SkipBytesTwice(thermLevel.1, 8 + g1, g2);
      var numTherm := GatedInt(numOpt.1, thermLevel.0).value;
      var g3 := if thermLevel.0 > 0 then 4 else 0;
      assert numTherm.1 == SkipBytes(numOpt.1, g3);
      SkipBytesTwice(thermLevel.1, 8 + g1 + g2, g3);
    }
  }

  /**
   * Where the filling pass reads a record, the counting pass reads it too,
   * ending at the same place, with the record's primary and step counts.
   */
  lemma RecordFollows(readPrimary: Reader<CPrimary, CFault>, readHit: Reader<CHit, CFault>,
                      skipHit: Reader<(), CFault>, rest: Bytes)
    requires Follows(readPrimary, SkipPrimary) && Follows(readHit, skipHit)
    ensures CRecordWith(readPrimary, readHit, rest).Ok? ==>
              var rec := CRecordWith(readPrimary, readHit, rest).value;
              SkipRecordWith(skipHit, rest) == Ok(((|rec.0.primaries|, |rec.0.hits|), rec.1))
  {
    if CRecordWith(readPrimary, readHit, rest).Ok? {
      var primarySize := FreadInt(rest).value;
      assert primarySize.0 >= 0;
      ManyFollows(readPrimary, SkipPrimary, primarySize.1, primarySize.0);
      var primaries := Many(readPrimary, primarySize.1, primarySize.0).value;
      var skipped := Many(SkipPrimary, primarySize.1, primarySize.0).value;
      assert skipped.1 == primaries.1;
      var after := RecordAfterPrimaries(readHit, primaries.0, primaries.1).value;
      FieldsFollow(primaries.1);
      var fields := RecordFields(primaries.1).value;
      ManyFollows(readHit, skipHit, fields.1, fields.0.hitsSize);
      var hits := Many(readHit, fields.1, fields.0.hitsSize).value;
      assert after == (CRecord(fields.0, primaries.0, hits.0), hits.1);
      assert SkipFields(skipped.1) == Ok((fields.0.hitsSize, fields.1));
    }
  }

  lemma RecordAsWrittenFollows(rest: Bytes)
    ensures CRecordAsWritten(rest).Ok? ==>
              var rec := CRecordAsWritten(rest).value;
              SkipRecordAsWritten(rest) == Ok(((|rec.0.primaries|, |rec.0.hits|), rec.1))
  {
    PrimariesFollow();
    HitsFollow();
    RecordFollows(CPrimaryAsWritten, CHitAsWritten, SkipHitAsWritten, rest);
  }

  lemma RecordIntendedFollows(rest: Bytes)
    ensures CRecordIntended(rest).Ok? ==>
              var rec := CRecordIntended(rest).value;
              SkipRecordIntended(rest) == Ok(((|rec.0.primaries|, |rec.0.hits|), rec.1))
  {
    PrimariesFollow();
    HitsFollow();
    RecordFollows(CPrimaryIntended, CHitIntended, SkipHitIntended, rest);
  }

  // ---------------------------------------------------------------------------
  // What the arrays hold after the filling pass
  // ---------------------------------------------------------------------------

  /** The entries `f` gives for each record, record after record. */
  function FlatMap<X>(recs: seq<CRecord>, f: CRecord -> seq<X>): seq<X>
  {
    if recs == [] then [] else FlatMap(recs[..|recs| - 1], f) + f(recs[|recs| - 1])
  }

  function RecPrimaries(rec: CRecord): seq<CPrimary> { rec.primaries }

  function RecHits(rec: CRecord): seq<CHit> { rec.hits }

  function RecEvents(rec: CRecord): seq<int> { seq(|rec.primaries|, _ => rec.head.eventNum) }

  /** The primaries of all records in file order: `primary_*` up to `pri_ctr`. */
  function AllCPrimaries(recs: seq<CRecord>): seq<CPrimary>
  {
    FlatMap(recs, RecPrimaries)
  }

  /** The step entries of all records in file order: the hit arrays up to `hit_ctr`. */
  function AllCHits(recs: seq<CRecord>): seq<CHit>
  {
    FlatMap(recs, RecHits)
  }

  /** `primary_event` (lines 402-407): each record's event number once per primary of that record. */
  function PrimaryEvents(recs: seq<CRecord>): seq<int>
  {
    FlatMap(recs, RecEvents)
  }

  lemma FlatMapAppend<X>(recs: seq<CRecord>, rec: CRecord, f: CRecord -> seq<X>)
    ensures FlatMap(recs + [rec], f) == FlatMap(recs, f) + f(rec)
  {
    assert (recs + [rec])[..|recs|] == recs;
  }

  lemma {:induction false} FlatMapConcat<X>(a: seq<CRecord>, b: seq<CRecord>, f: CRecord -> seq<X>)
    ensures FlatMap(a + b, f) == FlatMap(a, f) + FlatMap(b, f)
    decreases |b|
  {
    if b == [] {
      assert a + b == a;
    } else {
      var init := b[..|b| - 1];
      var last := b[|b| - 1];
      assert (a + b)[..|a + b| - 1] == a + init;
      assert (a + b)[|a + b| - 1] == last;
      assert FlatMap(a + b, f) == FlatMap(a + init, f) + f(last);
      FlatMapConcat(a, init, f);
      assert FlatMap(b, f) == FlatMap(init, f) + f(last);
    }
  }

  lemma FlatMapCons<X>(rec: CRecord, recs: seq<CRecord>, f: CRecord -> seq<X>)
    ensures FlatMap([rec] + recs, f) == f(rec) + FlatMap(recs, f)
  {
    FlatMapConcat([rec], recs, f);
    FlatMapAppend([], rec, f);
    assert [] + [rec] == [rec];
  }

  /** `record_hits_ind`: one more than the number of step entries before each record. */
  function HitsInd(recs: seq<CRecord>): (r: seq<int>)
    ensures |r| == |recs|
  {
    seq(|recs|, i requires 0 <= i < |recs| => |AllCHits(recs[..i])| + 1)
  }

  function Heads(recs: seq<CRecord>): (r: seq<CHead>)
    ensures |r| == |recs|
  {
    Column(recs, (rec: CRecord) => rec.head)
  }

  /**
   * The `record` struct, one sequence per group of columns: each field of a
   * `CHead`, `CPrimary` or `CHit` is one of its arrays.
   */
  datatype MexRecord = MexRecord(
    heads: seq<CHead>, recordHitsInd: seq<int>,
    primaries: seq<CPrimary>, primaryEventNum: seq<int>,
    hits: seq<CHit>)

  /** The `info` struct. */
  datatype MexInfo = MexInfo(header: Header, history: History, filename: Bytes)

  /** The outputs: two empty matrices when the file does not open (lines 40-53). */
  datatype MexResult = NotOpened | Opened(record: MexRecord, info: MexInfo)

  function OutputOf(recs: seq<CRecord>): MexRecord
  {
    MexRecord(Heads(recs), HitsInd(recs), AllCPrimaries(recs), PrimaryEvents(recs), AllCHits(recs))
  }

  /** `info`: the strings as `mxCreateString` reads them; the file name from `mxGetString`. */
  function InfoOf(pre: CPreamble, path: Bytes): MexInfo
  {
    MexInfo(pre.header, pre.history, CString(path))
  }

  /**
   * The MEX function as written: `file` is the file's contents, None when
   * `fopen` fails.  The counting pass runs first, then the filling pass.
   */
  function MexLoad(file: Option<Bytes>, path: Bytes): Result<MexResult, CFault>
  {
    if file.None? then Ok(NotOpened)
    else
      var pre :- ReadPreamble(file.value);
      if pre.0.numRecords < 0 then Err(NegativeSize)
      else
        var counts :- CountPass(SkipRecordAsWritten, pre.1, pre.0.numRecords);
        var recs :- Many(CRecordAsWritten, pre.1, pre.0.numRecords);
        Ok(Opened(OutputOf(recs.0), InfoOf(pre.0, path)))
  }

  // ---------------------------------------------------------------------------
  // The totals are the sizes the filling pass needs
  // ---------------------------------------------------------------------------

  lemma {:induction false} TotalsCons(c: (nat, nat), cs: seq<(nat, nat)>)
    ensures Totals([c] + cs) == (c.0 + Totals(cs).0, c.1 + Totals(cs).1)
    decreases |cs|
  {
    if cs != [] {
      var init := cs[..|cs| - 1];
      assert ([c] + cs)[..|cs|] == [c] + init;
      TotalsCons(c, init);
    } else {
      assert [c] + cs == [c];
      assert [c][..0] == [];
    }
  }

  /** `skip` counts, record by record, the primaries and steps `read` decodes. */
  ghost predicate Counts(read: Reader<CRecord, CFault>, skip: Reader<(nat, nat), CFault>)
  {
    forall r :: read(r).Ok? ==>
      skip(r) == Ok(((|read(r).value.0.primaries|, |read(r).value.0.hits|), read(r).value.1))
  }

  lemma CountsAsWritten()
    ensures Counts(CRecordAsWritten, SkipRecordAsWritten)
  {
    forall r | CRecordAsWritten(r).Ok?
      ensures SkipRecordAsWritten(r)
              == Ok(((|CRecordAsWritten(r).value.0.primaries|, |CRecordAsWritten(r).value.0.hits|),
                     CRecordAsWritten(r).value.1))
    {
      RecordAsWrittenFollows(r);
    }
  }

  lemma CountsIntended()
    ensures Counts(CRecordIntended, SkipRecordIntended)
  {
    forall r | CRecordIntended(r).Ok?
      ensures SkipRecordIntended(r)
              == Ok(((|CRecordIntended(r).value.0.primaries|, |CRecordIntended(r).value.0.hits|),
                     CRecordIntended(r).value.1))
    {
      RecordIntendedFollows(r);
    }
  }

  /**
   * Wherever the filling pass reads `n` records, the counting pass succeeds
   * on the same bytes, and `pri_len` and `hit_len` are exactly the numbers of
   * primaries and step entries it writes: no write falls outside the arrays.
   */
  lemma {:induction false} CountPassSizes(read: Reader<CRecord, CFault>, skip: Reader<(nat, nat), CFault>,
                                          rest: Bytes, n: int)
    requires Counts(read, skip)
    ensures Many(read, rest, n).Ok? ==>
              Many(skip, rest, n).Ok? && Many(skip, rest, n).value.1 == Many(read, rest, n).value.1
              && Totals(Many(skip, rest, n).value.0)
                 == (|AllCPrimaries(Many(read, rest, n).value.0)|, |AllCHits(Many(read, rest, n).value.0)|)
    decreases if n > 0 then n else 0
  {
    if n <= 0 {
      assert Many(read, rest, n) == Ok(([], rest));
    } else if read(rest).Ok? {
      var rec := read(rest).value;
      var c := skip(rest).value.0;
      assert Many(read, rest, n) == Cons(rec.0, Many(read, rec.1, n - 1));
      assert Many(skip, rest, n) == Cons(c, Many(skip, rec.1, n - 1));
      CountPassSizes(read, skip, rec.1, n - 1);
      var tail := Many(read, rec.1, n - 1);
      if tail.Ok? {
        TotalsCons(c, Many(skip, rec.1, n - 1).value.0);
        FlatMapCons(rec.0, tail.value.0, RecPrimaries);
        FlatMapCons(rec.0, tail.value.0, RecHits);
      }
    }
  }

  /** The counting pass adds no failure of its own: a load fails only where the filling pass does. */
  lemma MexLoadFails(file: Bytes, path: Bytes)
    ensures MexLoad(Some(file), path).Ok? <==>
              ReadPreamble(file).Ok? && ReadPreamble(file).value.0.numRecords >= 0
              && Many(CRecordAsWritten, ReadPreamble(file).value.1, ReadPreamble(file).value.0.numRecords).Ok?
  {
    if ReadPreamble(file).Ok? {
      CountsAsWritten();
      CountPassSizes(CRecordAsWritten, SkipRecordAsWritten,
                     ReadPreamble(file).value.1, ReadPreamble(file).value.0.numRecords);
    }
  }

  /**
   * Primary `j` of record `i` sits at index `k` of the primary arrays, and
   * `primary_event` at `k` is that record's event number.
   */
  lemma PrimaryEventAt(recs: seq<CRecord>, i: nat, j: nat)
    requires i < |recs| && j < |recs[i].primaries|
    ensures var k := |AllCPrimaries(recs[..i])| + j;
            k < |AllCPrimaries(recs)| && k < |PrimaryEvents(recs)|
            && AllCPrimaries(recs)[k] == recs[i].primaries[j]
            && PrimaryEvents(recs)[k] == recs[i].head.eventNum
  {
    var k := |AllCPrimaries(recs[..i])| + j;
    assert recs == (recs[..i] + [recs[i]]) + recs[i + 1..];
    FlatMapConcat(recs[..i] + [recs[i]], recs[i + 1..], RecPrimaries);
    FlatMapAppend(recs[..i], recs[i], RecPrimaries);
    FlatMapConcat(recs[..i] + [recs[i]], recs[i + 1..], RecEvents);
    FlatMapAppend(recs[..i], recs[i], RecEvents);
    PrimaryEventsLength(recs[..i]);
  }

  lemma {:induction false} PrimaryEventsLength(recs: seq<CRecord>)
    ensures |PrimaryEvents(recs)| == |AllCPrimaries(recs)|
    decreases |recs|
  {
    if recs != [] {
      PrimaryEventsLength(recs[..|recs| - 1]);
    }
  }

  /**
   * `record_hits_ind` of record `i`, counted from one as MATLAB indexes,
   * points at that record's first step entry, and its entries follow.
   */
  lemma HitsIndAt(recs: seq<CRecord>, i: nat, j: nat)
    requires i < |recs| && j < |recs[i].hits|
    ensures var k := HitsInd(recs)[i] - 1 + j;
            0 <= k < |AllCHits(recs)| && AllCHits(recs)[k] == recs[i].hits[j]
  {
    assert recs == (recs[..i] + [recs[i]]) + recs[i + 1..];
    FlatMapConcat(recs[..i] + [recs[i]], recs[i + 1..], RecHits);
    FlatMapAppend(recs[..i], recs[i], RecHits);
  }

  // ---------------------------------------------------------------------------
  // The MEX function
  // ---------------------------------------------------------------------------

  /** One record of the counting pass (lines 184-249), with its two skipping loops. */
  method SkipRecord(rest: Bytes) returns (res: Result<((nat, nat), Bytes), CFault>)
    ensures res == SkipRecordAsWritten(rest)
  {
    var primarySize :- FreadInt(rest);
    if primarySize.0 < 0 {
      return Err(NegativeSize);
    }
    var primaries :- ReadMany(SkipPrimary, primarySize.1, primarySize.0);
    var hitSize :- SkipFields(primaries.1);
    var hits :- ReadMany(SkipHitAsWritten, hitSize.1, hitSize.0);
    return Ok(((primarySize.0, hitSize.0), hits.1));
  }

  lemma TotalsAppend(cs: seq<(nat, nat)>, c: (nat, nat))
    ensures Totals(cs + [c]) == (Totals(cs).0 + c.0, Totals(cs).1 + c.1)
  {
    assert (cs + [c])[..|cs|] == cs;
  }

  /** One record counted: it moves from the records still to read to the counts so far. */
  lemma CountStep(skip: Reader<(nat, nat), CFault>, rest: Bytes, left: int, counts: seq<(nat, nat)>,
                  x: (nat, nat), after: Bytes)
    requires left > 0 && skip(rest) == Ok((x, after))
    ensures Prepend(counts, Many(skip, rest, left)) == Prepend(counts + [x], Many(skip, after, left - 1))
    ensures Totals(counts + [x]) == (Totals(counts).0 + x.0, Totals(counts).1 + x.1)
  {
    var tail := Many(skip, after, left - 1);
    assert Many(skip, rest, left) == Cons(x, tail);
    PrependCons(counts, x, tail);
    TotalsAppend(counts, x);
  }

  /** With no record left to read, the counts so far are the whole pass. */
  lemma CountDone(skip: Reader<(nat, nat), CFault>, rest: Bytes, left: int, counts: seq<(nat, nat)>)
    requires left <= 0
    ensures Prepend(counts, Many(skip, rest, left)) == Ok((counts, rest))
  {
    assert counts + [] == counts;
  }

  /** A record that cannot be skipped ends the counting pass with its error. */
  lemma CountFails(skip: Reader<(nat, nat), CFault>, rest: Bytes, left: int, counts: seq<(nat, nat)>, e: CFault)
    requires left > 0 && skip(rest) == Err(e)
    ensures Prepend(counts, Many(skip, rest, left)) == Err(e)
  {
    assert Many(skip, rest, left) == Err(e);
  }

  /**
   * The loop of lines 174-250 for any way of skipping one record: the sizes
   * of the records skipped are summed into `pri_len` and `hit_len`, and the
   * first record that cannot be skipped ends the pass.
   */
  method CountWith(skip: Reader<(nat, nat), CFault>, rest0: Bytes, n: int) returns (res: Result<(nat, nat), CFault>)
    ensures res == CountPass(skip, rest0, n)
  {
    var priLen: nat := 0;
    var hitLen: nat := 0;
    var rest := rest0;
    ghost var counts: seq<(nat, nat)> := [];
    var k := 0;
    ghost var left := n;
    PrependNothing(Many(skip, rest0, n));
    while k < n
      invariant 0 <= k && (n > 0 ==> k <= n)
      invariant left == n - k
      invariant Many(skip, rest0, n) == Prepend(counts, Many(skip, rest, left))
      invariant priLen == Totals(counts).0 && hitLen == Totals(counts).1
    {
      var c := skip(rest);
      if c.Err? {
        CountFails(skip, rest, left, counts, c.error);
        return Err(c.error);
      }
      CountStep(skip, rest, left, counts, c.value.0, c.value.1);
      priLen := priLen + c.value.0.0;
      hitLen := hitLen + c.value.0.1;
      counts := counts + [c.value.0];
      rest := c.value.1;
      k := k + 1;
      left := left - 1;
    }
    CountDone(skip, rest, left, counts);
    return Ok((priLen, hitLen));
  }

  /** The counting pass (lines 174-250): `pri_len` and `hit_len`, each record skipped as `SkipRecord` does. */
  method CountRecords(rest0: Bytes, n: int) returns (res: Result<(nat, nat), CFault>)
    ensures res == CountPass(SkipRecordAsWritten, rest0, n)
  {
    res := CountWith(SkipRecordAsWritten, rest0, n);
  }

  /**
   * One record of the filling pass (lines 316-432, 440-516), decoded with
   * the same reads in the same order as the C loop.
   */
  method ReadRecord(rest: Bytes) returns (res: Result<(CRecord, Bytes), CFault>)
    ensures res == CRecordAsWritten(rest)
  {
    var primarySize :- FreadInt(rest);
    if primarySize.0 < 0 {
      return Err(NegativeSize);
    }
    var primaries :- ReadMany(CPrimaryAsWritten, primarySize.1, primarySize.0);
    var fields :- RecordFields(primaries.1);
    var hits :- ReadMany(CHitAsWritten, fields.1, fields.0.hitsSize);
    return Ok((CRecord(fields.0, primaries.0, hits.0), hits.1));
  }

  /** The loop of lines 402-407: the record's event number for each of its primaries. */
  method FillEvents(events: array<int>, at: nat, size: nat, eventNum: int)
    requires at + size <= events.Length
    modifies events
    ensures events[..at + size] == old(events[..at]) + seq(size, _ => eventNum)
  {
    var j := 0;
    while j < size
      invariant 0 <= j <= size
      invariant events[..at + j] == old(events[..at]) + seq(j, _ => eventNum)
    {
      events[at + j] := eventNum;
      j := j + 1;
    }
  }

  lemma HeadsAppend(recs: seq<CRecord>, rec: CRecord)
    ensures Heads(recs + [rec]) == Heads(recs) + [rec.head]
  {
  }

  /** A new record's `record_hits_ind` is one more than the step entries stored before it. */
  lemma HitsIndAppend(recs: seq<CRecord>, rec: CRecord)
    ensures HitsInd(recs + [rec]) == HitsInd(recs) + [|AllCHits(recs)| + 1]
  {
    assert (recs + [rec])[..|recs|] == recs;
    forall i | 0 <= i < |recs|
      ensures HitsInd(recs + [rec])[i] == HitsInd(recs)[i]
    {
      assert (recs + [rec])[..i] == recs[..i];
    }
  }

  /**
   * The array writes of one record: its record-level entries at `ii`, its
   * primaries and their event numbers from `pri_ctr` on, its step entries
   * from `hit_ctr` on.  With `recs` the records stored so far, the arrays
   * then hold the outputs for `recs` and this record.
   */
  method StoreRecord(rec: CRecord, ghost recs: seq<CRecord>,
                     heads: array<CHead>, hitsInd: array<int>,
                     prims: array<CPrimary>, events: array<int>, hits: array<CHit>,
                     ii: nat, priCtr: nat, hitCtr: nat)
    requires ii < heads.Length == hitsInd.Length && events.Length == prims.Length && events != hitsInd
    requires priCtr + |rec.primaries| <= prims.Length && hitCtr + |rec.hits| <= hits.Length
    requires prims[..priCtr] == AllCPrimaries(recs) && events[..priCtr] == PrimaryEvents(recs)
    requires hits[..hitCtr] == AllCHits(recs) && heads[..ii] == Heads(recs) && hitsInd[..ii] == HitsInd(recs)
    modifies heads, hitsInd, prims, events, hits
    ensures prims[..priCtr + |rec.primaries|] == AllCPrimaries(recs + [rec])
    ensures events[..priCtr + |rec.primaries|] == PrimaryEvents(recs + [rec])
    ensures hits[..hitCtr + |rec.hits|] == AllCHits(recs + [rec])
    ensures heads[..ii + 1] == Heads(recs + [rec]) && hitsInd[..ii + 1] == HitsInd(recs + [rec])
  {
    heads[ii] := rec.head;
    hitsInd[ii] := hitCtr + 1;
    StoreAll(prims, priCtr, rec.primaries);
    FillEvents(events, priCtr, |rec.primaries|, rec.head.eventNum);
    StoreAll(hits, hitCtr, rec.hits);
    FlatMapAppend(recs, rec, RecPrimaries);
    FlatMapAppend(recs, rec, RecEvents);
    FlatMapAppend(recs, rec, RecHits);
    HeadsAppend(recs, rec);
    HitsIndAppend(recs, rec);
  }

  /** One more record of the counted ones still fits in the arrays sized for all of them. */
  lemma StoreStep(recs: seq<CRecord>, ii: nat, done: seq<CRecord>)
    requires ii < |recs| && done == recs[..ii]
    ensures done + [recs[ii]] == recs[..ii + 1]
    ensures |AllCPrimaries(done)| + |recs[ii].primaries| <= |AllCPrimaries(recs)|
    ensures |AllCHits(done)| + |recs[ii].hits| <= |AllCHits(recs)|
  {
    FlatMapPrefix(recs, ii, RecPrimaries);
    FlatMapPrefix(recs, ii, RecHits);
  }

  /**
   * `mexFunction` (lines 23-705): the header block, the counting pass, the
   * allocation of the output arrays at the counted sizes, and the filling
   * pass.
   */
  method MexFunction(file: Option<Bytes>, path: Bytes) returns (r: Result<MexResult, CFault>)
    ensures r == MexLoad(file, path)
  {
    if file.None? {
      return Ok(NotOpened);
    }
    var pre :- ReadPreamble(file.value);
    var numRecords := pre.0.numRecords;
    if numRecords < 0 {
      return Err(NegativeSize);
    }
    var lens :- CountRecords(pre.1, numRecords);
    var out :- FillRecords(pre.1, numRecords, lens.0, lens.1);
    r := Ok(Opened(out, InfoOf(pre.0, path)));
  }

  /**
   * The filling pass (lines 310-522): the records decoded at the position the
   * counting pass started from, then stored into the output arrays.
   */
  method FillRecords(rest0: Bytes, numRecords: nat, priLen: nat, hitLen: nat) returns (r: Result<MexRecord, CFault>)
    requires CountPass(SkipRecordAsWritten, rest0, numRecords) == Ok((priLen, hitLen))
    ensures var m := Many(CRecordAsWritten, rest0, numRecords);
            r == if m.Ok? then Ok(OutputOf(m.value.0)) else Err(m.error)
  {
    var recs :- ReadMany(CRecordAsWritten, rest0, numRecords);
    CountsAsWritten();
    CountPassSizes(CRecordAsWritten, SkipRecordAsWritten, rest0, numRecords);
    var out := StoreRecords(recs.0, priLen, hitLen);
    return Ok(out);
  }

  /** The entries of the first `k` records come first, and no more of them than of all the records. */
  lemma FlatMapPrefix<X>(recs: seq<CRecord>, k: nat, f: CRecord -> seq<X>)
    requires k < |recs|
    ensures recs[..k + 1] == recs[..k] + [recs[k]]
    ensures FlatMap(recs[..k + 1], f) == FlatMap(recs[..k], f) + f(recs[k])
    ensures |FlatMap(recs[..k + 1], f)| <= |FlatMap(recs, f)|
  {
    assert recs[..k + 1] == recs[..k] + [recs[k]];
    FlatMapAppend(recs[..k], recs[k], f);
    assert recs == recs[..k + 1] + recs[k + 1..];
    FlatMapConcat(recs[..k + 1], recs[k + 1..], f);
  }

  /**
   * The output arrays allocated at the counted sizes (lines 156-170,
   * 259-300); the counts are exactly what the records need.
   */
  method StoreRecords(recs: seq<CRecord>, priLen: nat, hitLen: nat) returns (out: MexRecord)
    requires priLen == |AllCPrimaries(recs)| && hitLen == |AllCHits(recs)|
    ensures out == OutputOf(recs)
  {
    var zero := Vec3(Zero64, Zero64, Zero64);
    var heads := new CHead[|recs|](_ => CHead(0, 0, 0, 0, 0, Zero64, 0, 0, 0));
    var hitsInd := new int[|recs|](_ => 0);
    var prims := new CPrimary[priLen](_ => CPrimary([], None, Zero64, zero, zero));
    var events := new int[priLen](_ => 0);
    var hits := new CHit[hitLen](_ => CHit([], [], 0, 0, 0, 0, Zero64, zero, Zero64, zero, Zero64));
    FillArrays(recs, heads, hitsInd, prims, events, hits);
    out := MexRecord(heads[..], hitsInd[..], prims[..], events[..], hits[..]);
  }

  /**
   * The filling pass (lines 310-522): `pri_ctr` and `hit_ctr` advance
   * through the arrays record by record and fill them exactly.
   */
  method FillArrays(recs: seq<CRecord>, heads: array<CHead>, hitsInd: array<int>,
                    prims: array<CPrimary>, events: array<int>, hits: array<CHit>)
    requires heads.Length == hitsInd.Length == |recs| && events != hitsInd
    requires prims.Length == events.Length == |AllCPrimaries(recs)| && hits.Length == |AllCHits(recs)|
    modifies heads, hitsInd, prims, events, hits
    ensures heads[..] == Heads(recs) && hitsInd[..] == HitsInd(recs)
    ensures prims[..] == AllCPrimaries(recs) && events[..] == PrimaryEvents(recs)
    ensures hits[..] == AllCHits(recs)
  {
    var priCtr: nat, hitCtr: nat := 0, 0;
    var ii := 0;
    ghost var done: seq<CRecord> := [];
    while ii < |recs|
      invariant 0 <= ii <= |recs| && done == recs[..ii]
      invariant priCtr == |AllCPrimaries(done)| <= prims.Length && hitCtr == |AllCHits(done)| <= hits.Length
      invariant prims[..priCtr] == AllCPrimaries(done) && events[..priCtr] == PrimaryEvents(done)
      invariant hits[..hitCtr] == AllCHits(done)
      invariant heads[..ii] == Heads(done) && hitsInd[..ii] == HitsInd(done)
    {
      var rec := recs[ii];
      StoreStep(recs, ii, done);
      StoreRecord(rec, done, heads, hitsInd, prims, events, hits, ii, priCtr, hitCtr);
      done := done + [rec];
      priCtr := priCtr + |rec.primaries|;
      hitCtr := hitCtr + |rec.hits|;
      ii := ii + 1;
    }
    assert done == recs;
    assert heads[..] == heads[..ii] && hitsInd[..] == hitsInd[..ii];
    assert prims[..] == prims[..priCtr] && events[..] == events[..priCtr] && hits[..] == hits[..hitCtr];
  }

  // ---------------------------------------------------------------------------
  // The reader as evidently intended, and what it reads back
  // ---------------------------------------------------------------------------

  /**
   * The preamble with the test of line 114 made to mean what it is there
   * for: a file that ends right after the header has no history block.
   */
  function ReadPreambleIntended(file: Bytes): (r: Result<(CPreamble, Bytes), CFault>)
    ensures ReadPreamble(file).Ok? ==> r == ReadPreamble(file)
  {
    var count :- FreadInt(file);
    var header :- ReadHeader(count.1);
    if !header.2 && header.1 != [] then
      var history :- ReadHistory(header.1);
      Ok((CPreamble(count.0, header.0, history.0), history.1))
    else
      Ok((CPreamble(count.0, header.0, History([], [], [])), header.1))
  }

  /** The MEX function with the three corrections: the end-of-file test, three step names, the primary energy. */
  function MexLoadIntended(file: Option<Bytes>, path: Bytes): Result<MexResult, CFault>
  {
    if file.None? then Ok(NotOpened)
    else
      var pre :- ReadPreambleIntended(file.value);
      if pre.0.numRecords < 0 then Err(NegativeSize)
      else
        var counts :- CountPass(SkipRecordIntended, pre.1, pre.0.numRecords);
        var recs :- Many(CRecordIntended, pre.1, pre.0.numRecords);
        Ok(Opened(OutputOf(recs.0), InfoOf(pre.0, path)))
  }

  /** A primary as the arrays hold it once read back: the name up to its first NUL. */
  function CPrimaryOf(p: Primary): CPrimary
  {
    CPrimary(CString(p.name), Some(p.energy), p.time, p.position, p.direction)
  }

  /** A step entry as the arrays hold it once read back: the creator process is `process_name`. */
  function CHitOf(s: Step): CHit
  {
    CHit(CString(s.particleName), CString(s.creatorProcess),
         s.stepNumber, s.particleId, s.trackId, s.parentId,
         s.particleEnergy, s.direction, s.energyDeposition, s.position, s.stepTime)
  }

  function CRecordOf(r: Record): CRecord
  {
    CRecord(CHead(r.recordLevel, r.optLevel, r.thermLevel, r.volumeId, r.eventNum,
                  r.totalEnergy, r.numOpt, r.numTherm, |r.steps|),
            Column(r.primaries, CPrimaryOf), Column(r.steps, CHitOf))
  }

  function HeaderOf(h: Header): Header
  {
    Header(CString(h.productionTime), CString(h.geant4Version), CString(h.revision), CString(h.computerName))
  }

  /** The history strings as read back; empty when the file has no history block. */
  function HistoryOf(hist: Option<History>): History
  {
    if hist.None? then History([], [], [])
    else History(CString(hist.value.commands), CString(hist.value.diffs), CString(hist.value.componentTable))
  }

  lemma FreadIntOf(x: int, rest: Bytes)
    requires IsInt32(x)
    ensures FreadInt(EncodeInt32(x) + rest) == Ok((x, rest))
  {
    var b := EncodeInt32(x) + rest;
    assert b[..4] == EncodeInt32(x) && b[4..] == rest;
    Int32RoundTrip(x);
  }

  lemma FreadDoubleOf(d: F64, rest: Bytes)
    ensures FreadDouble(d + rest) == Ok((d, rest))
  {
    assert (d + rest)[..8] == d && (d + rest)[8..] == rest;
  }

  lemma FreadVec3Of(v: Vec3, rest: Bytes)
    ensures FreadVec3(EncodeVec3(v) + rest) == Ok((v, rest))
  {
    assert EncodeVec3(v) + rest == v.x + (v.y + (v.z + rest));
    FreadDoubleOf(v.x, v.y + (v.z + rest));
    FreadDoubleOf(v.y, v.z + rest);
    FreadDoubleOf(v.z, rest);
  }

  /** A name the writer wrote reads back as its bytes up to the first NUL. */
  lemma FreadNameOf(s: Bytes, rest: Bytes)
    requires StringOk(s)
    ensures FreadName(EncodeString(s) + rest) == Ok((CString(s), rest))
  {
    assert EncodeString(s) + rest == EncodeInt32(|s|) + (s + rest);
    FreadIntOf(|s|, s + rest);
    assert (s + rest)[..|s|] == s && (s + rest)[|s|..] == rest;
  }

  /** A header string the writer wrote reads back whole, without setting the end-of-file flag. */
  lemma HeaderStringOf(s: Bytes, rest: Bytes)
    requires StringOk(s)
    ensures HeaderString(EncodeString(s) + rest) == Ok((CString(s), rest, false))
  {
    assert EncodeString(s) + rest == EncodeInt32(|s|) + (s + rest);
    FreadIntOf(|s|, s + rest);
    assert (s + rest)[..|s|] == s && (s + rest)[|s|..] == rest;
  }

  lemma PrimaryTailOf(p: Primary, rest: Bytes)
    ensures PrimaryTail(p.energy + p.time + EncodeVec3(p.position) + EncodeVec3(p.direction) + rest)
            == Ok(((p.energy, p.time, p.position, p.direction), rest))
  {
    var b2 := EncodeVec3(p.direction) + rest;
    var b1 := EncodeVec3(p.position) + b2;
    assert p.energy + p.time + EncodeVec3(p.position) + EncodeVec3(p.direction) + rest == p.energy + (p.time + b1);
    FreadDoubleOf(p.energy, p.time + b1);
    FreadDoubleOf(p.time, b1);
    FreadVec3Of(p.position, b2);
    FreadVec3Of(p.direction, rest);
  }

  lemma CPrimaryIntendedOf(p: Primary, rest: Bytes)
    requires PrimaryOk(p)
    ensures CPrimaryIntended(EncodePrimary(p) + rest) == Ok((CPrimaryOf(p), rest))
  {
    var b := p.energy + p.time + EncodeVec3(p.position) + EncodeVec3(p.direction) + rest;
    assert EncodePrimary(p) + rest == EncodeString(p.name) + b;
    FreadNameOf(p.name, b);
    PrimaryTailOf(p, rest);
  }

  lemma HitTailOf(s: Step, rest: Bytes)
    requires StepOk(s)
    ensures HitTail((CString(s.particleName), CString(s.creatorProcess)), StepPayload(s) + rest) == Ok((CHitOf(s), rest))
  {
    var b9 := s.stepTime + rest;
    var b8 := EncodeVec3(s.position) + b9;
    var b7 := s.energyDeposition + b8;
    var b6 := EncodeVec3(s.direction) + b7;
    var b5 := s.particleEnergy + b6;
    var b4 := EncodeInt32(s.parentId) + b5;
    var b3 := EncodeInt32(s.trackId) + b4;
    var b2 := EncodeInt32(s.particleId) + b3;
    assert StepPayload(s) + rest == EncodeInt32(s.stepNumber) + b2;
    FreadIntOf(s.stepNumber, b2);
    FreadIntOf(s.particleId, b3);
    FreadIntOf(s.trackId, b4);
    FreadIntOf(s.parentId, b5);
    FreadDoubleOf(s.particleEnergy, b6);
    FreadVec3Of(s.direction, b7);
    FreadDoubleOf(s.energyDeposition, b8);
    FreadVec3Of(s.position, b9);
    FreadDoubleOf(s.stepTime, rest);
  }

  lemma CHitIntendedOf(s: Step, rest: Bytes)
    requires StepOk(s)
    ensures CHitIntended(EncodeStep(s) + rest) == Ok((CHitOf(s), rest))
  {
    var b := StepPayload(s) + rest;
    var b2 := EncodeString(s.stepProcess) + b;
    var b1 := EncodeString(s.creatorProcess) + b2;
    assert EncodeStep(s) + rest == EncodeString(s.particleName) + b1;
    FreadNameOf(s.particleName, b1);
    FreadNameOf(s.creatorProcess, b2);
    FreadNameOf(s.stepProcess, b);
    HitTailOf(s, rest);
  }

  lemma GatedOf(r: Record, rest: Bytes)
    requires RecordOk(r)
    ensures GatedDouble(EncodeTotals(r) + rest, r.recordLevel).Ok?
    ensures var e := GatedDouble(EncodeTotals(r) + rest, r.recordLevel).value;
            e.0 == r.totalEnergy
            && GatedInt(e.1, r.optLevel).Ok?
            && GatedInt(e.1, r.optLevel).value.0 == r.numOpt
            && GatedInt(GatedInt(e.1, r.optLevel).value.1, r.thermLevel) == Ok((r.numTherm, rest))
  {
    var b3 := (if r.thermLevel > 0 then EncodeInt32(r.numTherm) else []) + rest;
    var b2 := (if r.optLevel > 0 then EncodeInt32(r.numOpt) else []) + b3;
    var b1 := (if r.recordLevel > 0 then r.totalEnergy else []) + b2;
    assert EncodeTotals(r) + rest == b1;
    if r.recordLevel > 0 {
      FreadDoubleOf(r.totalEnergy, b2);
    } else {
      assert b1 == b2;
    }
    if r.optLevel > 0 {
      FreadIntOf(r.numOpt, b3);
    } else {
      assert b2 == b3;
    }
    if r.thermLevel > 0 {
      FreadIntOf(r.numTherm, rest);
    } else {
      assert b3 == rest;
    }
  }

  lemma RecordFieldsOf(r: Record, rest: Bytes)
    requires RecordOk(r)
    ensures RecordFields(RecordFieldBytes(r) + rest) == Ok((CRecordOf(r).head, EncodeSteps(r.steps) + rest))
  {
    var b9 := EncodeSteps(r.steps) + rest;
    var b8 := EncodeInt32(|r.steps|) + b9;
    var b7 := EncodeTotals(r) + b8;
    var b6 := EncodeInt32(r.eventNum) + b7;
    var b5 := EncodeInt32(r.volumeId) + b6;
    var b4 := EncodeInt32(r.thermLevel) + b5;
    var b3 := EncodeInt32(r.optLevel) + b4;
    RecordFieldSplit(r, rest);
    FreadIntOf(r.recordLevel, b3);
    FreadIntOf(r.optLevel, b4);
    FreadIntOf(r.thermLevel, b5);
    FreadIntOf(r.volumeId, b6);
    FreadIntOf(r.eventNum, b7);
    GatedOf(r, b8);
    FreadIntOf(|r.steps|, b9);
  }

  lemma CPrimariesIntendedOf(ps: seq<Primary>, rest: Bytes)
    requires forall i :: 0 <= i < |ps| ==> PrimaryOk(ps[i])
    ensures Many(CPrimaryIntended, EncodePrimaries(ps) + rest, |ps|) == Ok((Column(ps, CPrimaryOf), rest))
  {
    forall i, r | 0 <= i < |ps|
      ensures CPrimaryIntended(EncodePrimary(ps[i]) + r) == Ok((CPrimaryOf(ps[i]), r))
    {
      CPrimaryIntendedOf(ps[i], r);
    }
    ManyMap(CPrimaryIntended, EncodePrimary, CPrimaryOf, ps, rest);
  }

  lemma CHitsIntendedOf(ss: seq<Step>, rest: Bytes)
    requires forall i :: 0 <= i < |ss| ==> StepOk(ss[i])
    ensures Many(CHitIntended, EncodeSteps(ss) + rest, |ss|) == Ok((Column(ss, CHitOf), rest))
  {
    forall i, r | 0 <= i < |ss|
      ensures CHitIntended(EncodeStep(ss[i]) + r) == Ok((CHitOf(ss[i]), r))
    {
      CHitIntendedOf(ss[i], r);
    }
    ManyMap(CHitIntended, EncodeStep, CHitOf, ss, rest);
  }

  lemma AfterPrimariesOf(r: Record, rest: Bytes)
    requires RecordOk(r)
    ensures RecordAfterPrimaries(CHitIntended, Column(r.primaries, CPrimaryOf), RecordFieldBytes(r) + rest)
            == Ok((CRecordOf(r), rest))
  {
    RecordFieldsOf(r, rest);
    CHitsIntendedOf(r.steps, rest);
  }

  /** A record the writer wrote reads back, through the corrected reader, as `CRecordOf` of it. */
  lemma CRecordIntendedOf(r: Record, rest: Bytes)
    requires RecordOk(r)
    ensures CRecordIntended(EncodeRecord(r) + rest) == Ok((CRecordOf(r), rest))
  {
    var b1 := RecordFieldBytes(r) + rest;
    var b0 := EncodePrimaries(r.primaries) + b1;
    RecordSplit(r, rest);
    FreadIntOf(|r.primaries|, b0);
    CPrimariesIntendedOf(r.primaries, b1);
    AfterPrimariesOf(r, rest);
  }

  lemma CRecordsIntendedOf(rs: seq<Record>, rest: Bytes)
    requires forall i :: 0 <= i < |rs| ==> RecordOk(rs[i])
    ensures Many(CRecordIntended, EncodeRecords(rs) + rest, |rs|) == Ok((Column(rs, CRecordOf), rest))
  {
    forall i, r | 0 <= i < |rs|
      ensures CRecordIntended(EncodeRecord(rs[i]) + r) == Ok((CRecordOf(rs[i]), r))
    {
      CRecordIntendedOf(rs[i], r);
    }
    ManyMap(CRecordIntended, EncodeRecord, CRecordOf, rs, rest);
  }

  lemma ReadHeaderOf(h: Header, rest: Bytes)
    requires HeaderOk(h)
    ensures ReadHeader(EncodeHeader(h) + rest) == Ok((HeaderOf(h), rest, false))
  {
    var b3 := EncodeString(h.computerName) + rest;
    var b2 := EncodeString(h.revision) + b3;
    var b1 := EncodeString(h.geant4Version) + b2;
    assert EncodeHeader(h) + rest == EncodeString(h.productionTime) + b1;
    HeaderStringOf(h.productionTime, b1);
    HeaderStringOf(h.geant4Version, b2);
    HeaderStringOf(h.revision, b3);
    HeaderStringOf(h.computerName, rest);
  }

  lemma ReadHistoryOf(hs: History, rest: Bytes)
    requires HistoryOk(hs)
    ensures ReadHistory(EncodeHistory(hs) + rest) == Ok((HistoryOf(Some(hs)), rest))
  {
    var c2 := EncodeString(hs.componentTable) + rest;
    var c1 := EncodeString(hs.diffs) + c2;
    assert EncodeHistory(hs) + rest == EncodeString(hs.commands) + c1;
    HeaderStringOf(hs.commands, c1);
    HeaderStringOf(hs.diffs, c2);
    HeaderStringOf(hs.componentTable, rest);
  }

  /** The corrected preamble reads back the header and, when there is one, the history. */
  lemma PreambleIntendedOf(h: Header, hist: Option<History>, rs: seq<Record>)
    requires FileOk(h, hist, rs) && (hist.Some? || rs == [])
    ensures ReadPreambleIntended(EncodeFile(|rs|, h, hist, rs))
            == Ok((CPreamble(|rs|, HeaderOf(h), HistoryOf(hist)), EncodeRecords(rs)))
  {
    var tail := EncodeOptHistory(hist) + EncodeRecords(rs);
    FileParts(|rs|, h, hist, rs);
    FreadIntOf(|rs|, EncodeHeader(h) + tail);
    ReadHeaderOf(h, tail);
    if hist.Some? {
      ReadHistoryOf(hist.value, EncodeRecords(rs));
    } else {
      assert tail == [] && EncodeRecords(rs) == [];
    }
  }

  /**
   * Round trip of the corrected reader: a closed file the writer produced
   * loads as the records it holds, the strings up to their first NUL.  A
   * file without a history block is one whose run recorded no events.
   */
  lemma MexLoadIntendedRoundTrip(h: Header, hist: Option<History>, rs: seq<Record>, path: Bytes)
    requires FileOk(h, hist, rs) && (hist.Some? || rs == [])
    ensures MexLoadIntended(Some(EncodeFile(|rs|, h, hist, rs)), path)
            == Ok(Opened(OutputOf(Column(rs, CRecordOf)), MexInfo(HeaderOf(h), HistoryOf(hist), CString(path))))
  {
    PreambleIntendedOf(h, hist, rs);
    assert EncodeRecords(rs) + [] == EncodeRecords(rs);
    CRecordsIntendedOf(rs, []);
    CountsIntended();
    CountPassSizes(CRecordIntended, SkipRecordIntended, EncodeRecords(rs), |rs|);
  }

  // ---------------------------------------------------------------------------
  // What the reader as written makes of the writer's files
  // ---------------------------------------------------------------------------

  /** The fixed part of a step entry succeeds whenever 88 bytes are left, taking its step number from the first four. */
  lemma HitTailLong(names: (Bytes, Bytes), b: Bytes)
    requires |b| >= 88
    ensures HitTail(names, b).Ok?
    ensures HitTail(names, b).value.0.stepNumber == DecodeInt32(b[..4])
    ensures HitTail(names, b).value.1 == b[88..]
  {
    assert b[4..][4..][4..][4..] == b[16..];
    assert b[16..][8..] == b[24..];
    assert b[24..][8..][8..][8..] == b[48..];
    assert b[48..][8..] == b[56..];
    assert b[56..][8..][8..][8..] == b[80..];
    HitTailSkips(names, b);
  }

  /**
   * The as-written step reader takes the length of the step-process name,
   * which it does not expect, for the step number, and leaves the last
   * `4 + |stepProcess|` bytes of the entry unread: every later field is
   * read out of place.
   */
  lemma TwoNameReaderMisreads(s: Step, rest: Bytes)
    requires StepOk(s)
    ensures CHitAsWritten(EncodeStep(s) + rest).Ok?
    ensures CHitAsWritten(EncodeStep(s) + rest).value.0.stepNumber == |s.stepProcess|
    ensures |CHitAsWritten(EncodeStep(s) + rest).value.1| == |rest| + 4 + |s.stepProcess|
    ensures CHitAsWritten(EncodeStep(s) + rest) != Ok((CHitOf(s), rest))
  {
    var b := EncodeString(s.stepProcess) + StepPayload(s) + rest;
    var b1 := EncodeString(s.creatorProcess) + b;
    assert EncodeStep(s) + rest == EncodeString(s.particleName) + b1;
    FreadNameOf(s.particleName, b1);
    FreadNameOf(s.creatorProcess, b);
    assert b[..4] == EncodeInt32(|s.stepProcess|);
    Int32RoundTrip(|s.stepProcess|);
    HitTailLong((CString(s.particleName), CString(s.creatorProcess)), b);
  }

  /** The as-written primary reader finds every other field where it was written but keeps no energy. */
  lemma EnergyLost(p: Primary, rest: Bytes)
    requires PrimaryOk(p)
    ensures CPrimaryAsWritten(EncodePrimary(p) + rest) == Ok((CPrimaryOf(p).(energy := None), rest))
    ensures CPrimaryAsWritten(EncodePrimary(p) + rest) != CPrimaryIntended(EncodePrimary(p) + rest)
  {
    var b := p.energy + p.time + EncodeVec3(p.position) + EncodeVec3(p.direction) + rest;
    assert EncodePrimary(p) + rest == EncodeString(p.name) + b;
    FreadNameOf(p.name, b);
    PrimaryTailOf(p, rest);
    CPrimaryIntendedOf(p, rest);
  }

  /**
   * A file holding only the header — a run that recorded no event, closed
   * before any history was written — ends exactly after the computer name,
   * so the end-of-file flag is not yet set and the as-written reader goes
   * on to read a history length that is not there.
   */
  lemma HeaderOnlyFileFaults(h: Header, path: Bytes)
    requires HeaderOk(h)
    ensures MexLoad(Some(EncodeFile(0, h, None, [])), path) == Err(ShortRead)
    ensures MexLoadIntended(Some(EncodeFile(0, h, None, [])), path)
            == Ok(Opened(OutputOf([]), MexInfo(HeaderOf(h), History([], [], []), CString(path))))
  {
    var file := EncodeFile(0, h, None, []);
    assert file == EncodeInt32(0) + (EncodeHeader(h) + []);
    FreadIntOf(0, EncodeHeader(h) + []);
    ReadHeaderOf(h, []);
    assert ReadPreamble(file) == Err(ShortRead);
    MexLoadIntendedRoundTrip(h, None, [], path);
  }

  /** A primary as the as-written reader stores it: no energy. */
  function CPrimaryLostOf(p: Primary): CPrimary
  {
    CPrimaryOf(p).(energy := None)
  }

  /** A record without step entries as the as-written reader stores it. */
  function CRecordLostOf(r: Record): CRecord
  {
    CRecordOf(r).(primaries := Column(r.primaries, CPrimaryLostOf))
  }

  /** With a history block present, the as-written preamble reads the file as the writer laid it out. */
  lemma PreambleAsWrittenOf(h: Header, hs: History, rs: seq<Record>)
    requires FileOk(h, Some(hs), rs)
    ensures ReadPreamble(EncodeFile(|rs|, h, Some(hs), rs))
            == Ok((CPreamble(|rs|, HeaderOf(h), HistoryOf(Some(hs))), EncodeRecords(rs)))
  {
    var tail := EncodeHistory(hs) + EncodeRecords(rs);
    FileParts(|rs|, h, Some(hs), rs);
    FreadIntOf(|rs|, EncodeHeader(h) + tail);
    ReadHeaderOf(h, tail);
    ReadHistoryOf(hs, EncodeRecords(rs));
  }

  lemma CRecordAsWrittenOf(r: Record, rest: Bytes)
    requires RecordOk(r) && r.steps == []
    ensures CRecordAsWritten(EncodeRecord(r) + rest) == Ok((CRecordLostOf(r), rest))
  {
    var b1 := RecordFieldBytes(r) + rest;
    var b0 := EncodePrimaries(r.primaries) + b1;
    RecordSplit(r, rest);
    FreadIntOf(|r.primaries|, b0);
    forall i, b | 0 <= i < |r.primaries|
      ensures CPrimaryAsWritten(EncodePrimary(r.primaries[i]) + b) == Ok((CPrimaryLostOf(r.primaries[i]), b))
    {
      EnergyLost(r.primaries[i], b);
    }
    ManyMap(CPrimaryAsWritten, EncodePrimary, CPrimaryLostOf, r.primaries, b1);
    RecordFieldsOf(r, rest);
    assert EncodeSteps(r.steps) + rest == rest;
  }

  /**
   * The as-written reader is right about every file whose records hold no
   * step entries, save that it loses the primary energies: the two defects
   * above are the only ones on such files.
   */
  lemma MexLoadStepFreeRoundTrip(h: Header, hs: History, rs: seq<Record>, path: Bytes)
    requires FileOk(h, Some(hs), rs)
    requires forall i :: 0 <= i < |rs| ==> rs[i].steps == []
    ensures MexLoad(Some(EncodeFile(|rs|, h, Some(hs), rs)), path)
            == Ok(Opened(OutputOf(Column(rs, CRecordLostOf)), MexInfo(HeaderOf(h), HistoryOf(Some(hs)), CString(path))))
  {
    PreambleAsWrittenOf(h, hs, rs);
    forall i, b | 0 <= i < |rs|
      ensures CRecordAsWritten(EncodeRecord(rs[i]) + b) == Ok((CRecordLostOf(rs[i]), b))
    {
      CRecordAsWrittenOf(rs[i], b);
    }
    assert EncodeRecords(rs) + [] == EncodeRecords(rs);
    ManyMap(CRecordAsWritten, EncodeRecord, CRecordLostOf, rs, []);
    CountsAsWritten();
    CountPassSizes(CRecordAsWritten, SkipRecordAsWritten, EncodeRecords(rs), |rs|);
  }
}
