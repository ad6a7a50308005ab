/**
 * The binary writer (`LUXSimOutput`): the header strings written when the
 * file is opened, the input history, one record per volume and event, and
 * the record count patched over the placeholder when the file is closed.
 */
module Output {
  import opened Wire
  import opened Format
  import opened Text
  import Component

  // ---------------------------------------------------------------------------
  // Header strings
  // ---------------------------------------------------------------------------

  /** "<time zone>: <asctime text>", the production time string. */
  function ProductionTime(zone: Bytes, asctime: Bytes): (r: Bytes)
    ensures |r| == |zone| + 2 + |asctime|
    ensures r[..|zone|] == zone && r[|zone|..|zone| + 2] == [58, Space] && r[|zone| + 2..] == asctime
  {
    zone + [58, Space] + asctime
  }

  /**
   * The release name cut out of Geant4's version string: from six bytes after
   * "Name:" up to the first " $".  When "Name:" is absent, `npos + 6` wraps to
   * 5; a start beyond the end makes `substr` throw.
   */
  /** "Name:" */
  const NameTag: Bytes := [78, 97, 109, 101, 58]
  /** " $" */
  const DollarTag: Bytes := [32, 36]

  function Geant4VersionName(v: Bytes): (r: Option<Bytes>)
    ensures Find(v, NameTag).Some? ==>
              (r.Some? <==> Find(v, NameTag).value + 6 <= |v|)
    ensures Find(v, NameTag).None? ==> (r.Some? <==> 5 <= |v|)
    ensures r.Some? ==>
              var start := if Find(v, NameTag).Some? then Find(v, NameTag).value + 6 else 5;
              start + |r.value| <= |v| && r.value == v[start..start + |r.value|]
              && !Contains(r.value, DollarTag)
              && (start + |r.value| < |v| ==> OccursAt(v, DollarTag, start + |r.value|))
  {
    var start := match Find(v, NameTag) case Some(i) => i + 6 case None => 5;
    if start > |v| then None
    else
      var t := v[start..];
      match Find(t, DollarTag)
      case Some(j) =>
        var w := t[..j];
        assert w == v[start..start + |w|];
        assert v[start + j..start + j + 2] == t[j..j + 2];
        FirstOccurrenceNotBefore(t, DollarTag, j);
        Some(w)
      case None =>
        assert t == v[start..start + |t|];
        assert !Contains(t, DollarTag);
        Some(t)
  }

  /** A prefix ending just before the first occurrence of `pat` does not contain `pat`. */
  lemma FirstOccurrenceNotBefore(t: Bytes, pat: Bytes, j: nat)
    requires |pat| > 0 && Find(t, pat) == Some(j)
    ensures !Contains(t[..j], pat)
  {
    if Contains(t[..j], pat) {
      var k := Find(t[..j], pat).value;
      assert t[..j][k..k + |pat|] == t[k..k + |pat|];
      assert OccursAt(t, pat, k);
    }
  }

  /** "Revision:" */
  const RevisionTag: Bytes := [82, 101, 118, 105, 115, 105, 111, 110, 58]

  /**
   * The revision string: for Subversion the 13 bytes starting at "Revision:"
   * in the `svn info` text (an error when there is none); for Git the whole
   * `git rev-parse` text; otherwise the empty string.  The file text is read
   * as a C string.
   */
  function Revision(isSvn: bool, isGit: bool, info: Bytes): (r: Option<Bytes>)
    ensures !isSvn && !isGit ==> r == Some([])
    ensures !isSvn && isGit ==> r == Some(CString(info))
    ensures isSvn ==> (r.Some? <==> Contains(CString(info), RevisionTag))
    ensures isSvn && r.Some? ==>
              |r.value| == 13 || r.value == CString(info)[Find(CString(info), RevisionTag).value..]
    ensures isSvn && r.Some? ==> |r.value| <= 13 && r.value[..9] == RevisionTag
  {
    if isSvn then
      var s := CString(info);
      match Find(s, RevisionTag)
      case None => None
      case Some(i) =>
        var t := s[i..];
        assert t[..9] == RevisionTag;
        if |t| <= 13 then Some(t) else Some(t[..13])
    else if isGit then Some(CString(info))
    else Some([])
  }

  /**
   * The four header strings; None when building one of them throws.  The
   * computer name is the `uname -n` text read as a C string.
   */
  function MakeHeader(zone: Bytes, asctime: Bytes, g4Version: Bytes,
                      isSvn: bool, isGit: bool, revisionInfo: Bytes, unameText: Bytes): (r: Option<Header>)
    ensures r.Some? <==> Geant4VersionName(g4Version).Some? && Revision(isSvn, isGit, revisionInfo).Some?
    ensures r.Some? ==>
              r.value.productionTime == ProductionTime(zone, asctime)
              && r.value.computerName == CString(unameText)
  {
    match (Geant4VersionName(g4Version), Revision(isSvn, isGit, revisionInfo))
    case (Some(v), Some(rev)) => Some(Header(ProductionTime(zone, asctime), v, rev, CString(unameText)))
    case _ => None
  }

  // ---------------------------------------------------------------------------
  // What a record holds, as functions of the component's step list
  // ---------------------------------------------------------------------------

  /** "opticalphoton" */
  const OpticalPhoton: Bytes := [111, 112, 116, 105, 99, 97, 108, 112, 104, 111, 116, 111, 110]
  /** "thermalelectron" */
  const ThermalElectron: Bytes := [116, 104, 101, 114, 109, 97, 108, 101, 108, 101, 99, 116, 114, 111, 110]

  predicate IsOptical(s: Step) { s.particleName == OpticalPhoton }
  predicate IsThermal(s: Step) { s.particleName == ThermalElectron }

  lemma OpticalNotThermal(s: Step)
    ensures !(IsOptical(s) && IsThermal(s))
  {
    assert |OpticalPhoton| == 13 && |ThermalElectron| == 15;
  }

  /** Number of optical-photon entries. */
  function CountOpt(ss: seq<Step>): nat
  {
    if ss == [] then 0 else CountOpt(ss[..|ss| - 1]) + (if IsOptical(ss[|ss| - 1]) then 1 else 0)
  }

  /** Number of thermal-electron entries. */
  function CountTherm(ss: seq<Step>): nat
  {
    if ss == [] then 0 else CountTherm(ss[..|ss| - 1]) + (if IsThermal(ss[|ss| - 1]) then 1 else 0)
  }

  /** Entries of neither kind (the size for record level 3). */
  function Size3(ss: seq<Step>): nat
  {
    if ss == [] then 0
    else
      var s := ss[|ss| - 1];
      Size3(ss[..|ss| - 1]) + (if !IsOptical(s) && !IsThermal(s) then 1 else 0)
  }

  /** Entries of neither kind that deposited energy (the size for record level 2). */
  function Size2(ss: seq<Step>): nat
  {
    if ss == [] then 0
    else
      var s := ss[|ss| - 1];
      Size2(ss[..|ss| - 1]) + (if !IsOptical(s) && !IsThermal(s) && IsPositive(s.energyDeposition) then 1 else 0)
  }

  /** The deposited energy of all entries, summed left to right from +0.0 with `fadd`. */
  function EnergyTotal(ss: seq<Step>, fadd: (F64, F64) -> F64): F64
  {
    if ss == [] then Zero64 else fadd(EnergyTotal(ss[..|ss| - 1], fadd), ss[|ss| - 1].energyDeposition)
  }

  /** Whether one entry is written under the given levels. */
  predicate Selected(s: Step, level: int, opt: int, therm: int)
  {
    (!IsOptical(s) && !IsThermal(s) && ((IsPositive(s.energyDeposition) && level == 2) || level > 2))
    || (opt > 2 && IsOptical(s))
    || (therm > 2 && IsThermal(s))
  }

  /** The entries written, in `eventRecord` order. */
  function SelectedSteps(ss: seq<Step>, level: int, opt: int, therm: int): seq<Step>
  {
    if ss == [] then []
    else
      var s := ss[|ss| - 1];
      SelectedSteps(ss[..|ss| - 1], level, opt, therm) + (if Selected(s, level, opt, therm) then [s] else [])
  }

  /** The step count written before the entries. */
  function RecordSize(ss: seq<Step>, level: int, opt: int, therm: int): int
  {
    (if level == 2 then Size2(ss) else if level > 2 then Size3(ss) else 0)
    + (if opt > 2 then CountOpt(ss) else 0)
    + (if therm > 2 then CountTherm(ss) else 0)
  }

  /** A record is written iff energy was deposited, the level is above 2, or primaries are always recorded. */
  predicate Emitted(ss: seq<Step>, level: int, alwaysRecordPrimary: bool, fadd: (F64, F64) -> F64)
  {
    IsPositive(EnergyTotal(ss, fadd)) || level > 2 || alwaysRecordPrimary
  }

  /** The record written for a component's entries; totals of a non-positive level read back as zero. */
  function RecordFor(ss: seq<Step>, primaries: seq<Primary>, level: int, opt: int, therm: int,
                     id: int, eventNum: int, fadd: (F64, F64) -> F64): (r: Record)
    ensures r.primaries == primaries && r.steps == SelectedSteps(ss, level, opt, therm)
    ensures r.recordLevel == level && r.optLevel == opt && r.thermLevel == therm
    ensures r.volumeId == id && r.eventNum == eventNum
  {
    Record(primaries, level, opt, therm, id, eventNum,
           if level > 0 then EnergyTotal(ss, fadd) else Zero64,
           if opt > 0 then CountOpt(ss) else 0,
           if therm > 0 then CountTherm(ss) else 0,
           SelectedSteps(ss, level, opt, therm))
  }

  // ---------------------------------------------------------------------------
  // Properties of the counts and the selection
  // ---------------------------------------------------------------------------

  /** The written step count equals the number of entries that follow it. */
  lemma {:induction false} SelectedCount(ss: seq<Step>, level: int, opt: int, therm: int)
    ensures |SelectedSteps(ss, level, opt, therm)| == RecordSize(ss, level, opt, therm)
  {
    if ss != [] {
      SelectedCount(ss[..|ss| - 1], level, opt, therm);
      OpticalNotThermal(ss[|ss| - 1]);
    }
  }

  /** Every entry is an optical photon, a thermal electron or neither, and level 2 keeps a subset of level 3. */
  lemma {:induction false} CountsPartition(ss: seq<Step>)
    ensures CountOpt(ss) + CountTherm(ss) + Size3(ss) == |ss|
    ensures Size2(ss) <= Size3(ss)
  {
    if ss != [] {
      CountsPartition(ss[..|ss| - 1]);
      OpticalNotThermal(ss[|ss| - 1]);
    }
  }

  /** Only entries of the component are written, each at most once and in order. */
  lemma {:induction false} SelectedIsSubsequence(ss: seq<Step>, level: int, opt: int, therm: int)
    ensures |SelectedSteps(ss, level, opt, therm)| <= |ss|
    ensures forall s :: s in SelectedSteps(ss, level, opt, therm) ==> s in ss && Selected(s, level, opt, therm)
  {
    if ss != [] {
      SelectedIsSubsequence(ss[..|ss| - 1], level, opt, therm);
    }
  }

  /** With every level above 2, every entry is written. */
  lemma {:induction false} AllSelected(ss: seq<Step>, level: int, opt: int, therm: int)
    requires level > 2 && opt > 2 && therm > 2
    ensures SelectedSteps(ss, level, opt, therm) == ss
  {
    if ss != [] {
      AllSelected(ss[..|ss| - 1], level, opt, therm);
    }
  }

  /** With levels of at most 1 and optical/thermal levels of at most 2, no entry is written. */
  lemma {:induction false} NoneSelected(ss: seq<Step>, level: int, opt: int, therm: int)
    requires level <= 1 && opt <= 2 && therm <= 2
    ensures SelectedSteps(ss, level, opt, therm) == []
  {
    if ss != [] {
      NoneSelected(ss[..|ss| - 1], level, opt, therm);
    }
  }

  /** A written record is one the format carries without loss when its integers fit an int32. */
  lemma RecordForOk(ss: seq<Step>, primaries: seq<Primary>, level: int, opt: int, therm: int,
                    id: int, eventNum: int, fadd: (F64, F64) -> F64)
    requires |ss| < TWO31 && |primaries| < TWO31
    requires forall i :: 0 <= i < |ss| ==> StepOk(ss[i])
    requires forall i :: 0 <= i < |primaries| ==> PrimaryOk(primaries[i])
    requires IsInt32(level) && IsInt32(opt) && IsInt32(therm) && IsInt32(id) && IsInt32(eventNum)
    ensures RecordOk(RecordFor(ss, primaries, level, opt, therm, id, eventNum, fadd))
  {
    var r := RecordFor(ss, primaries, level, opt, therm, id, eventNum, fadd);
    CountsPartition(ss);
    SelectedIsSubsequence(ss, level, opt, therm);
    forall i | 0 <= i < |r.steps|
      ensures StepOk(r.steps[i])
    {
      assert r.steps[i] in ss;
    }
  }

  /** The part of a record before its totals. */
  function RecordHead(r: Record): Bytes
  {
    EncodeInt32(|r.primaries|) + EncodePrimaries(r.primaries)
    + EncodeInt32(r.recordLevel) + EncodeInt32(r.optLevel) + EncodeInt32(r.thermLevel)
    + EncodeInt32(r.volumeId) + EncodeInt32(r.eventNum)
  }

  lemma RecordLayout(r: Record)
    ensures EncodeRecord(r) == RecordHead(r) + EncodeTotals(r) + (EncodeInt32(|r.steps|) + EncodeSteps(r.steps))
  {
  }

  // ---------------------------------------------------------------------------
  // The output file
  // ---------------------------------------------------------------------------

  class OutputFile {
    /** The bytes written to the file so far. */
    var stream: Bytes
    var numRecords: int
    ghost var header: Header
    ghost var history: Option<History>
    ghost var records: seq<Record>

    /** The open file: a zero placeholder, then everything written so far, in order. */
    ghost predicate Valid()
      reads this
    {
      numRecords == |records| && stream == EncodeFile(0, header, history, records)
    }

    /** Opening the file writes the placeholder and the four header strings. */
    constructor (h: Header)
      ensures Valid() && header == h && history == None && records == []
      ensures stream == EncodeInt32(0) + EncodeHeader(h)
    {
      stream := EncodeInt32(0) + EncodeHeader(h);
      numRecords := 0;
      header, history, records := h, None, [];
      new;
      assert EncodeRecords([]) == [];
    }

    /** The three history strings; written before any event, so they follow the header. */
    method RecordInputHistory(commands: Bytes, diffs: Bytes, componentTable: Bytes)
      modifies this
      ensures stream == old(stream) + EncodeHistory(History(commands, diffs, componentTable))
      ensures numRecords == old(numRecords) && header == old(header) && records == old(records)
      ensures old(Valid()) && old(history).None? && old(records) == [] ==>
                Valid() && history == Some(History(commands, diffs, componentTable))
    {
      var h := History(commands, diffs, componentTable);
      stream := stream + EncodeString(commands);
      stream := stream + EncodeString(diffs);
      stream := stream + EncodeString(componentTable);
      if history.None? && records == [] {
        history := Some(h);
      }
    }

    /**
     * Writes the component's record for this event when it is emitted: the
     * primaries, the levels, the volume id and event number, the gated totals,
     * the step count and the selected steps.
     */
    method RecordEventByVolume(component: Component.DetectorComponent, eventNum: int,
                               primaries: seq<Primary>, alwaysRecordPrimary: bool,
                               fadd: (F64, F64) -> F64)
      requires Valid()
      modifies this
      ensures Valid() && header == old(header) && history == old(history)
      ensures var ss, level := component.eventRecord, component.recordLevel;
              records == old(records)
                + if Emitted(ss, level, alwaysRecordPrimary, fadd)
                  then [RecordFor(ss, primaries, level, component.recordLevelOptPhot,
                                  component.recordLevelThermElec, component.compId, eventNum, fadd)]
                  else []
    {
      var emitted, out, rs := AppendEvent(stream, component.eventRecord, primaries, component.recordLevel,
                                          component.recordLevelOptPhot, component.recordLevelThermElec,
                                          component.compId, eventNum, alwaysRecordPrimary, fadd,
                                          header, history, records);
      stream, records := out, rs;
      if emitted {
        numRecords := numRecords + 1;
      }
    }

    /** Patches the record count over the placeholder and closes the file. */
    method Close()
      requires Valid()
      modifies this
      ensures stream == EncodeFile(|records|, header, history, records)
      ensures |records| < TWO31 ==> DecodeUInt32(stream[..4]) == |records|
      ensures numRecords == old(numRecords) && header == old(header)
      ensures history == old(history) && records == old(records)
    {
      PatchCount(stream, numRecords, header, history, records);
      stream := EncodeInt32(numRecords) + stream[4..];
    }
  }

  /**
   * One call of the writer on values: the counting pass, the emission gate,
   * then the writing pass appending to the open file's bytes.
   */
  method AppendEvent(stream: Bytes, ss: seq<Step>, primaries: seq<Primary>, level: int, opt: int, therm: int,
                     id: int, eventNum: int, alwaysRecordPrimary: bool, fadd: (F64, F64) -> F64,
                     ghost h: Header, ghost hist: Option<History>, ghost rs: seq<Record>)
    returns (emitted: bool, out: Bytes, ghost rs': seq<Record>)
    requires stream == EncodeFile(0, h, hist, rs)
    ensures emitted == Emitted(ss, level, alwaysRecordPrimary, fadd)
    ensures rs' == rs + if emitted then [RecordFor(ss, primaries, level, opt, therm, id, eventNum, fadd)] else []
    ensures out == EncodeFile(0, h, hist, rs')
  {
    var total, nOpt, nTherm, size2, size3 := CountEntries(ss, fadd);
    emitted := IsPositive(total) || level > 2 || alwaysRecordPrimary;
    if emitted {
      ghost var r := RecordFor(ss, primaries, level, opt, therm, id, eventNum, fadd);
      var rec := WriteRecord(ss, primaries, level, opt, therm, id, eventNum, fadd, total, nOpt, nTherm, size2, size3);
      AppendRecord(stream, stream + rec, h, hist, rs, r);
      out, rs' := stream + rec, rs + [r];
    } else {
      out, rs' := stream, rs;
    }
  }

  /**
   * Overwriting the placeholder with the record count gives the closed file,
   * whose first four bytes read back as that count.
   */
  lemma PatchCount(stream: Bytes, n: int, h: Header, hist: Option<History>, rs: seq<Record>)
    requires stream == EncodeFile(0, h, hist, rs)
    ensures EncodeInt32(n) + stream[4..] == EncodeFile(n, h, hist, rs)
    ensures n == |rs| < TWO31 ==> DecodeUInt32((EncodeInt32(n) + stream[4..])[..4]) == |rs|
  {
    FileBody(0, h, hist, rs);
    FileBody(n, h, hist, rs);
    if n == |rs| < TWO31 {
      UInt32RoundTrip(n);
      assert (EncodeInt32(n) + stream[4..])[..4] == EncodeInt32(n);
    }
  }

  /** Appending a record's encoding to an open file keeps it the encoding of its records. */
  lemma AppendRecord(stream: Bytes, out: Bytes, h: Header, hist: Option<History>, rs: seq<Record>, r: Record)
    requires stream == EncodeFile(0, h, hist, rs) && out == stream + EncodeRecord(r)
    ensures out == EncodeFile(0, h, hist, rs + [r])
  {
    FileAppend(h, hist, rs, r);
  }

  /** The counting pass over a component's entries. */
  method CountEntries(ss: seq<Step>, fadd: (F64, F64) -> F64)
    returns (total: F64, nOpt: int, nTherm: int, size2: int, size3: int)
    ensures total == EnergyTotal(ss, fadd)
    ensures nOpt == CountOpt(ss) && nTherm == CountTherm(ss)
    ensures size2 == Size2(ss) && size3 == Size3(ss)
  {
    total, nOpt, nTherm, size2, size3 := Zero64, 0, 0, 0, 0;
    var i := 0;
    while i < |ss|
      invariant 0 <= i <= |ss|
      invariant total == EnergyTotal(ss[..i], fadd)
      invariant nOpt == CountOpt(ss[..i]) && nTherm == CountTherm(ss[..i])
      invariant size2 == Size2(ss[..i]) && size3 == Size3(ss[..i])
    {
      assert ss[..i + 1][..i] == ss[..i];
      assert ss[..i + 1][i] == ss[i];
      OpticalNotThermal(ss[i]);
      total := fadd(total, ss[i].energyDeposition);
      if ss[i].particleName == OpticalPhoton {
        nOpt := nOpt + 1;
      } else if ss[i].particleName == ThermalElectron {
        nTherm := nTherm + 1;
      } else {
        if IsPositive(ss[i].energyDeposition) {
          size2 := size2 + 1;
        }
        size3 := size3 + 1;
      }
      i := i + 1;
    }
    assert ss[..|ss|] == ss;
  }

  /** The writing pass: one record, given the totals of the counting pass. */
  method WriteRecord(ss: seq<Step>, primaries: seq<Primary>, level: int, opt: int, therm: int,
                     id: int, eventNum: int, fadd: (F64, F64) -> F64,
                     total: F64, nOpt: int, nTherm: int, size2: int, size3: int) returns (out: Bytes)
    requires total == EnergyTotal(ss, fadd)
    requires nOpt == CountOpt(ss) && nTherm == CountTherm(ss)
    requires size2 == Size2(ss) && size3 == Size3(ss)
    ensures out == EncodeRecord(RecordFor(ss, primaries, level, opt, therm, id, eventNum, fadd))
  {
    ghost var r := RecordFor(ss, primaries, level, opt, therm, id, eventNum, fadd);
    var ps := WritePrimaries(primaries);
    var head := EncodeInt32(|primaries|) + ps + EncodeInt32(level) + EncodeInt32(opt) + EncodeInt32(therm)
                + EncodeInt32(id) + EncodeInt32(eventNum);
    var energy: Bytes := if level > 0 then total else [];
    var optCount := if opt > 0 then EncodeInt32(nOpt) else [];
    var thermCount := if therm > 0 then EncodeInt32(nTherm) else [];
    var totals := energy + optCount + thermCount;
    var recordSize := if level == 2 then size2 else if level > 2 then size3 else 0;
    if opt > 2 { recordSize := recordSize + nOpt; }
    if therm > 2 { recordSize := recordSize + nTherm; }
    SelectedCount(ss, level, opt, therm);
    var tail := WriteStepList(ss, level, opt, therm, recordSize);
    assert head == RecordHead(r);
    assert totals == EncodeTotals(r);
    RecordLayout(r);
    out := head + totals + tail;
  }

  /** The step count followed by the selected entries (none are looked at when the count is 0). */
  method WriteStepList(ss: seq<Step>, level: int, opt: int, therm: int, recordSize: int) returns (out: Bytes)
    requires recordSize == |SelectedSteps(ss, level, opt, therm)|
    ensures out == EncodeInt32(|SelectedSteps(ss, level, opt, therm)|) + EncodeSteps(SelectedSteps(ss, level, opt, therm))
  {
    var steps: Bytes := [];
    if recordSize > 0 {
      steps := WriteSteps(ss, level, opt, therm);
    }
    out := EncodeInt32(recordSize) + steps;
  }

  /** The primaries, one after another. */
  method WritePrimaries(ps: seq<Primary>) returns (out: Bytes)
    ensures out == EncodePrimaries(ps)
  {
    out := [];
    var m := 0;
    while m < |ps|
      invariant 0 <= m <= |ps|
      invariant out == EncodePrimaries(ps[..m])
    {
      EncodePrimariesAppend(ps[..m], ps[m]);
      assert ps[..m + 1] == ps[..m] + [ps[m]];
      out := out + EncodePrimary(ps[m]);
      m := m + 1;
    }
    assert ps[..|ps|] == ps;
  }

  /** One more entry extends the written entries by its encoding when it is selected. */
  lemma SelectedStepsNext(ss: seq<Step>, i: nat, level: int, opt: int, therm: int)
    requires i < |ss|
    ensures EncodeSteps(SelectedSteps(ss[..i + 1], level, opt, therm))
            == EncodeSteps(SelectedSteps(ss[..i], level, opt, therm))
               + if Selected(ss[i], level, opt, therm) then EncodeStep(ss[i]) else []
  {
    assert ss[..i + 1][..i] == ss[..i];
    assert ss[..i + 1][i] == ss[i];
    var pre := SelectedSteps(ss[..i], level, opt, therm);
    if Selected(ss[i], level, opt, therm) {
      assert SelectedSteps(ss[..i + 1], level, opt, therm) == pre + [ss[i]];
      EncodeStepsAppend(pre, ss[i]);
    } else {
      assert SelectedSteps(ss[..i + 1], level, opt, therm) == pre;
      assert EncodeSteps(pre) + [] == EncodeSteps(pre);
    }
  }

  /** The selected entries of `ss`, in order. */
  method WriteSteps(ss: seq<Step>, level: int, opt: int, therm: int) returns (out: Bytes)
    ensures out == EncodeSteps(SelectedSteps(ss, level, opt, therm))
  {
    out := [];
    var i := 0;
    while i < |ss|
      invariant 0 <= i <= |ss|
      invariant out == EncodeSteps(SelectedSteps(ss[..i], level, opt, therm))
    {
      SelectedStepsNext(ss, i, level, opt, therm);
      if Selected(ss[i], level, opt, therm) {
        out := out + EncodeStep(ss[i]);
      }
      i := i + 1;
    }
    assert ss[..|ss|] == ss;
  }
}
