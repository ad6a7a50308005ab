# LUXSim core, modelled in Dafny

LUXSim is a Geant4 simulation of the LUX dark-matter detector. This project
models the parts of it that are not Geant4 wiring:

- the binary output format: the writer `LUXSimOutput` (`Output`), the bytes it
  emits (`Format`, `Wire`), and the two readers, the Python `LoadFile`
  (`PyReader`) and the MATLAB MEX reader (`CReader`). For each reader the
  model proves which written files it reads back and exhibits the files on
  which the code as written fails (the Python reader raises on any record
  whose primaries are neither one nor three); a corrected reader beside it is
  proved to read back every file the writer produces;
- the manager's bookkeeping (`Manager`): the registry of detector components,
  the "name level" record-level commands, component mass and volume commands,
  the source command with its unit handling (`SourceUnits`), the event-tree
  depth, the events-file queues, and what each event records;
- the detector component (`Component`): record levels, step records, sources
  with cumulative activity ratios, the cached volume and mass, and the
  depth-first path search that places a component below a reference volume;
- the two PMT numbering schemes of the 1.0 detector (`PmtRenumbering`);
- the VRML rewriting tool `rewrite_wrl.py` (`Vrml`);
- the stacking action's rule for the global time of a new track (`Stacking`).

Bytes are integers 0-255, 32-bit integers are little-endian, and doubles are
opaque 8-byte words, so the codec needs no floating point. The manager and the
components work on exact reals in CLHEP's internal units. Text searches,
decimal printing and `atoi` are shared in `Text`.

Code that changes state step by step is modelled as classes and methods:
`Output.OutputFile`, `Component.DetectorComponent`, `Manager.LuxManager`,
`PmtRenumbering.Renumbering`, `Vrml.VrmlObject`, `Vrml.VrmlFile` and
`Stacking.StackingAction`. The readers' loops are methods proved against pure
decoding functions. Each method's contract ties it to a function, and the
properties are proved about those functions as lemmas.

## Model

| member | source | states |
|---|---|---|
| Wire.Wrap32 | io/src/LUXSimOutput.cc:356-358 | the value an `int` holds is the only int32 congruent to the count modulo 2^32, and equals it whenever it fits |
| Wire.Int32Decode | io/src/LUXSimOutput.cc:358-360 | an `int` written as four little-endian bytes reads back as the count wrapped to 32 bits |
| Wire.Int32RoundTrip | io/src/LUXSimOutput.cc:406-411 | an int32 field written with `write(&x, sizeof(int))` and read back signed gives the same value |
| Wire.Int32Encode | io/src/LUXSimOutput.cc:406-411 | any four bytes are the encoding of the signed value they decode to, so the int32 encoding is onto |
| Wire.UInt32RoundTrip | io/src/LUXSimOutput.cc:246-247 | the patched record count, a non-negative int, reads back unchanged as an unsigned 32-bit value |
| Wire.Many | tools/LUXSimPythonReader.py:239-269 | a read loop of `n` entries yields exactly `n` entries (none when `n` is not positive) or the first error |
| Wire.ManyOf | tools/LUXSimPythonReader.py:300-372 | reading back `|xs|` entries from their concatenated encodings returns `xs` and leaves the cursor after them |
| Wire.ReadMany | tools/LUXSimPythonReader.py:300-372 | the entry-by-entry loop returns what the read-loop function `Many` defines |
| Format.EncodeString | io/src/LUXSimOutput.cc:363-366 | a string is written as its length (4 bytes) followed by exactly its bytes, with no terminator |
| Format.StepPayload | io/src/LUXSimOutput.cc:473-487 | the fixed part of a step entry takes 4*4 + 9*8 bytes: four int32 fields then nine doubles |
| Format.EncodeFile | io/src/LUXSimOutput.cc:145-147 | every file starts with the 4-byte record count, before the header strings |
| Format.FileBody | io/src/LUXSimOutput.cc:246-247 | the bytes after the record count do not depend on the count, so patching it changes only the first four bytes |
| Format.FileAppend | io/src/LUXSimOutput.cc:356-519 | writing one more record appends exactly its encoding to the file |
| Output.ProductionTime | io/src/LUXSimOutput.cc:149-161 | the production time string is the time-zone name, ": " and then the `asctime` text, byte for byte |
| Output.Geant4VersionName | io/src/LUXSimOutput.cc:163-168 | the release name starts six bytes after "Name:" (at 5 when "Name:" is absent, because `npos + 6` wraps), fails when that start is past the end, holds no " $" and stops at the first " $" |
| Output.Revision | io/src/LUXSimOutput.cc:174-217 | Subversion: fails exactly when "Revision:" is absent, otherwise the 13 bytes from it (fewer at the end of the text); Git: the whole `rev-parse` text; neither: the empty string |
| Output.MakeHeader | io/src/LUXSimOutput.cc:149-233 | the header is built exactly when the Geant4 name and the revision can be cut out, with the production time and the computer name read as a C string |
| Output.RecordFor | io/src/LUXSimOutput.cc:354-519 | a written record carries the primaries, the three levels, the volume id, the event number and exactly the selected entries |
| Output.SelectedCount | io/src/LUXSimOutput.cc:429-453 | the step count written before the entries equals the number of entries the loop then writes |
| Output.CountsPartition | io/src/LUXSimOutput.cc:338-350 | every entry is an optical photon, a thermal electron or neither, and the level-2 count never exceeds the level-3 count |
| Output.SelectedIsSubsequence | io/src/LUXSimOutput.cc:444-453 | only entries of the component that pass the level test are written, and no more of them than there are entries |
| Output.AllSelected | io/src/LUXSimOutput.cc:444-453 | with all three levels above 2, every entry is written, in order |
| Output.NoneSelected | io/src/LUXSimOutput.cc:429-453 | with a record level of at most 1 and optical and thermal levels of at most 2, no entry is written |
| Output.RecordForOk | io/src/LUXSimOutput.cc:354-487 | a record built from int32-sized values and strings of fewer than 2^31 bytes is one the format carries without loss |
| Output.OutputFile.constructor | io/src/LUXSimOutput.cc:103-239 | opening writes the zero placeholder and the four header strings and nothing else |
| Output.OutputFile.RecordInputHistory | io/src/LUXSimOutput.cc:267-286 | the commands, the diffs and the component table are appended as three strings; before any record they form the file's history |
| Output.OutputFile.RecordEventByVolume | io/src/LUXSimOutput.cc:291-520 | a record is appended exactly when the energy total is positive, the level is above 2 or primaries are always recorded, and the file stays the encoding of its records |
| Output.AppendEvent | io/src/LUXSimOutput.cc:327-519 | one writer call: the gate is `Emitted`, and the bytes after it are the open file with the new record appended |
| Output.OutputFile.Close | io/src/LUXSimOutput.cc:244-249 | the placeholder is overwritten with the record count, which the first four bytes then read back as |
| Output.PatchCount | io/src/LUXSimOutput.cc:246-247 | overwriting the first four bytes with the count turns an open file into the closed file of the same records |
| Output.CountEntries | io/src/LUXSimOutput.cc:333-350 | the counting pass yields the energy total, the optical and thermal counts and the level-2 and level-3 sizes |
| Output.WriteRecord | io/src/LUXSimOutput.cc:356-519 | the writing pass emits exactly the encoding of the record `RecordFor` defines |
| Output.WriteStepList | io/src/LUXSimOutput.cc:429-444 | the step count followed by the selected entries; no entry is visited when the count is 0 |
| Output.WritePrimaries | io/src/LUXSimOutput.cc:358-399 | the primaries are written one after another, in order |
| Output.WriteSteps | io/src/LUXSimOutput.cc:444-519 | the loop writes the selected entries, in `eventRecord` order |
| Wire.LE4Value | io/src/LUXSimOutput.cc:406-411 | four bytes written least significant first read back as the unsigned 32-bit value |
| Wire.ValueLE4Bytes | tools/LUXSimMatlabReader_LoadFile.c:67 | any four bytes read as an unsigned 32-bit value are written back as the same bytes |
| Wire.DecodeInt32 | tools/LUXSimMatlabReader_LoadFile.c:67 | four bytes read into an `int` give a value in the signed 32-bit range |
| Wire.DecodeUInt32 | tools/LUXSimPythonReader.py:6-14 | four bytes read with format 'I' give a value in the unsigned 32-bit range |
| Wire.ZeroNotPositive | io/src/LUXSimOutput.cc:354-356 | a total of +0.0 is not above zero, so it alone does not make a record be written |
| Wire.Latin1 | io/src/LUXSimOutput.cc:340-342 | a text literal becomes one byte per character, each character's own code in the single-byte range |
| Format.FileParts | io/src/LUXSimOutput.cc:145-247 | the file is the record count, the header strings, the optional history and the records, in that order |
| Output.AppendRecord | io/src/LUXSimOutput.cc:354-356 | appending one record's bytes to a file of records gives the file of those records and the new one |
| Output.OpticalNotThermal | io/src/LUXSimOutput.cc:340-342 | no entry counts both as an optical photon and as a thermal electron |
| CReader.CountsAsWritten | tools/LUXSimMatlabReader_LoadFile.c:184-250 | the counting pass skips each record exactly as far as the filling pass reads it, and counts its primaries and step entries |
| CReader.CountsIntended | tools/LUXSimMatlabReader_LoadFile.c:184-250 | with three names per step entry, the counting pass still skips each record as far as the reader reads it and counts its primaries and step entries |
| PyReader.FileRead | tools/LUXSimPythonReader.py:9 | `f.read(n)` splits the remaining bytes: at most `n` of them, and all of them when `n` is negative |
| PyReader.GetAttribute | tools/LUXSimPythonReader.py:6-14 | one value needs exactly its format size in bytes, or `struct.error` is raised; `n` characters need `n` bytes; a length other than 1 with a non-character format raises `TypeError` |
| PyReader.GetVec3 | tools/LUXSimPythonReader.py:251 | three doubles read as one triple succeed exactly when 24 bytes remain, and those bytes are the triple |
| PyReader.PyPrimaryIsFieldwise | tools/LUXSimPythonReader.py:240-269 | reading a primary's 64 bytes of numbers as one block is the same as the source's field-by-field reads, errors included |
| PyReader.StepTailIsFieldwise | tools/LUXSimPythonReader.py:318-334 | reading a step's 88 fixed bytes as one block is the same as the source's field-by-field reads |
| PyReader.OptDouble | tools/LUXSimPythonReader.py:285-286 | the energy total is read only when the record level is positive, and is otherwise the zero of `np.zeros` |
| PyReader.OptInt | tools/LUXSimPythonReader.py:288-292 | an optical or thermal count is read only when its level is positive, and is otherwise 0 |
| PyReader.PyRecord | tools/LUXSimPythonReader.py:233-372 | a decoded record holds as many steps as `hits_size` says when positive, and none otherwise, and it has one or three primaries: any other count raises at line 283 |
| PyReader.RecordAfterPrimaries | tools/LUXSimPythonReader.py:271-283 | with one or three primaries the rest of the record is read as intended; with any other count it fails, with `ValueError` exactly when the five numbers of lines 273-281 are there to read |
| PyReader.PyRecordIntended | tools/LUXSimPythonReader.py:233-372 | the record reader as intended decodes every record the written one decodes, identically, and beyond those only records whose primaries are neither one nor three |
| PyReader.RecordAfterPrimariesIntended | tools/LUXSimPythonReader.py:271-372 | the rest of a record keeps the primaries already read and has as many steps as `hits_size` allows |
| PyReader.PyRecordsConsistent | tools/LUXSimPythonReader.py:294-300 | every row the record loop decodes holds as many steps as its `hits_size` allows |
| PyReader.PyPreamble | tools/LUXSimPythonReader.py:154-192 | as written, the preamble succeeds only with a history: a file that ends after the header raises `NameError` at line 192 |
| PyReader.PyPreambleIntended | tools/LUXSimPythonReader.py:174-192 | the intended preamble has no history exactly when the file ends after the header, and agrees with the written one wherever that one succeeds |
| PyReader.GetStringOf | tools/LUXSimPythonReader.py:158-159 | a string of fewer than 2^31 bytes reads back as itself, with the cursor right after it |
| PyReader.PyPrimaryOf | tools/LUXSimPythonReader.py:240-269 | a primary written by the writer reads back as the same primary |
| PyReader.PyStepOf | tools/LUXSimPythonReader.py:300-372 | a step entry written by the writer reads back as the same step |
| PyReader.TotalsOf | tools/LUXSimPythonReader.py:285-292 | the gated totals of a written record read back as the record holds them |
| PyReader.PyRecordOf | tools/LUXSimPythonReader.py:233-372 | a record with one or three primaries written by the writer reads back as the same record, with its step count as `hits_size` |
| PyReader.PyRecordIntendedOf | tools/LUXSimPythonReader.py:233-372 | with the reader as intended, a record written by the writer reads back as the same record whatever the number of its primaries |
| PyReader.MisfitRecordRaises | tools/LUXSimPythonReader.py:283 | a written record with any other number of primaries, two say, makes line 283 raise `ValueError`, while the reader as intended reads it back |
| PyReader.PyRecordsOf | tools/LUXSimPythonReader.py:229-372 | the records of a file read back, in order, when each has one or three primaries |
| PyReader.PyRecordsIntendedOf | tools/LUXSimPythonReader.py:229-372 | with the reader as intended, the records of any written file read back, in order |
| PyReader.PyRecordsRaise | tools/LUXSimPythonReader.py:229-283 | the record loop raises `ValueError` on written records of which any has neither one nor three primaries |
| PyReader.PyHeaderOf | tools/LUXSimPythonReader.py:155-171 | the four header strings read back as written |
| PyReader.PyHistoryOf | tools/LUXSimPythonReader.py:174-185 | the three history strings read back as written |
| PyReader.NameColumn | tools/LUXSimPythonReader.py:239-260 | a saved name column keeps every name but the first, which the one-character array `np.array([''])` cuts to one byte; unsaved it stays `['']` |
| PyReader.StepOffsetsOf | tools/LUXSimPythonReader.py:297 | `record_hits_ind` of each record is the number of steps in the records before it |
| PyReader.Load | tools/LUXSimPythonReader.py:139-283 | an empty file gives `None`; any file that loads has a history (what it raises at line 283 is stated by `MisfitFileRaises`) |
| PyReader.LoadIntended | tools/LUXSimPythonReader.py:139-430 | an empty file gives `None`, and the reader as intended (no history needed, `primary_event_num` grown with the primaries) agrees with the written one wherever that one loads |
| PyReader.LoadRoundTrip | tools/LUXSimPythonReader.py:139-430 | a closed file with a history whose records each have one or three primaries loads as the columns of its records, in order, with `hits_size` and `record_hits_ind` |
| PyReader.LoadIntendedRoundTrip | tools/LUXSimPythonReader.py:139-430 | the reader as intended loads every closed file the writer produces, with or without a history and whatever the number of primaries per record |
| PyReader.MisfitFileRaises | tools/LUXSimPythonReader.py:229-283 | a closed file with a history and a record whose primaries are neither one nor three raises `ValueError`, while the reader as intended loads it |
| PyReader.HeaderOnlyFileRaises | tools/LUXSimPythonReader.py:174-192 | a file as the writer leaves it before any history raises `NameError`, and the intended reader loads it as empty |
| PyReader.ReadRecord | tools/LUXSimPythonReader.py:233-372 | the record body of the loop, with the `ValueError` of line 283, returns what `PyRecord` defines |
| PyReader.LoadFile | tools/LUXSimPythonReader.py:139-430 | the record loop with `step_counter` returns what `Load` defines, including `record_hits_ind` |
| PyReader.Stem | tools/LUXSimPythonReader.py:95 | `split('.')[0]` is the longest prefix without '.', ending just before the first '.' |
| PyReader.SaveFileName | tools/LUXSimPythonReader.py:95 | the archive name is the stem followed by ".npz" |
| PyReader.SavedArrays | tools/LUXSimPythonReader.py:112-125 | `primary_name` is saved exactly when primary names are kept, the three hit-name keys exactly when hit names are kept, and every other key always, with the loaded arrays |
| PyReader.ProcessFile | tools/LUXSimPythonReader.py:92-125 | a file is skipped exactly when its archive exists and overwriting is off; an empty file raises `TypeError` at line 103; every error of the load, the `ValueError` of line 283 included, ends the pass; a saved archive goes to the save directory |
| PyReader.ProcessFileIntended | tools/LUXSimPythonReader.py:96-107 | as intended, an empty file is skipped as well |
| PyReader.ProcessRoundTrip | tools/LUXSimPythonReader.py:92-125 | a closed file with a history, whose records each have one or three primaries, is saved with the columns of its records |
| PyReader.ProcessMisfitRaises | tools/LUXSimPythonReader.py:98-103 | a closed file with a history and a record whose primaries are neither one nor three ends the pass with `ValueError` |
| PyReader.ProcessIntendedRoundTrip | tools/LUXSimPythonReader.py:92-125 | as intended, every closed file the writer produces is saved with the columns of its records |
| CReader.HeaderString | tools/LUXSimMatlabReader_LoadFile.c:72-81 | a header string cut short by the end of the file keeps what was there and sets the end-of-file flag, and then nothing is left to read |
| CReader.SkipBytes | tools/LUXSimMatlabReader_LoadFile.c:197 | an `fseek` forward by `n` skips `n` bytes, and past the end leaves nothing to read |
| CReader.SkipBytesTwice | tools/LUXSimMatlabReader_LoadFile.c:212-225 | two forward seeks land where one seek by their sum does |
| CReader.FreadVec3Skips | tools/LUXSimMatlabReader_LoadFile.c:349-363 | reading three doubles ends where a 24-byte seek does |
| CReader.RecordFields | tools/LUXSimMatlabReader_LoadFile.c:368-432 | a record's fields, read with the gated totals, yield a non-negative step count or a fault |
| CReader.PrimariesFollow | tools/LUXSimMatlabReader_LoadFile.c:193-197 | wherever the filling pass reads a primary, the counting pass's seek over its name and eight doubles succeeds and ends at the same byte |
| CReader.HitsFollow | tools/LUXSimMatlabReader_LoadFile.c:234-246 | wherever the filling pass reads a step entry, the counting pass's skip succeeds and ends at the same byte |
| CReader.FieldsFollow | tools/LUXSimMatlabReader_LoadFile.c:200-230 | the counting pass's seeks over the record fields reach the same step count, and end where the filling pass does |
| CReader.RecordFollows | tools/LUXSimMatlabReader_LoadFile.c:184-247 | where the filling pass reads a record, the counting pass skips it to the same place, with its primary and step counts |
| CReader.RecordAsWrittenFollows | tools/LUXSimMatlabReader_LoadFile.c:311-522 | the written counting pass counts every record the written filling pass reads |
| CReader.RecordIntendedFollows | tools/LUXSimMatlabReader_LoadFile.c:311-522 | the corrected counting pass counts every record the corrected filling pass reads |
| CReader.CountPassSizes | tools/LUXSimMatlabReader_LoadFile.c:172-300 | wherever the filling pass reads the records, `pri_len` and `hit_len` equal the numbers of primaries and steps it stores, so no write falls outside the arrays |
| CReader.MexLoadFails | tools/LUXSimMatlabReader_LoadFile.c:172-250 | a load fails exactly when the preamble, the record count or the filling pass fails; the counting pass adds no failure |
| CReader.PrimaryEventAt | tools/LUXSimMatlabReader_LoadFile.c:402-407 | primary `j` of record `i` sits at the index after all earlier primaries, and `primary_event` there is that record's event number |
| CReader.PrimaryEventsLength | tools/LUXSimMatlabReader_LoadFile.c:402-407 | `primary_event` has exactly one entry per primary |
| CReader.HitsIndAt | tools/LUXSimMatlabReader_LoadFile.c:437-438 | `record_hits_ind` of record `i`, counted from one, points at the first step entry of that record, and its entries follow |
| CReader.SkipRecord | tools/LUXSimMatlabReader_LoadFile.c:184-247 | one record of the counting pass, with its two skipping loops, returns what `SkipRecordAsWritten` defines |
| CReader.CountWith | tools/LUXSimMatlabReader_LoadFile.c:174-250 | the counting loop sums the record sizes into `pri_len` and `hit_len`; the first record that cannot be skipped ends it |
| CReader.CountRecords | tools/LUXSimMatlabReader_LoadFile.c:174-250 | the counting pass as written |
| CReader.ReadRecord | tools/LUXSimMatlabReader_LoadFile.c:317-517 | one record of the filling pass, read in the C loop's order, returns what `CRecordAsWritten` defines |
| CReader.FillEvents | tools/LUXSimMatlabReader_LoadFile.c:402-407 | the record's event number is stored once for each of its primaries, after the earlier entries, which stay unchanged |
| CReader.HitsIndAppend | tools/LUXSimMatlabReader_LoadFile.c:437-438 | a new record's `record_hits_ind` is one more than the number of step entries stored before it |
| CReader.StoreRecord | tools/LUXSimMatlabReader_LoadFile.c:335-515 | after one record's array writes, the arrays hold the outputs of the records so far and this one |
| CReader.MexFunction | tools/LUXSimMatlabReader_LoadFile.c:23-705 | the MEX function returns what `MexLoad` defines: the preamble, the counting pass, the allocation and the filling pass |
| CReader.FillRecords | tools/LUXSimMatlabReader_LoadFile.c:310-522 | the filling pass starts where the counting pass did, and its output is the records read or the first fault |
| CReader.StoreRecords | tools/LUXSimMatlabReader_LoadFile.c:156-300 | arrays allocated at the counted sizes hold exactly the outputs of the records |
| CReader.FillArrays | tools/LUXSimMatlabReader_LoadFile.c:310-522 | `pri_ctr` and `hit_ctr` advance record by record and fill every array exactly |
| CReader.ReadPreambleIntended | tools/LUXSimMatlabReader_LoadFile.c:110-145 | the corrected preamble agrees with the written one wherever that one succeeds |
| CReader.FreadNameOf | tools/LUXSimMatlabReader_LoadFile.c:329-336 | a name the writer wrote reads back as its bytes up to the first NUL |
| CReader.HeaderStringOf | tools/LUXSimMatlabReader_LoadFile.c:72-108 | a header string the writer wrote reads back whole (up to its first NUL), without setting the end-of-file flag |
| CReader.CPrimaryIntendedOf | tools/LUXSimMatlabReader_LoadFile.c:327-366 | a primary the writer wrote reads back, through the corrected reader, with its energy |
| CReader.CHitIntendedOf | tools/LUXSimMatlabReader_LoadFile.c:444-516 | a step entry the writer wrote reads back, through the corrected reader, with the creator process as `process_name` |
| CReader.GatedOf | tools/LUXSimMatlabReader_LoadFile.c:409-427 | the gated totals of a written record read back as the record holds them |
| CReader.RecordFieldsOf | tools/LUXSimMatlabReader_LoadFile.c:368-432 | a written record's fields read back as the record holds them |
| CReader.CRecordIntendedOf | tools/LUXSimMatlabReader_LoadFile.c:317-517 | a written record reads back, through the corrected reader, as the record it is |
| CReader.CRecordsIntendedOf | tools/LUXSimMatlabReader_LoadFile.c:310-522 | the written records read back, in order, through the corrected reader |
| CReader.ReadHeaderOf | tools/LUXSimMatlabReader_LoadFile.c:72-108 | the four header strings read back as written |
| CReader.ReadHistoryOf | tools/LUXSimMatlabReader_LoadFile.c:114-139 | the three history strings read back as written |
| CReader.PreambleIntendedOf | tools/LUXSimMatlabReader_LoadFile.c:63-145 | the corrected preamble reads back the header and the history, or empty history strings when there is none |
| CReader.MexLoadIntendedRoundTrip | tools/LUXSimMatlabReader_LoadFile.c:23-705 | the corrected reader loads a closed file as the records it holds, names up to their first NUL |
| CReader.TwoNameReaderMisreads | tools/LUXSimMatlabReader_LoadFile.c:456-479 | the reader as written takes the step-process name's length for the step number and leaves 4 + its length bytes unread, so no step entry reads back as written |
| CReader.EnergyLost | tools/LUXSimMatlabReader_LoadFile.c:338-341 | the reader as written reads every primary field in place but keeps no energy, unlike the corrected reader |
| CReader.HeaderOnlyFileFaults | tools/LUXSimMatlabReader_LoadFile.c:114 | a file that ends right after the header does not set the end-of-file flag, so the reader as written reads a history length that is not there; the corrected reader loads it as empty |
| CReader.PreambleAsWrittenOf | tools/LUXSimMatlabReader_LoadFile.c:63-145 | with a history present, the preamble as written reads the file as it was laid out |
| CReader.CRecordAsWrittenOf | tools/LUXSimMatlabReader_LoadFile.c:317-432 | a written record with no step entries reads back through the reader as written, with the primary energies lost |
| CReader.MexLoadStepFreeRoundTrip | tools/LUXSimMatlabReader_LoadFile.c:23-705 | on files whose records hold no step entries, the lost energies are the only error the reader as written makes |
| Component.TotalWeightPrefixMonotone | geometry/src/LUXSimDetectorComponent.cc:230-235 | with non-negative weights (activity times the source type's activity multiplier), the running total over the first `i` sources never exceeds the running total over the first `j >= i` |
| Component.RatioIsShare | geometry/src/LUXSimDetectorComponent.cc:228-266 | with a non-zero total activity, ratio `i` after `CalculateRatios` is the weight of sources `0..i` divided by the total |
| Component.RatioInUnit | geometry/src/LUXSimDetectorComponent.cc:228-266 | with non-negative weights and a positive total, every ratio lies in [0, 1] |
| Component.RatioMonotone | geometry/src/LUXSimDetectorComponent.cc:228-266 | with non-negative weights and a positive total, ratios never decrease along the source list |
| Component.RatiosAreCumulativeDistribution | geometry/src/LUXSimDetectorComponent.cc:228-266 | with non-negative weights and a positive total, the ratios form a cumulative distribution: all in [0, 1], non-decreasing, and the last is exactly 1, so a uniform draw selects every source with probability equal to its share |
| Component.WeighSources | geometry/src/LUXSimDetectorComponent.cc:230-235 | the first loop sets each ratio to activity times multiplier, keeps every other field, and returns the total of those weights |
| Component.DivideRatios | geometry/src/LUXSimDetectorComponent.cc:236-237 | the second loop divides every ratio by the total and changes nothing else |
| Component.AccumulateRatios | geometry/src/LUXSimDetectorComponent.cc:263-264 | the last loop turns ratio `k` into the sum of ratios `0..k` and changes nothing else |
| Component.CumulativeShares | geometry/src/LUXSimDetectorComponent.cc:228-266 | the running sums of the divided weights equal the divided running totals, which ties the three loops to the cumulative-share definition |
| Component.DetectorComponent.CalculateRatios | geometry/src/LUXSimDetectorComponent.cc:228-266 | the total activity becomes the sum of the weights and the source list becomes the cumulative shares (the distribution proved above); the list keeps its length and every field but the ratio |
| Component.FindPath | geometry/src/LUXSimDetectorComponent.cc:404-426 | the explicit-stack depth-first search from `ref` returns a chain of volumes, each a daughter of the one before, from `ref` down to placement `p`; it finds one exactly when `p` lies below `ref` |
| Component.PathContains | geometry/src/LUXSimDetectorComponent.cc:404-426 | a daughter chain from `ref` to `p` exists only when `p` lies in the tree below `ref`, which is why the search cannot fail for this component's own world |
| Component.DetectorComponent.DetermineCenterAndExtent | geometry/src/LUXSimDetectorComponent.cc:384-426 | when `ref` is this component the centre is the origin and no stack is built; otherwise the stack runs from `ref` down to this component through daughter links |
| Component.Trunc | geometry/src/LUXSimDetectorComponent.cc:507 | assigning a double to the integer precision truncates toward zero: the result is within one of the input on the side of zero |
| Component.WithLevel | geometry/include/LUXSimDetectorComponent.hh:133-142 | setting the record level of one kind changes that level to the new value and leaves the other two kinds' levels as they were |
| Component.WithLevelTwice | geometry/include/LUXSimDetectorComponent.hh:133-142 | setting the same level twice is the same as setting it once |
| Component.DetectorComponent.constructor | geometry/src/LUXSimDetectorComponent.cc:104-116 | every constructor ends in `Initialize`: all record levels 0, no steps and no sources, photon capture off, centre at the origin, volume and mass unknown (-1), precision 100000000 |
| Component.DetectorComponent.Initialize | geometry/src/LUXSimDetectorComponent.cc:173-199 | resets the event record, the sources, photon capture, the centre, the three record levels, the volume and mass cache and the precision, and leaves the id and total activity alone |
| Component.DetectorComponent.SetRecordLevel | geometry/include/LUXSimDetectorComponent.hh:134 | the energy-deposition record level becomes `level`; nothing else changes |
| Component.DetectorComponent.SetRecordLevelOptPhot | geometry/include/LUXSimDetectorComponent.hh:137-138 | the optical-photon record level becomes `level`; nothing else changes |
| Component.DetectorComponent.SetRecordLevelThermElec | geometry/include/LUXSimDetectorComponent.hh:141-142 | the thermal-electron record level becomes `level`; nothing else changes |
| Component.DetectorComponent.SetLevel | geometry/include/LUXSimDetectorComponent.hh:133-142 | the three setters together: the new state is the old one with exactly the chosen kind's level replaced |
| Component.DetectorComponent.AddDeposition | geometry/include/LUXSimDetectorComponent.hh:144-145 | the step is appended at the end of the event record and the rest of the state is unchanged |
| Component.DetectorComponent.ClearRecord | geometry/include/LUXSimDetectorComponent.hh:146 | the event record becomes empty and the rest of the state is unchanged |
| Component.DetectorComponent.SetId | geometry/include/LUXSimDetectorComponent.hh:150 | the component id becomes `id` |
| Component.DetectorComponent.AddSource | geometry/src/LUXSimDetectorComponent.cc:204-222 | a source with the given fields and ratio 0 is appended to the source list; nothing else changes |
| Component.DetectorComponent.ResetSources | geometry/include/LUXSimDetectorComponent.hh:155 | the source list is emptied and the total activity set to 0; nothing else changes |
| Component.DetectorComponent.CalculateVolume | geometry/src/LUXSimDetectorComponent.cc:518-597 | a known volume is returned unchanged unless daughters are to be taken out; otherwise the volume becomes the sampled estimate, which is returned |
| Component.DetectorComponent.CalculateMass | geometry/src/LUXSimDetectorComponent.cc:600-614 | a known mass is returned unchanged; otherwise the volume is estimated if still unknown and the mass becomes volume/cm3 times the density |
| Component.DetectorComponent.GetVolume | geometry/src/LUXSimDetectorComponent.cc:619-625 | an unknown volume is estimated; a known one is returned as it is |
| Component.DetectorComponent.SetVolume | geometry/src/LUXSimDetectorComponent.cc:630-634 | the volume is stored divided by cm3; a known mass is kept, an unknown one follows from the new volume (re-estimated if the stored value is negative) |
| Component.DetectorComponent.GetMass | geometry/src/LUXSimDetectorComponent.cc:639-645 | an unknown mass is computed from the volume and density; a known one is returned unchanged, and the volume with it |
| Component.DetectorComponent.SetMass | geometry/src/LUXSimDetectorComponent.cc:650-654 | the mass is stored in grams and the volume becomes that mass over the density |
| Component.DetectorComponent.SetVolumePrecision | geometry/src/LUXSimDetectorComponent.cc:504-513 | the same precision changes nothing; a new one is stored truncated to an integer, the volume is re-estimated and the mass recomputed only if it was unknown |
| Manager.WithTrailingSlash | management/src/LUXSimManager.cc:621-627 | the stored output directory ends in exactly one added '/' unless the text already ends in '/', in which case it is stored as given; the empty text is an out-of-range error |
| Manager.TrailingSlashIdempotent | management/src/LUXSimManager.cc:621-627 | storing an already stored directory changes nothing |
| Manager.LuxManager.SetOutputDir | management/src/LUXSimManager.cc:621-627 | the directory becomes the slash-terminated text; for the empty text the call fails and the directory is unchanged |
| Manager.ParseLevelCommand | management/src/LUXSimManager.cc:771-779 | the volume name is the text before the first space and holds no space, the level is `atoi` of the remainder from that space on; a command without a space is an out-of-range error |
| Manager.LevelCommandRoundTrip | management/src/LUXSimManager.cc:699-714 | a "name level" command built as `UpdateGeometry` builds it reads back as that name and level whenever the name has no space |
| Manager.LuxManager.LevelRestoreCommands | management/src/LUXSimManager.cc:646-714 | one restoring command per registered component, each `name level` for that component's level of the kind, and each reads back as that name and level when the name has no space |
| Manager.MatchingMembers | management/src/LUXSimManager.cc:793-802 | the components a name addresses are exactly the registered ones whose name contains it |
| Manager.AnyNamedExists | management/src/LUXSimManager.cc:2125-2143 | "some component matched" holds exactly when some registered component's name contains the volume name |
| Manager.LevelsOf | management/src/LUXSimManager.cc:793-802 | the list has one level per component, in order, each that component's level of the kind |
| Manager.LevelsStep | management/src/LUXSimManager.cc:797-799 | one step of the `GetRecordLevels` loop appends the component's level exactly when its name contains the pattern |
| Manager.LuxManager.GetLevels | management/src/LUXSimManager.cc:793-802 | the result is the levels of the kind of the components whose name contains `volName`, in registry order ("***" is not special here) |
| Manager.LuxManager.GetComponentLevel | management/src/LUXSimManager.cc:807-820 | a registered component's level of the kind; 0 for one that is not registered |
| Manager.FirstNamed | management/src/LUXSimManager.cc:935-946 | the first component whose name equals the given one, or none exactly when no component has that name |
| Manager.LuxManager.GetComponentByName | management/src/LUXSimManager.cc:935-946 | returns the first registered component with exactly that name, or nothing when there is none |
| Manager.LevelSetTwice | management/src/LUXSimManager.cc:771-788 | applying the same level command twice leaves a component as applying it once does |
| Manager.LuxManager.SetLevels | management/src/LUXSimManager.cc:771-788 | a command without a space fails and changes nothing; otherwise every component addressed by the name ("***" addresses all) takes the level of the kind and every other part of every component is unchanged |
| Manager.LuxManager.ApplyLevel | management/src/LUXSimManager.cc:782-787 | the loop leaves each component as the level command leaves it: the level set when addressed, untouched otherwise |
| Manager.LuxManager.SetAddressed | management/src/LUXSimManager.cc:785-787 | one component takes the level exactly when the command addresses it |
| Manager.IndexOf | management/src/LUXSimManager.cc:749-753 | the position of the first occurrence of the component in the registry |
| Manager.RemoveFirst | management/src/LUXSimManager.cc:747-754 | removing the first occurrence: one element fewer, the same multiset less that one, the others in their order; a sequence without it is unchanged |
| Manager.RegisterDeregister | management/src/LUXSimManager.cc:747-754 | registering a new component and deregistering it again restores the registry |
| Manager.IndexOfAt | management/src/LUXSimManager.cc:749-753 | an occurrence with none before it is the first occurrence |
| Manager.DistinctRemoval | management/src/LUXSimManager.cc:747-754 | removing an element from a registry without repeats leaves none of it and no repeats |
| Manager.LuxManager.Register | management/include/LUXSimManager.hh:254-255 | the component is appended to the registry; a component not yet registered keeps the registry free of repeats |
| Manager.LuxManager.AddComponent | geometry/src/LUXSimDetectorComponent.cc:173-199 | building a component registers it at the end of the registry in the reset state of `Initialize` |
| Manager.LuxManager.Deregister | management/src/LUXSimManager.cc:747-754 | the registry loses the first occurrence of the component and nothing else; without repeats, the component is no longer registered |
| Manager.LuxManager.DestroyComponent | geometry/src/LUXSimDetectorComponent.cc:165-168 | a component being destroyed is removed from the registry as `Deregister` removes it |
| Manager.LookupTableAppend | management/src/LUXSimManager.cc:759-766 | one more component adds exactly its line at the end of the table |
| Manager.NoNewlineInLine | management/src/LUXSimManager.cc:762-763 | an "ID n: name" line holds no newline when the name holds none |
| Manager.LookupTableLines | management/src/LUXSimManager.cc:759-766 | split at newlines, the table gives back one "ID n: name" line per component, in registry order |
| Manager.Entries | management/src/LUXSimManager.cc:759-766 | the table lists each component's id and name, in registry order |
| Manager.LuxManager.GetDetectorComponentLookupTable | management/src/LUXSimManager.cc:759-766 | the table is the newline-terminated "ID n: name" lines of the registered components, in registry order |
| Manager.Word | management/src/LUXSimManager.cc:974-978 | the first word is the text before the first space and the remainder follows that space; without a space the word and the remainder are both the whole text |
| Manager.ThreeWordsOf | management/src/LUXSimManager.cc:974-978 | a command of three space-free words separated by single spaces reads back as those words |
| Manager.ThreeWordsOfOne | management/src/LUXSimManager.cc:974-978 | a one-word command uses that word as name, amount and unit alike |
| Manager.CommandMassInGrams | management/src/LUXSimManager.cc:980-985 | the mass the matched components store is the amount in grams, scaled by "ug", "mg" or "kg" and unscaled for any other unit word |
| Manager.CommandVolumeInCm3 | management/src/LUXSimManager.cc:1003-1007 | the volume the matched components store is the amount in cubic centimetres, scaled by "mm3" or "m3" and unscaled otherwise |
| Manager.LuxManager.SetComponentMass | management/src/LUXSimManager.cc:972-989 | every component whose name contains the first word takes the mass as `SetMass` stores it; every other component is unchanged |
| Manager.LuxManager.ApplyMass | management/src/LUXSimManager.cc:987-989 | the loop sets the mass of the matched components and leaves the others unchanged |
| Manager.LuxManager.SetComponentVolume | management/src/LUXSimManager.cc:995-1011 | every component whose name contains the first word takes the volume as `SetVolume` stores it; every other component is unchanged |
| Manager.LuxManager.ApplyVolume | management/src/LUXSimManager.cc:1009-1011 | the loop sets the volume of the matched components and leaves the others unchanged |
| Manager.SourceOf | management/src/LUXSimManager.cc:2137-2139 | the stored source has ratio 0 and the activity given to this volume |
| Manager.SourceSetAdds | management/src/LUXSimManager.cc:2125-2141 | the source command keeps a component's earlier sources and adds exactly one, of the parsed kind and with ratio 0, when its name contains the volume name; any other component is unchanged |
| Manager.LuxManager.SetSource | management/src/LUXSimManager.cc:1546-2152 | a command whose generator, catalog entry or units the checks as written refuse, or whose volume name no component contains, ends the program; otherwise every matching component gets the parsed source (the activity times the component's mass when it is per mass), the others are unchanged, and the run is marked as having sources, decay chains and Geant4 decays as the command says |
| Manager.LuxManager.NoteSource | management/src/LUXSimManager.cc:1743-1751 | a matched command marks the run as having sources and adds the decay-chain and Geant4-decay flags it names, never clearing one |
| Manager.LuxManager.ApplySource | management/src/LUXSimManager.cc:2125-2143 | the loop reports a match exactly when some component's name contains the volume name, and leaves each component as the source command leaves it |
| Manager.LuxManager.AddParsedSource | management/src/LUXSimManager.cc:2126-2141 | one matching component: its mass is computed if unknown when the activity is per mass, then the source is appended |
| Manager.LuxManager.ResetSources | management/src/LUXSimManager.cc:2157-2164 | every volume in the source list loses its sources and total activity, the list is emptied, the total is 0 and the run has no sources |
| Manager.LuxManager.CalculateAllRatios | management/src/LUXSimManager.cc:478-479 | every component's sources become its cumulative shares and its total activity the sum of its weights |
| Manager.LuxManager.CollectSources | management/src/LUXSimManager.cc:476-490 | after the ratios, the source list is exactly the components with nonzero total activity, with that activity, in registry order, and the simulation total is the sum of all totals |
| Manager.Totals | management/src/LUXSimManager.cc:476-490 | the total activities of the components, one per component in registry order |
| Manager.TotalsOf | management/src/LUXSimManager.cc:476-490 | any list holding each component's total activity is the list of totals |
| Manager.ActiveExactly | management/src/LUXSimManager.cc:478-488 | an entry is in the source list exactly when it is a component among the first `n` with nonzero total activity, paired with that activity |
| Manager.ActiveSum | management/src/LUXSimManager.cc:478-488 | leaving out the volumes without activity does not change the total activity |
| Manager.LuxManager.VolumesWithActivity | management/src/LUXSimManager.cc:476-490 | the entries are the components with nonzero activity in registry order, and the total is both the sum over all components and the sum over the entries |
| Manager.WindowEnd | management/src/LUXSimManager.cc:2273-2289 | without a volume with activity, or with zero total activity, the window ends at 1e10 s; otherwise it ends at a positive time, twice (more than 100 events) or four times the time the activity needs for the events |
| Manager.DepthUnique | management/src/LUXSimManager.cc:2298-2304 | the number of levels added for a count of events is unique: the count lies above 2e6 times 2^k and (below the cap) not above 2e6 times 2^(k+1) |
| Manager.DepthMonotone | management/src/LUXSimManager.cc:2298-2304 | more events never give a shallower tree |
| Manager.Pow2Monotone | management/src/LUXSimManager.cc:2300 | `pow(2., n)` grows with `n` |
| Manager.RatioAboveOne | management/src/LUXSimManager.cc:2300 | the loop test `n/(2e6*2^k) > 1` is the comparison `n > 2e6*2^k` |
| Manager.TreeDepth | management/src/LUXSimManager.cc:2278-2307 | the depth is 20 plus the unique number of doublings of 2e6 the events exceed, capped at 25, plus one for decay-chain sources |
| Manager.LuxManager.BuildEventList | management/src/LUXSimManager.cc:2262-2318 | the new tree has the depth `TreeDepth` gives, a window from 0 to `WindowEnd`, room for the requested events and no entries |
| Manager.NotLater | management/src/LUXSimManager.cc:2461-2466 | counts the leading entries not later than `t`: all of them are not later, and the next one is later |
| Manager.InsertByTime | management/src/LUXSimManager.cc:2461-2466 | insertion adds exactly the new entry to the entries |
| Manager.InsertKeepsOrder | management/src/LUXSimManager.cc:2461-2466 | inserting into a time-ordered tree keeps it time-ordered |
| Manager.LuxManager.RecordTreeInsert | management/src/LUXSimManager.cc:2461-2466 | an event whose time in ns is before the window end in s is inserted in time order; a later one leaves the tree unchanged |
| Manager.TrimKeepsEarliest | management/src/LUXSimManager.cc:2446-2456 | trimming a time-ordered tree keeps its earliest entries, in order, and no dropped entry is earlier than a kept one |
| Manager.LuxManager.TrimEventList | management/src/LUXSimManager.cc:2446-2456 | the latest entries are dropped until at most the requested number of events remain; the kept entries are the leading ones and the tree's parameters are unchanged |
| Manager.RunOf | management/src/LUXSimManager.cc:2378-2380 | counts the leading queue entries equal to the front event number: all of them are equal, and the next one is not |
| Manager.RunAsWrittenAgrees | management/src/LUXSimManager.cc:2378-2380 | the loop as written, which reads `front()` before testing `empty()`, is defined exactly when the run stops before the end of the queue, and then counts the same run |
| Manager.LastEventReadsEmptyFront | management/src/LUXSimManager.cc:2378-2380 | for the last event of a file, whose run is the whole queue, the loop as written reads the front of an empty queue |
| Manager.LuxManager.RunLength | management/src/LUXSimManager.cc:2378-2391 | walking the queue counts exactly the run of the front event number |
| Manager.LuxManager.NextEventToGenerate | management/src/LUXSimManager.cc:2375-2396 | the run of entries sharing the front event number moves, in order and in lockstep, from the six input queues to the end of the current queues; the queues stay aligned and the result is the number of current entries |
| Manager.LuxManager.NextParticleIdToGenerate | management/src/LUXSimManager.cc:2403-2410 | the front particle id of the current event is returned and removed |
| Manager.LuxManager.NextEnergyDepToGenerate | management/src/LUXSimManager.cc:2416-2423 | the front energy deposit of the current event is returned and removed |
| Manager.LuxManager.NextPositionToGenerate | management/src/LUXSimManager.cc:2429-2440 | the front x, y and z of the current event are returned as one position and removed from their queues |
| Manager.LuxManager.AddDeposition | management/src/LUXSimManager.cc:2498-2507 | a registered component gets the step appended to its record; an unregistered one, and every other component, is unchanged |
| Manager.LuxManager.SetPmtNumberingScheme | management/src/LUXSimManager.cc:2513-2519 | "real" selects the real numbering and "linear" the simulation's own; any other word leaves the choice as it was |
| Manager.LuxManager.CapturePhotons | management/src/LUXSimManager.cc:2524-2538 | true exactly when the component is registered and captures photons |
| Manager.Recorded | management/src/LUXSimManager.cc:2544-2567 | the writer gets at most one record per component, each for this event number and with this event's primaries |
| Manager.RecordStep | management/src/LUXSimManager.cc:2548-2553 | handing one more component to the writer extends the records by exactly that component's record, if it has one |
| Manager.SilentComponentsNotRecorded | management/src/LUXSimManager.cc:2548-2553 | components whose levels are all zero, or that hold no steps, add no record |
| Manager.Snapshots | management/src/LUXSimManager.cc:2544-2567 | the states of the components, one per component in registry order |
| Manager.LuxManager.RecordValues | management/src/LUXSimManager.cc:2544-2567 | when the energy cut is off, or the liquid-xenon energy lies strictly between 0.1 keV and the cut, the output gains the records of the recordable components in registry order, otherwise none; the output's header and history are unchanged and the liquid-xenon energy is reset to 0 |
| Manager.LuxManager.RecordEach | management/src/LUXSimManager.cc:2548-2553 | the loop appends the records of the components in registry order and keeps the output valid |
| Manager.LuxManager.RecordComponent | management/src/LUXSimManager.cc:2549-2553 | one component: its record is appended exactly when it is recordable and the writer emits it |
| Manager.LuxManager.ClearRecords | management/src/LUXSimManager.cc:2572-2585 | every component's steps and the primaries are cleared; after a clean end of run the output is closed and its record count patched, otherwise it is left open and unchanged |
| Manager.LuxManager.ClearComponentRecords | management/src/LUXSimManager.cc:2576-2577 | every registered component's event record becomes empty and nothing else about it changes |
| Manager.LuxManager.AddPrimaryParticle | management/include/LUXSimManager.hh:508-509 | the primary is appended to the event's primaries |
| Manager.LuxManager.SetRadioIsotopeList | management/include/LUXSimManager.hh:469 | the list is stored and every listed isotope maps to false, other entries of the map unchanged |
| Manager.LuxManager.SetRadioIsotopeMap | management/include/LUXSimManager.hh:471-472 | every listed isotope maps to false; no other key is added and no other entry changes |
| Manager.LuxManager.InitialiseEventCount | management/include/LUXSimManager.hh:216 | the event count becomes 0 |
| Manager.LuxManager.IterateEventCount | management/include/LUXSimManager.hh:217 | the event count grows by one |
| Manager.LuxManager.GetEventCount | management/include/LUXSimManager.hh:218 | returns the event count |
| Manager.LuxManager.AddLiquidXenonEnergy | management/include/LUXSimManager.hh:235-236 | the energy is added to the liquid-xenon total |
| Manager.LuxManager.SetRunEndedCleanly | management/include/LUXSimManager.hh:209 | the clean-end flag becomes the given value |
| Manager.LuxManager.GetRunEndedCleanly | management/include/LUXSimManager.hh:210 | returns the clean-end flag |
| Manager.LuxManager.SetOutputName | management/include/LUXSimManager.hh:203 | the output name becomes the given one |
| Manager.LuxManager.GetOutputName | management/include/LUXSimManager.hh:204 | returns the output name |
| Manager.LuxManager.SetAlwaysRecordPrimary | management/include/LUXSimManager.hh:213 | the always-record-primary flag becomes the given value |
| SourceUnits.ContainsByte | management/src/LUXSimManager.cc:1808-1813 | the one-letter substring tests of the unit normalisations are byte membership |
| SourceUnits.Absent | management/src/LUXSimManager.cc:1836-1857 | a unit text shorter than the pattern, a different text of its length, or one lacking the pattern's first byte does not contain it |
| SourceUnits.Present | management/src/LUXSimManager.cc:1836-1857 | a pattern occurring at some position is found |
| SourceUnits.FirstIndex | management/src/LUXSimManager.cc:1673-1674 | `find_first_of` gives the first position holding the separator |
| SourceUnits.SplitAt | management/src/LUXSimManager.cc:1673-1681 | without the separator the text is returned whole with no remainder; with it, the prefix holds no separator and prefix, separator and remainder make up the text |
| SourceUnits.FirstIndexJoin | management/src/LUXSimManager.cc:1673-1674 | in a text joined at a separator absent from its first part, the first separator ends that part |
| SourceUnits.SplitAtJoin | management/src/LUXSimManager.cc:1673-1681 | splitting a text joined at the separator gives back both parts |
| SourceUnits.Fields | management/src/LUXSimManager.cc:1701-1716 | the pieces `getline` extracts never hold the separator |
| SourceUnits.FieldsJoin | management/src/LUXSimManager.cc:1701-1716 | joining the pieces again gives back a text that does not end with the separator |
| SourceUnits.FieldsOfJoin | management/src/LUXSimManager.cc:1697-1716 | non-empty, separator-free pieces joined with commas split back into the same pieces |
| SourceUnits.ParticleListsSplit | management/src/LUXSimManager.cc:1697-1716 | the two comma-separated particle lists split into exactly the intended names and tokens |
| SourceUnits.ExactParticlesArePieces | management/src/LUXSimManager.cc:1697-1700 | the exact particle names are non-empty and comma-free |
| SourceUnits.ParticleTokensArePieces | management/src/LUXSimManager.cc:1709-1711 | the particle tokens are non-empty and comma-free |
| SourceUnits.ScanParticleLists | management/src/LUXSimManager.cc:1701-1717 | the two loops accept a particle name exactly when it equals one exact name or contains one token |
| SourceUnits.GeneratorSuffix | management/src/LUXSimManager.cc:1683-1692 | a generator name without '_' ends the program; otherwise the name proper (free of '_') and the argument after the first '_' make up the name |
| SourceUnits.DecayNumbers | management/src/LUXSimManager.cc:1760-1770 | an `A_Z` argument without a second '_' is an out-of-range error |
| SourceUnits.NoUnderscoreInDecimal | management/src/LUXSimManager.cc:1760-1770 | a number written out holds no '_' |
| SourceUnits.DecayNumbersRoundTrip | management/src/LUXSimManager.cc:1760-1770 | `A_Z` with both numbers written out reads back as A and Z |
| SourceUnits.SplitActivityUnit | management/src/LUXSimManager.cc:1673-1681 | without '/' the whole unit is the activity unit and the mass unit is "0"; with it, the activity unit (free of '/') and the mass unit after the first '/' make up the text |
| SourceUnits.SplitActivityUnitJoin | management/src/LUXSimManager.cc:1673-1681 | "activity/mass" splits into its two units |
| SourceUnits.MassFlags | management/src/LUXSimManager.cc:1808-1813 | the per-mass normalisation is the product of the "m", "u" and "k" multipliers, each chosen by byte membership |
| SourceUnits.MassFactorTable | management/src/LUXSimManager.cc:1788-1813 | the substring tests give each of "0", "g", "kg", "mg" and "ug" its number of units per gram |
| SourceUnits.MassScale | management/src/LUXSimManager.cc:1788-1813 | a mass unit off the list ends the program; a listed one gives exactly its units per gram |
| SourceUnits.CheckedEnergy | management/src/LUXSimManager.cc:1859-1894 | an energy unit off the list ends the program; a listed one is normalised |
| SourceUnits.NoPrefixEnergy | management/src/LUXSimManager.cc:1836-1857 | for a unit without '0', 'k', 'M' or 'G', only "eV" and "*eV" select electron-volts and anything else has no scaling |
| SourceUnits.ZeroEnergyAt | management/src/LUXSimManager.cc:1836 | of the listed energy units only "0" contains "0" |
| SourceUnits.PrefixedEnergyAt | management/src/LUXSimManager.cc:1837-1848 | the listed units containing "keV", "MeV" or "GeV" are exactly that unit and its starred form |
| SourceUnits.ElectronVoltAt | management/src/LUXSimManager.cc:1849-1850 | exactly "eV" and "*eV" among the listed units are plain electron-volts |
| SourceUnits.EnergyAt | management/src/LUXSimManager.cc:1836-1857 | the normalisation gives each listed unit its value |
| SourceUnits.EnergyScaleTable | management/src/LUXSimManager.cc:1815-1857 | every listed energy unit scales the energy by exactly its value, so none of them is refused |
| SourceUnits.ExtendedEnergyUnitsRefused | management/src/LUXSimManager.cc:1899-1902 | the length units pushed onto the energy list by mistake are still refused by the energy normalisation |
| SourceUnits.SingleParticleEnergyAsWritten | management/src/LUXSimManager.cc:1822-1857 | with the allow-list flag starting true, the single-particle energy is whatever the normalisation makes of the unit |
| SourceUnits.SingleParticleEnergy | management/src/LUXSimManager.cc:1815-1857 | the single-particle energy with its allow-list test in force: a unit off the list ends the program, a listed one is normalised as written |
| SourceUnits.SingleParticleUnitUnchecked | management/src/LUXSimManager.cc:1822-1828 | "keVs" is refused by the list but taken for keV by the code as written |
| SourceUnits.TwoElectronsEnergy | management/src/LUXSimManager.cc:1951-1990 | the two-electron energy check against the extended list refuses and scales exactly as the check against the plain energy list |
| SourceUnits.TwoElectronsEnergies | management/src/LUXSimManager.cc:1951-1990 | the unit is tested once: both bounds are accepted exactly when the lower one is, each scaled as the single-bound check scales it |
| SourceUnits.LengthValue | management/src/LUXSimManager.cc:1896-1902 | a listed length unit's value is the one in the length table |
| SourceUnits.GammaXLengthsScaled | management/src/LUXSimManager.cc:1896-1949 | a length unit off the list ends the program; a listed one scales all six gamma-X lengths by its value |
| SourceUnits.LengthTests | management/src/LUXSimManager.cc:1915-1944 | which of the "0", "mm", "cm" and "m" tests each listed length unit passes |
| SourceUnits.GammaXLengthsAgree | management/src/LUXSimManager.cc:1915-1929 | for "0", "mm" and "cm" the gamma-X lengths as written are scaled as the unit says |
| SourceUnits.GammaXMetreMisscaled | management/src/LUXSimManager.cc:1930-1936 | as written, one metre becomes 0.1 mm for the fiducial radius and 1e5 mm for the other five lengths, and "um" takes the same branch as "m" |
| SourceUnits.TwoElectronsLength | management/src/LUXSimManager.cc:1992-2019 | a length unit off the list ends the program; a listed one scales the two-electron length by its value |
| SourceUnits.TwoElectronsLengthUsesGammaXUnit | management/src/LUXSimManager.cc:2008-2011 | as written, with the default gamma-X unit "cm", a two-electron length in metres is scaled as centimetres |
| SourceUnits.TwoElectronsLengthAgree | management/src/LUXSimManager.cc:1992-2019 | the code as written scales correctly whenever the two units are the same (micrometres aside) or the unit is "0" or "mm" |
| SourceUnits.ActivityFlags | management/src/LUXSimManager.cc:2068-2078 | the activity normalisation is the product of the "Ci" multiplier and the "m", "u", "n" and "k" multipliers chosen by byte membership |
| SourceUnits.CuriesAt | management/src/LUXSimManager.cc:2048-2056 | exactly the first four listed activity units contain "Ci" |
| SourceUnits.ActivityLettersTable | management/src/LUXSimManager.cc:2068-2078 | the letter multipliers give each listed activity unit its value in Bq |
| SourceUnits.ActivityFactorTable | management/src/LUXSimManager.cc:2045-2078 | the substring tests give each of the nine listed activity units exactly its value in Bq |
| SourceUnits.ActivityScale | management/src/LUXSimManager.cc:2045-2078 | an activity unit off the list ends the program; a listed one gives exactly its value in Bq |
| SourceUnits.AgeFlags | management/src/LUXSimManager.cc:2106-2117 | the age normalisation is the product of the "k", "M", "G", "d", "h" and "y" multipliers chosen by byte membership |
| SourceUnits.AgeLettersTable | management/src/LUXSimManager.cc:2106-2117 | the letter multipliers give each listed age unit its length in seconds |
| SourceUnits.AgeFactorTable | management/src/LUXSimManager.cc:2080-2117 | the substring tests give each of the thirteen listed age units exactly its length in seconds |
| SourceUnits.AgeScale | management/src/LUXSimManager.cc:2080-2117 | an age unit off the list ends the program; a listed one gives exactly its length in seconds |
| SourceUnits.Placement | management/src/LUXSimManager.cc:1592-1618 | a first word naming a point generator or a catalog entry puts the source at a position in "universe" with that word as generator; otherwise the first word is the volume and the second the generator |
| SourceUnits.SingleParticleStage | management/src/LUXSimManager.cc:1683-1727 | `SingleParticle_name` is accepted exactly when it has a '_' and the particle name passes the list check; the generator name and particle name then make up the text |
| SourceUnits.DecayChainStage | management/src/LUXSimManager.cc:1731-1744 | `DecayChain_isotope` is accepted exactly when it has a '_'; the generator name and parent isotope then make up the text and a decay chain is noted |
| SourceUnits.SingleDecayStage | management/src/LUXSimManager.cc:1748-1771 | a single-decay name without '_' ends the program; an accepted one notes a Geant4 decay exactly when the name contains "G4Decay" and leaves a name free of '_' |
| SourceUnits.ParseGenerator | management/src/LUXSimManager.cc:1683-1771 | the three generator-name tests in order: a name containing none of the three generator names passes unchanged |
| SourceUnits.AbsentExceptAt | management/src/LUXSimManager.cc:1683-1771 | a pattern whose first byte occurs only at one position, and not followed there by the rest, is absent |
| SourceUnits.DecimalLetters | management/src/LUXSimManager.cc:1769-1770 | a number written out holds only a sign and digits |
| SourceUnits.DecayArgumentNumeric | management/src/LUXSimManager.cc:1760-1770 | `A_Z` written out holds only signs, digits and '_' |
| SourceUnits.SingleDecayNameTests | management/src/LUXSimManager.cc:1683-1771 | `SingleDecay_` followed by such text contains "SingleDecay" and none of the other generator names |
| SourceUnits.SingleDecayRoundTrip | management/src/LUXSimManager.cc:1748-1771 | `SingleDecay_A_Z` with both numbers written out gives the single-decay generator with those A and Z |
| SourceUnits.FirstNamed | management/src/LUXSimManager.cc:1773-1786 | the first catalog entry with the name, or none exactly when no entry has it |
| SourceUnits.FindSourceType | management/src/LUXSimManager.cc:1773-1786 | the loop over the catalog returns exactly the first entry with the name, or none |
| SourceUnits.ParseEnergies | management/src/LUXSimManager.cc:1815-1990 | as written, accepted energies carry the single-particle energy as the normalisation scales it, listed unit or not, and the gamma-X and two-electron units are listed |
| SourceUnits.ParseEnergiesIntended | management/src/LUXSimManager.cc:1815-1990 | as intended, the energies are accepted exactly when the written checks accept them and the single-particle unit is listed, and then they are the same |
| SourceUnits.ParseSettings | management/src/LUXSimManager.cc:1815-2019 | as written, accepted settings have every unit listed except possibly the single-particle energy unit; gamma-X lengths in "0", "mm" or "cm" are scaled by that unit, and a two-electron length in "0" or "mm" by its own |
| SourceUnits.ParseSettingsIntended | management/src/LUXSimManager.cc:1815-2019 | as intended, the settings are accepted only when every energy and length unit is listed, and then each length is scaled by its own unit |
| SourceUnits.ParseSettingsAgree | management/src/LUXSimManager.cc:1815-2019 | with a listed single-particle energy unit, a gamma-X length unit of "0", "mm" or "cm", and a two-electron length unit of "0", "mm" or the gamma-X one, the written checks give exactly the intended settings, refusals included |
| SourceUnits.SourceActivity | management/src/LUXSimManager.cc:1672-2078 | accepted exactly when the activity unit and the mass unit are both listed, and then the activity is scaled by the mass unit's units per gram and the activity unit's value in Bq |
| SourceUnits.SourceAge | management/src/LUXSimManager.cc:2080-2117 | accepted exactly when the age unit is listed, and then the age is in seconds |
| SourceUnits.ParseSource | management/src/LUXSimManager.cc:1546-2118 | an accepted command names a known generator from the catalog, keeps its volume name, is per mass exactly when a mass unit follows the slash, carries the converted activity and age, and the energies and lengths of the settings as written |
| SourceUnits.ParseSourceIntended | management/src/LUXSimManager.cc:1546-2118 | the same command check with the energies and lengths as intended |
| SourceUnits.ParseSourceAgree | management/src/LUXSimManager.cc:1546-2118 | for units the written checks handle as intended, the command is parsed exactly as intended |
| SourceUnits.PlainSourceAccepted | management/src/LUXSimManager.cc:1546-2118 | a plain catalog source on a volume with the default settings and any listed activity unit is accepted, with its activity converted to Bq |
| SourceUnits.PlainActivity | management/src/LUXSimManager.cc:1673-1681 | a bare listed activity unit has mass unit "0" and takes its own conversion |
| SourceUnits.DefaultSettings | management/src/LUXSimManager.cc:1559-1580 | the default units pass every energy and length check, as written and as intended |
| Text.FindFrom | io/src/LUXSimOutput.cc:164-165 | the result is a position at or after the start where the pattern occurs, with no earlier occurrence from the start; none means no occurrence from the start on |
| Text.Find | io/src/LUXSimOutput.cc:164-165 | `find` gives the first occurrence of the pattern, and `npos` exactly when it occurs nowhere |
| Text.ContainsIff | management/src/LUXSimManager.cc:721-734 | a `find(...) < npos` test holds exactly when the pattern occurs at some position |
| Text.ContainsItself | management/src/LUXSimManager.cc:786 | every name contains itself, so a component always matches its own full name |
| Text.CString | tools/LUXSimMatlabReader_LoadFile.c:79-81 | a C string read from a buffer is its prefix up to, and without, the first NUL byte |
| Text.NatDigits | management/src/LUXSimManager.cc:699-714 | a natural number is written as a non-empty run of digits with no leading zero |
| Text.Decimal | management/src/LUXSimManager.cc:699-714 | `stream << n` writes at least one byte |
| Text.LeadingDigits | management/src/LUXSimManager.cc:779 | the digits `atoi` reads are the longest run of digits at the head of the text |
| Text.SkipSpaces | management/src/LUXSimManager.cc:779 | `atoi` starts past the leading white space, at a byte that is not white space |
| Text.DigitsValueOfNat | management/src/LUXSimManager.cc:699-714 | the digits written for a natural number read back as that number |
| Text.LeadingDigitsOf | management/src/LUXSimManager.cc:779 | digits followed by a non-digit are exactly the run `atoi` reads |
| Text.AtoiUnsigned | management/src/LUXSimManager.cc:779 | `atoi` of a blank, digits and a non-digit tail is the value of the digits |
| Text.AtoiNegative | management/src/LUXSimManager.cc:779 | `atoi` of a blank, a minus sign, digits and a non-digit tail is minus the value of the digits |
| Text.DecimalOfNegative | management/src/LUXSimManager.cc:699-714 | a negative number is written as a minus sign followed by the digits of its magnitude |
| Text.DecimalOfNatural | management/src/LUXSimManager.cc:699-714 | a natural number is written as its digits alone |
| Text.DecimalRoundTrip | management/src/LUXSimManager.cc:699-714 | `atoi` of a blank, the number written out, and a tail not starting with a digit gives back the number |
| Text.AtoiSkipsBlank | management/src/LUXSimManager.cc:779 | a leading blank does not change what `atoi` reads |
| Text.DecimalAtoi | management/src/LUXSimManager.cc:699-714 | `atoi` of the number written out, followed by a tail not starting with a digit, gives back the number |
| PmtRenumbering.TopBottomPartition | geometry/src/LUXSim1_0PMTRenumbering.cc:165-177 | no real PMT is both top and bottom, and the two arrays together are exactly real PMTs 1-122 |
| PmtRenumbering.TopSims | geometry/src/LUXSim1_0PMTRenumbering.cc:16-138 | old simulation PMTs 1-61 go to top real PMTs, and the inverse table brings each back |
| PmtRenumbering.BottomSims | geometry/src/LUXSim1_0PMTRenumbering.cc:16-138 | old simulation PMTs 62-122 go to bottom real PMTs, and the inverse table brings each back |
| PmtRenumbering.TopReals | geometry/src/LUXSim1_0PMTRenumbering.cc:16-147 | every top real PMT comes from one of old simulation PMTs 1-61, which the table sends back to it |
| PmtRenumbering.BottomReals | geometry/src/LUXSim1_0PMTRenumbering.cc:16-147 | every bottom real PMT comes from one of old simulation PMTs 62-122, which the table sends back to it |
| PmtRenumbering.SimToRealBijective | geometry/src/LUXSim1_0PMTRenumbering.cc:16-147 | the table sends each old simulation PMT 1-122 to a real PMT 1-122 that the inverse sends back, top for 1-61 and bottom for 62-122 |
| PmtRenumbering.RealToSimBijective | geometry/src/LUXSim1_0PMTRenumbering.cc:16-147 | each real PMT 1-122 is the image of the old simulation PMT the inverse gives, which is 1-61 for a top PMT and 62-122 for a bottom one |
| PmtRenumbering.Renumbering.Initializer | geometry/src/LUXSim1_0PMTRenumbering.cc:13-149 | after the fill, `simToReal` holds the table and `realToSim` holds its inverse in every slot, 0 where no PMT maps |
| PmtRenumbering.Renumbering.GetRealFromOldSim | geometry/src/LUXSim1_0PMTRenumbering.cc:151-156 | 0 outside 1-122; a top real PMT for old PMTs 1-61 and a bottom one for 62-122 |
| PmtRenumbering.Renumbering.GetOldSimFromReal | geometry/src/LUXSim1_0PMTRenumbering.cc:158-163 | 0 outside 1-122; otherwise an old PMT in 1-122 that `GetRealFromOldSim` sends back to the real PMT, in 1-61 for top and 62-122 for bottom PMTs |
| PmtRenumbering.Renumbering.SimRoundTrip | geometry/src/LUXSim1_0PMTRenumbering.cc:151-163 | going to the real numbering and back gives every old simulation PMT 1-122 again |
| PmtRenumbering.Renumbering.GetTopArrayIndexFromReal | geometry/src/LUXSim1_0PMTRenumbering.cc:179-203 | -1 for a PMT not in the top array; a slot 0-60 for one in it, which in the old numbering is its old simulation number minus one |
| PmtRenumbering.Renumbering.GetBottomArrayIndexFromReal | geometry/src/LUXSim1_0PMTRenumbering.cc:205-228 | -1 for a PMT not in the bottom array; a slot 0-60 for one in it, which in the old numbering is its old simulation number minus 62 |
| PmtRenumbering.Renumbering.TopIndexInjective | geometry/src/LUXSim1_0PMTRenumbering.cc:179-203 | two top PMTs with the same slot, in either numbering, are the same PMT |
| PmtRenumbering.Renumbering.BottomIndexInjective | geometry/src/LUXSim1_0PMTRenumbering.cc:205-228 | two bottom PMTs with the same slot, in either numbering, are the same PMT |
| Vrml.Split | tools/rewrite_wrl.py:64 | `split` gives at least one piece, none holding the separator |
| Vrml.SplitJoin | tools/rewrite_wrl.py:63-64 | joining the pieces of a split with the separator gives back the text |
| Vrml.StripLeftDrops | tools/rewrite_wrl.py:42 | `lstrip` removes exactly the leading white space and leaves a suffix that starts with none |
| Vrml.StripRightDrops | tools/rewrite_wrl.py:42 | `rstrip` removes exactly the trailing white space and leaves a prefix that ends with none |
| Vrml.StripEmptyIff | tools/rewrite_wrl.py:64 | `shape.strip()` is empty exactly when the piece is blank, so blank pieces are the ones dropped |
| Vrml.StripInside | tools/rewrite_wrl.py:42 | stripping adds no byte and leaves a text starting and ending with no white space |
| Vrml.Drop | tools/rewrite_wrl.py:38 | the slice `[11:]` is empty on a shorter text and the tail otherwise |
| Vrml.ReplaceAbsent | tools/rewrite_wrl.py:158 | `replace` leaves a text without the pattern unchanged |
| Vrml.ContainsOne | tools/rewrite_wrl.py:154 | a one-byte pattern occurs exactly when the byte does |
| Vrml.ReplaceCharSplit | tools/rewrite_wrl.py:158 | replacing a byte keeps the text before its first occurrence and puts the replacement there |
| Vrml.ReplaceCharIsSplitJoin | tools/rewrite_wrl.py:158 | replacing a byte is splitting at it and joining with the replacement: the replacement goes exactly where each occurrence was |
| Vrml.SubInLine | tools/rewrite_wrl.py:46-54 | a rewritten line without a newline, given a value without one, still has none |
| Vrml.SubLineAbsent | tools/rewrite_wrl.py:46-54 | the substitution leaves a text without the key unchanged |
| Vrml.SubLines | tools/rewrite_wrl.py:46-54 | each line followed by a newline is rewritten on its own and the last line is kept |
| Vrml.SubLineLines | tools/rewrite_wrl.py:46-54 | the substitution keeps the line structure: its lines are the text's lines, each rewritten on its own except the last |
| Vrml.FirstLine | tools/rewrite_wrl.py:41 | the first line holds no newline |
| Vrml.UpToFirst | tools/rewrite_wrl.py:38-41 | the text before the first separator is the first piece of `split(c, 1)` |
| Vrml.UpToNoSep | tools/rewrite_wrl.py:38-41 | the text before the first separator holds none |
| Vrml.AfterLastSuffix | tools/rewrite_wrl.py:42 | the text after the last separator is a suffix holding none |
| Vrml.UpToSep | tools/rewrite_wrl.py:41 | the first line of a text starting with a line and a newline is that line |
| Vrml.AfterLastAfter | tools/rewrite_wrl.py:42 | what precedes the last separator does not change the text after it |
| Vrml.AfterLastWhole | tools/rewrite_wrl.py:42 | a text without the separator is all after the last one |
| Vrml.AfterLastIsLastPiece | tools/rewrite_wrl.py:42 | the text after the last separator is `split(c)[-1]` |
| Vrml.ObjectNameClean | tools/rewrite_wrl.py:40-42 | a shape's name holds no colon and no newline, and starts and ends with no white space |
| Vrml.SplitNone | tools/rewrite_wrl.py:64 | a text without the separator splits into itself alone |
| Vrml.SplitCons | tools/rewrite_wrl.py:64 | the first piece ends at the first separator |
| Vrml.NameIsPythonName | tools/rewrite_wrl.py:40-42 | the name is `text.split("\n", 1)[0].split(":")[-1].strip()` |
| Vrml.ObjectNameOf | tools/rewrite_wrl.py:40-42 | a shape whose first line ends with a colon and a name is named after that name, stripped |
| Vrml.ObjectCategory | tools/rewrite_wrl.py:36-38 | the category holds no colon |
| Vrml.ObjectCategoryOf | tools/rewrite_wrl.py:36-38 | the category is the text between the 11-byte rule and the first colon |
| Vrml.HashLetterName | tools/rewrite_wrl.py:40-42 | a shape "#x" with a one-letter name x is named "#x" |
| Vrml.VrmlObject.constructor | tools/rewrite_wrl.py:30-42 | a shape keeps its text, with the category and name cut from it |
| Vrml.VrmlObject.Substitute | tools/rewrite_wrl.py:46-54 | the shape's text is rewritten by the line substitution of the key |
| Vrml.VrmlObject.SetTransparency | tools/rewrite_wrl.py:44-46 | the transparency lines are rewritten with the new value |
| Vrml.VrmlObject.SetColor | tools/rewrite_wrl.py:48-50 | the diffuse colour lines are rewritten with the three integers |
| Vrml.VrmlObject.SetViewpoint | tools/rewrite_wrl.py:52-54 | the position lines are rewritten with the three integers |
| Vrml.ShapesOf | tools/rewrite_wrl.py:64 | every kept shape is '#' followed by a piece that is not blank, and there are no more shapes than pieces |
| Vrml.Shapes | tools/rewrite_wrl.py:64 | every raw shape is '#' followed by a non-blank text holding no '#' |
| Vrml.ShapesOfNoHash | tools/rewrite_wrl.py:64 | pieces without '#' give shapes holding no '#' after the first byte |
| Vrml.RenderCons | tools/rewrite_wrl.py:76-80 | the written file is the version line, the comment line, the camera's text and the shapes' texts in order |
| Vrml.ConcatShapesOf | tools/rewrite_wrl.py:64 | with no blank piece, the shapes put back together give '#' followed by the pieces joined with '#' |
| Vrml.ParseHeader | tools/rewrite_wrl.py:63-64 | the version and comment lines come off first; a remainder with no shape has no camera to pop, and otherwise it is cut into shapes |
| Vrml.ShapesRoundTrip | tools/rewrite_wrl.py:63-64 | a text made only of shapes is cut into at least one shape, and the shapes put back together give the text |
| Vrml.ParseRender | tools/rewrite_wrl.py:63-81 | reading a file of two header lines and shapes gives them back, and writing them gives the file back |
| Vrml.ParseValueError | tools/rewrite_wrl.py:63 | unpacking the header fails exactly when the file has fewer than two newlines |
| Vrml.Names | tools/rewrite_wrl.py:65 | the names of the shapes, one per shape and in order |
| Vrml.KeptNames | tools/rewrite_wrl.py:136-145 | the names left are no more than the names and none of them is selected |
| Vrml.KeptUpTo | tools/rewrite_wrl.py:136-145 | every shape kept from a prefix comes from it and is not selected |
| Vrml.Kept | tools/rewrite_wrl.py:136-145 | every shape kept is one of the shapes and is not selected |
| Vrml.KeptKeeps | tools/rewrite_wrl.py:136-145 | every shape that is not selected is kept |
| Vrml.KeptNamesOf | tools/rewrite_wrl.py:136-145 | the names of the kept shapes are the kept names |
| Vrml.KeptNamesSnoc | tools/rewrite_wrl.py:136-145 | one more name is kept exactly when it is not selected |
| Vrml.RemoveFirst | tools/rewrite_wrl.py:139-140 | `list.remove(x)` takes out one element when `x` is present and changes nothing otherwise |
| Vrml.RemoveFirstAt | tools/rewrite_wrl.py:139-140 | `list.remove(x)` takes out the first occurrence of `x` |
| Vrml.RemoveFirstMultiset | tools/rewrite_wrl.py:139-140 | `list.remove(x)` of a present `x` takes exactly one `x` out of the entries |
| Vrml.RemoveFirstIndex | tools/rewrite_wrl.py:139-140 | `list.remove(x)` takes `x` out at its first occurrence: the list without that one position |
| Vrml.ZipRemove | tools/rewrite_wrl.py:136-145 | the loop as written, over the pairs Python 2's `zip` builds before it starts, never lengthens the shapes or the raw texts |
| Vrml.ShapesStep | tools/rewrite_wrl.py:136-140 | one round of the loop on distinct shapes: the shape paired in that round is still in the list, and the list becomes the shapes kept so far followed by those still to visit |
| Vrml.RawsStep | tools/rewrite_wrl.py:136-140 | the raw text paired in each round is still among the raw texts left, so `remove` never raises, and the partners still to come stay among them |
| Vrml.ZipRemoveKept | tools/rewrite_wrl.py:136-145 | from distinct shapes and at least as many raw texts, the loop as written leaves exactly the shapes not selected, in order, and the raw texts lose as many entries as the shapes |
| Vrml.RemoveFirstValid | tools/rewrite_wrl.py:139 | taking a shape out by `list.remove` keeps the shapes distinct and without the camera |
| Vrml.NamesOf | tools/rewrite_wrl.py:65 | the names cut from the raw shapes, one per shape and in order |
| Vrml.PartnersNames | tools/rewrite_wrl.py:136-145 | the raw shapes paired with the kept names are named as the kept names |
| Vrml.RawsKeptAligned | tools/rewrite_wrl.py:136-145 | removing as intended keeps each raw shape paired with its shape |
| Vrml.RemoveMisaligns | tools/rewrite_wrl.py:136-145 | with camera "#C" and shapes "#A" and "#B", removing "#B" keeps "#A" but removes the raw text "#A", so the raw texts no longer pair up with the shapes; removing as intended keeps it |
| Vrml.DefaultOutputName | tools/rewrite_wrl.py:73-74 | a name whose only ".wrl" is at the end is written to the same stem with "_edit.wrl" |
| Vrml.Texts | tools/rewrite_wrl.py:78-80 | the texts of the shapes, one per shape and in order |
| Vrml.VrmlFile.constructor | tools/rewrite_wrl.py:63-66 | the file keeps its name, version, comment and raw shapes; the camera's text followed by the shapes' texts are the raw shapes, and the shapes pair up with the raw texts after the camera's |
| Vrml.VrmlFile.MakeObjects | tools/rewrite_wrl.py:65 | one fresh, distinct shape per raw text, with that text and the name cut from it |
| Vrml.VrmlFile.Open | tools/rewrite_wrl.py:57-66 | a file whose header does not unpack or which has no shape fails with the Python error; otherwise the file's layout is the text's, and writing it gives the rendered layout |
| Vrml.VrmlFile.Write | tools/rewrite_wrl.py:68-81 | the name is the given one or the input name with "_edit.wrl", and the contents are the header lines, the camera and the shapes |
| Vrml.VrmlFile.SetViewpoint | tools/rewrite_wrl.py:84-86 | only the camera's position lines are rewritten |
| Vrml.VrmlFile.EditSelected | tools/rewrite_wrl.py:98-124 | the selected shapes have their key lines rewritten and the others are unchanged |
| Vrml.VrmlFile.SetTransparency | tools/rewrite_wrl.py:88-105 | the selected shapes, by exact name or by substring, have their transparency rewritten and the others are unchanged |
| Vrml.VrmlFile.SetColor | tools/rewrite_wrl.py:107-124 | the selected shapes, by exact name or by substring, have their colour rewritten and the others are unchanged |
| Vrml.VrmlFile.Remove | tools/rewrite_wrl.py:126-145 | the shapes and raw texts left are those of the loop over the pairs `zip` built first; from at least as many raw texts as shapes, exactly the shapes not selected remain, in order, the raw texts lose as many entries, and the camera stays |
| Vrml.VrmlFile.RemoveIntended | tools/rewrite_wrl.py:126-145 | exactly the shapes not selected remain, in order, with their own raw texts, and the camera stays |
| Vrml.VrmlFile.SetFieldOfView | tools/rewrite_wrl.py:147-158 | a camera holding "fieldOfView" makes the call fail and stays as it was; otherwise a field-of-view line goes before each "}" |
| Vrml.VrmlFile.SetFieldOfViewIntended | tools/rewrite_wrl.py:147-158 | an existing field of view is rewritten in the camera's own text; otherwise a field-of-view line goes before each "}" |
| Vrml.PopCamera | tools/rewrite_wrl.py:65-66 | after `pop(0)`, the camera is not among the distinct shapes left, and they pair up with the raw texts after the camera's |
| Vrml.RemoveAtValid | tools/rewrite_wrl.py:139 | taking one shape out keeps the shapes distinct and without the camera |
| Vrml.KeptValid | tools/rewrite_wrl.py:136-145 | the kept shapes are distinct and do not hold the camera |
| Vrml.KeptDistinct | tools/rewrite_wrl.py:136-145 | keeping shapes keeps them distinct |
| Vrml.FieldOfViewTwiceFails | tools/rewrite_wrl.py:154-158 | once a field-of-view line has been added before a "}", the camera holds "fieldOfView", so a second call takes the failing branch |
| Vrml.ReplaceShowsKey | tools/rewrite_wrl.py:158 | replacing the "}" of a text that has one with a text holding the key leaves the key in the result |
| Stacking.Capped | processing/src/LUXSimStackingAction.cc:60 | a time above 1e17 ns becomes 1e10 ns and any other is kept, so no time exceeds 1e17 ns |
| Stacking.NewGlobalTimeBounded | processing/src/LUXSimStackingAction.cc:59-64 | no track leaves with a time above 1e17 ns; a track whose isotope the map marks false starts at 0, and any other time within the ceiling is kept |
| Stacking.NewGlobalTimeIdempotent | processing/src/LUXSimStackingAction.cc:59-64 | classifying a track a second time leaves the time the first pass gave it |
| Stacking.Track.constructor | processing/src/LUXSimStackingAction.cc:46-69 | a track carries its PDG code and global time |
| Stacking.StackingAction.constructor | processing/src/LUXSimStackingAction.cc:30-35 | the action keeps the manager; the last time starts as the caller gives it, since the constructor's local hides the field |
| Stacking.StackingAction.ClassifyNewTrack | processing/src/LUXSimStackingAction.cc:46-69 | every track is urgent; with the decay generator off nothing changes; with it on, a track whose isotope the map marks false starts at 0 and any other keeps its time, capped at the ceiling |

## Left out

- File and system I/O is not modelled. This covers opening, reading, seeking and closing files, the `mv` of the temporary output file, `system()` calls, directory listing, permission checks and `sleep`. The readers take the file's bytes as input, and the writer keeps the file as a byte sequence.
- The four header strings of `LUXSimOutput` are inputs. They come from the clock, from `svn info` or `git rev-parse`, and from `uname`.
- Floating-point arithmetic is left out:
  - doubles in the file are opaque 8-byte words;
  - the writer's left-to-right energy sum is a parameter `fadd`, and the sign of a double is read from its bits;
  - the manager and the components use exact reals.
- Output.OutputFile: `numRecords` and record counts are unbounded integers. An `int` overflow of the count is not modelled.
- The rotation and translation arithmetic of `DetermineCenterAndExtent` is not modelled. Only the path search is.
- The Monte-Carlo estimate of `CalculateVolume` is not modelled. It is the parameter `sampled`, as is `atof` of the mass and volume commands.
- Component.DetectorComponent.DetermineCenterAndExtent: requires that the component is placed below the reference volume. The C++ search runs past its stack when it is not.
- Component.DetectorComponent.SetVolumePrecision: requires a precision that fits an `int`, because the truncating conversion is undefined outside that range.
- Component.MassSet: requires a positive density. Every Geant4 material has one.
- Component.DetectorComponent.CalculateRatios: with a total activity of zero, the C++ ratios are NaN or infinite. The model leaves them undivided and proves the cumulative distribution only for a positive total.
- Manager.LuxManager.AddComponent: requires that no component is registered twice. The source registers each component once, from its constructor.
- Manager.LuxManager.NextEventToGenerate: requires a nonempty queue. `front()` on an empty `std::queue` is undefined; the Findings table shows that the loop as written reaches it.
- Manager.LuxManager.NextParticleIdToGenerate, NextEnergyDepToGenerate and NextPositionToGenerate: each requires a nonempty current queue, for the same reason.
- Manager.LuxManager.TrimEventList: requires a non-negative event count.
- `RecalculateFields`, the field interpolations, the `Load*` readers, `BeamOn`, the geometry-rebuilding setters and `GenerateEvent`'s tree traversal are left out. They are floating-point numerics, file I/O or Geant4 calls, or they need the binary search tree, which is not part of this model.
- The random parts of the component (`GetEventLocation`, `GenerateEventList`) and of the source generators are left out.
- Messages printed to the console, including the warnings before each `exit(0)`, are left out. An `exit(0)` is the error result `Exit`.
- `std::map` iteration order is not modelled. The stacking action's loop visits the keys in any order, and its outcome does not depend on the order.
- Stacking.StackingAction.constructor: the constructor's `double lastTime = 0;` declares a local, so the field is left uninitialised. The model takes its initial value as a parameter.
- PyReader: the values of the `primary_event_num` column are not modelled, only the `ValueError` its store at line 283 raises (see Findings). As written, the column stays the 1×3 array of line 213; as intended, it would hold one event number per primary. The columns of the reader as intended leave it out too.
- PyReader: the driver's continuous mode, its directory listing and `np.savez_compressed` are not modelled. The per-file decisions (the output name, skipping, the deleted name keys) are.
- CReader: MATLAB's `mx*` allocation, `mxFree` and the copying into output structures are not modelled. The arrays the fill pass writes are the result.
- CReader: the C reader leaves some outcomes undefined: a short `fread` into an uninitialised local, and a negative length or count. These become a `CFault`. The energy field of a primary is stored as unspecified, as the code leaves it.
- Vrml: the `__main__` driver (lines 161-191 of `tools/rewrite_wrl.py`) and the conversion of degrees to radians are not modelled. `set_field_of_view` and `set_transparency` take the `%f` text of their value.
- Vrml.VrmlFile.Open: the file name and its text are inputs; reading the file is left out.
- Text.Atoi: values beyond the range of `int` are not modelled.
- SourceUnits.Command: the command reaches the model as its fields. Three parts of `SetSource` are left out: the tokenising of the command text with a `stringstream` (lines 1585-1637 of `management/src/LUXSimManager.cc`); the `EventsFile` branch, which reads a file through `LoadEventsFile` (lines 1638-1642); and the `exit(0)` when a word fails to convert (lines 1644-1658).

## Findings

| source | as written | input that shows it | evidently intended | confidence | as-written member | corrected member |
|---|---|---|---|---|---|---|
| tools/LUXSimMatlabReader_LoadFile.c:114 | `feof` is tested before any read has failed, so a file that ends right after the header is taken to hold a history | a closed file with no record and no history: the count, then the four header strings | skip the history when the cursor is at the end of the file, as the Python reader does | not executed | CReader.HeaderOnlyFileFaults | CReader.MexLoadIntendedRoundTrip |
| tools/LUXSimMatlabReader_LoadFile.c:456-479 | each step entry is read with two names, but the writer writes three | any record with one step entry | read the particle, creator-process and step-process names | not executed | CReader.TwoNameReaderMisreads | CReader.CHitIntendedOf |
| tools/LUXSimMatlabReader_LoadFile.c:338-341 | the primary energy just read is overwritten with an uninitialised local | any record with one primary | keep the energy read from the file | not executed | CReader.EnergyLost | CReader.CPrimaryIntendedOf |
| tools/LUXSimPythonReader.py:192 | the history lengths are used even when the history branch did not bind them, which raises `NameError` | a file that ends after the four header strings | count the history lengths as zero when there is no history | not executed | PyReader.HeaderOnlyFileRaises | PyReader.PyPreambleIntended |
| tools/LUXSimPythonReader.py:103 | `LoadFile` returns `None` for an empty file and the caller unpacks two values from it, which raises `TypeError` | a file of size zero | skip the empty file | not executed | PyReader.ProcessFile | PyReader.ProcessFileIntended |
| tools/LUXSimPythonReader.py:283 | the event numbers of a record's primaries are stored into `primary_event_num`, a 1×3 array that is never grown, and numpy raises `ValueError` unless the record has one or three primaries | a record with two primaries | store one event number per primary, as the other primary columns grow | not executed | PyReader.MisfitRecordRaises | PyReader.LoadIntendedRoundTrip |
| management/src/LUXSimManager.cc:2378-2380 | the loop reads `qEvtN.front()` before it tests `empty()` | a queue whose entries all have the same event number, such as [7] | test `empty()` first | not executed | Manager.LastEventReadsEmptyFront | Manager.RunOf |
| management/src/LUXSimManager.cc:1822 | the single-particle energy unit's allow-list flag starts true, so any unit the normalisation accepts passes | energy unit "keVs" | start the flag false, as for the other generators | not executed | SourceUnits.SingleParticleUnitUnchecked | SourceUnits.SingleParticleEnergy |
| management/src/LUXSimManager.cc:1930-1936 | the "m" branch multiplies the fiducial radius by 0.1 and the other lengths by 1e5, and "um" also matches `find("m")` | gamma-X length unit "m" or "um" | scale every length by 1000 mm for "m" and by 0.001 mm for "um" | not executed | SourceUnits.GammaXMetreMisscaled | SourceUnits.GammaXLengthsScaled |
| management/src/LUXSimManager.cc:2005-2013 | the two-electron length is scaled by the gamma-X length unit instead of its own | two-electron length unit "m" with the default gamma-X unit "cm" | scale by the two-electron length unit | not executed | SourceUnits.TwoElectronsLengthUsesGammaXUnit | SourceUnits.TwoElectronsLength |
| tools/rewrite_wrl.py:136-145 | each shape is zipped with the raw text before its own, because the camera was popped from the shapes but not from the raw texts | camera "#C" and shapes "#A" and "#B", removing "#B" | remove each shape together with its own raw text | not executed | Vrml.RemoveMisaligns | Vrml.RawsKeptAligned |
| tools/rewrite_wrl.py:155 | the substitution reads `self.text`, which a `VRML_File` does not have, so it raises `AttributeError` | calling `set_field_of_view` twice | substitute in `self.camera.text` | not executed | Vrml.FieldOfViewTwiceFails | Vrml.VrmlFile.SetFieldOfViewIntended |
