/**
 * The text handling of the manager's `SetSource` command once its tokens
 * are extracted: the activity unit and its optional per-mass part, the
 * allow-lists each unit is checked against, the multipliers chosen by
 * substring tests, the particle-name check of the single-particle
 * generator, and the splitting of generator names at an underscore.
 * Quantities are exact reals in CLHEP's internal units (mm, MeV, ns).
 */
module SourceUnits {
  import opened Wire
  import opened Text
  import Component

  /** How a command ends without completing. */
  datatype Fault =
    | OutOfRange   // `std::string::substr` threw `std::out_of_range`
    | Exit         // the program called `exit(0)`

  // CLHEP units in the internal system.
  const Mm: real := 1.0
  const Cm: real := 10.0
  const Metre: real := 1000.0
  const Um: real := 0.001
  const KeV: real := 0.001

  /** A number given in a unit, in internal units: the source's `value * unit`. */
  function InUnit(x: real, unit: real): real
  {
    x * unit
  }

  const Slash: Byte := 47
  const Underscore: Byte := 95
  const Comma: Byte := 44

  // ---------------------------------------------------------------------------
  // Substring tests on short literals
  // ---------------------------------------------------------------------------

  /** Finding a one-byte text is membership. */
  lemma ContainsByte(s: Bytes, c: Byte)
    ensures Contains(s, [c]) <==> c in s
  {
    ContainsIff(s, [c]);
    if c in s {
      var i: nat :| i < |s| && s[i] == c;
      assert OccursAt(s, [c], i);
    }
    if Contains(s, [c]) {
      var i: nat :| OccursAt(s, [c], i);
      assert s[i] == s[i..i + 1][0];
    }
  }

  /** A pattern is not found in a shorter text, a different text of its length, or one lacking its first byte. */
  lemma Absent(s: Bytes, pat: Bytes)
    requires |s| < |pat| || (|s| == |pat| && s != pat) || (pat != [] && pat[0] !in s)
    ensures !Contains(s, pat)
  {
    ContainsIff(s, pat);
    forall i: nat ensures !OccursAt(s, pat, i) {
      if i + |pat| <= |s| && |s| == |pat| {
        assert i == 0 && s[i..i + |pat|] == s;
      } else if i + |pat| <= |s| && pat != [] {
        assert s[i..i + |pat|][0] == s[i];
      }
    }
  }

  lemma Present(s: Bytes, pat: Bytes, i: nat)
    requires OccursAt(s, pat, i)
    ensures Contains(s, pat)
  {
    ContainsIff(s, pat);
  }

  // ---------------------------------------------------------------------------
  // Splitting at a separator
  // ---------------------------------------------------------------------------

  function FirstIndex(s: Bytes, c: Byte): (i: nat)
    requires c in s
    ensures i < |s| && s[i] == c && c !in s[..i]
  {
    if s[0] == c then 0
    else
      assert c in s[1..] by { var k :| 0 <= k < |s| && s[k] == c; assert s[1..][k - 1] == c; }
      var j := FirstIndex(s[1..], c);
      assert s[..j + 1] == [s[0]] + s[1..][..j];
      j + 1
  }

  /**
   * `s.substr(0, s.find_first_of(c))` and, when `c` occurs, the text after
   * its first occurrence (`s.substr(prefix.length() + 1)`).
   */
  function SplitAt(s: Bytes, c: Byte): (r: (Bytes, Option<Bytes>))
    ensures c !in s ==> r == (s, None)
    ensures c in s ==> r.1.Some? && s == r.0 + [c] + r.1.value && c !in r.0
  {
    if c in s then
      var i := FirstIndex(s, c);
      assert s == s[..i] + [c] + s[i + 1..];
      (s[..i], Some(s[i + 1..]))
    else (s, None)
  }

  lemma {:induction false} FirstIndexJoin(a: Bytes, c: Byte, b: Bytes)
    requires c !in a
    ensures c in a + [c] + b && FirstIndex(a + [c] + b, c) == |a|
  {
    assert (a + [c] + b)[|a|] == c;
    if a != [] {
      assert (a + [c] + b)[1..] == a[1..] + [c] + b;
      FirstIndexJoin(a[1..], c, b);
    }
  }

  /** Splitting the joined text gives back its two parts. */
  lemma SplitAtJoin(a: Bytes, c: Byte, b: Bytes)
    requires c !in a
    ensures SplitAt(a + [c] + b, c) == (a, Some(b))
  {
    FirstIndexJoin(a, c, b);
    assert (a + [c] + b)[..|a|] == a && (a + [c] + b)[|a| + 1..] == b;
  }

  /** The pieces `std::getline(ss, piece, c)` extracts, one after another, from text `s`. */
  function Fields(s: Bytes, c: Byte): (r: seq<Bytes>)
    ensures forall k :: 0 <= k < |r| ==> c !in r[k]
    decreases |s|
  {
    if s == [] then []
    else match SplitAt(s, c)
      case (a, None) => [a]
      case (a, Some(b)) => [a] + Fields(b, c)
  }

  /** The pieces joined again with the separator. */
  function Join(fs: seq<Bytes>, c: Byte): Bytes
  {
    if |fs| == 0 then [] else if |fs| == 1 then fs[0] else fs[0] + [c] + Join(fs[1..], c)
  }

  /** Splitting loses nothing as long as the text does not end with the separator. */
  lemma {:induction false} FieldsJoin(s: Bytes, c: Byte)
    requires s == [] || s[|s| - 1] != c
    ensures Join(Fields(s, c), c) == s
    decreases |s|
  {
    if s != [] {
      match SplitAt(s, c)
      case (a, None) =>
      case (a, Some(b)) =>
        assert s == a + [c] + b;
        assert s[|s| - 1] == (a + [c] + b)[|a| + |b|];
        assert b != [];
        assert b[|b| - 1] == s[|s| - 1];
        FieldsJoin(b, c);
        assert |Fields(b, c)| >= 1;
    }
  }

  // ---------------------------------------------------------------------------
  // Generator names (lines 1683-1771)
  // ---------------------------------------------------------------------------

  /**
   * The generator name before the first '_' and the argument after it
   * (`SingleParticle_e-`, `DecayChain_U238`, `SingleDecay_60_27`); a name
   * without '_' makes the program exit.
   */
  function GeneratorSuffix(name: Bytes): (r: Result<(Bytes, Bytes), Fault>)
    ensures Underscore !in name <==> r == Err(Exit)
    ensures r.Ok? ==> name == r.value.0 + [Underscore] + r.value.1 && Underscore !in r.value.0
  {
    match SplitAt(name, Underscore)
    case (_, None) => Err(Exit)
    case (g, Some(arg)) => Ok((g, arg))
  }

  /**
   * `A_Z` of a single decay: the text before the next '_' and the text
   * after it, each read by `atoi`.  Without a second '_' the
   * `substr(aaStr.length() + 1)` is past the end and throws.
   */
  function DecayNumbers(arg: Bytes): (r: Result<(int, int), Fault>)
    ensures Underscore !in arg <==> r == Err(OutOfRange)
  {
    match SplitAt(arg, Underscore)
    case (_, None) => Err(OutOfRange)
    case (a, Some(z)) => Ok((Atoi(a), Atoi(z)))
  }

  lemma NoUnderscoreInDecimal(n: int)
    ensures Underscore !in Decimal(n)
  {
    var d := Decimal(n);
    if n < 0 {
      assert forall i :: 1 <= i < |d| ==> d[i] == NatDigits(-n)[i - 1];
    }
  }

  /** Writing `A_Z` out and splitting it gives back both numbers. */
  lemma DecayNumbersRoundTrip(a: int, z: int)
    ensures DecayNumbers(Decimal(a) + [Underscore] + Decimal(z)) == Ok((a, z))
  {
    NoUnderscoreInDecimal(a);
    SplitAtJoin(Decimal(a), Underscore, Decimal(z));
    DecimalAtoi(a, []);
    DecimalAtoi(z, []);
    assert Decimal(a) + [] == Decimal(a) && Decimal(z) + [] == Decimal(z);
  }

  // ---------------------------------------------------------------------------
  // The single-particle name check (lines 1696-1727)
  // ---------------------------------------------------------------------------

  /** The names a particle must equal, one of the pieces of `gpsParticleList1`. */
  const ExactParticles: seq<Bytes> :=
    [
     [97, 108, 112, 104, 97],  // alpha
     [97, 110, 116, 105, 95, 110, 117, 95, 101],  // anti_nu_e
     [97, 110, 116, 105, 95, 110, 117, 95, 109, 117],  // anti_nu_mu
     [97, 110, 116, 105, 95, 110, 117, 95, 116, 97, 117],  // anti_nu_tau
     [99, 104, 97, 114, 103, 101, 100, 103, 101, 97, 110, 116, 105, 110, 111],  // chargedgeantino
     [100, 101, 117, 116, 101, 114, 111, 110],  // deuteron
     [101, 43],  // e+
     [101, 45],  // e-
     [103, 97, 109, 109, 97],  // gamma
     [103, 101, 97, 110, 116, 105, 110, 111],  // geantino
     [109, 117, 43],  // mu+
     [109, 117, 45],  // mu-
     [110, 101, 117, 116, 114, 111, 110],  // neutron
     [110, 117, 95, 101],  // nu_e
     [110, 117, 95, 109, 117],  // nu_mu
     [110, 117, 95, 116, 97, 117],  // nu_tau
     [111, 112, 116, 105, 99, 97, 108, 112, 104, 111, 116, 111, 110],  // opticalphoton
     [112, 105, 43],  // pi+
     [112, 105, 48],  // pi0
     [112, 105, 45],  // pi-
     [116, 97, 117, 43],  // tau+
     [116, 97, 117, 45],  // tau-
     [116, 104, 101, 114, 109, 97, 108, 101, 108, 101, 99, 116, 114, 111, 110]  // thermalelectron
    ]

  /** The tokens of `gpsParticleList2`, one of which a particle name may contain instead. */
  const ParticleTokens: seq<Bytes> :=
    [
     [107, 97, 111, 110],  // kaon
     [103, 108, 117, 111, 110],  // gluon
     [102, 48, 40],  // f0(
     [102, 49, 40],  // f1(
     [102, 50, 40],  // f2(
     [107, 48, 40],  // k0(
     [107, 49, 40],  // k1(
     [107, 50, 40],  // k2(
     [98, 49, 40],  // b1(
     [107, 95, 115, 116, 97, 114],  // k_star
     [111, 109, 101, 103, 97],  // omega
     [114, 104, 111],  // rho
     [66, 43],  // B+
     [66, 48],  // B0
     [66, 45],  // B-
     [68, 43],  // D+
     [68, 48],  // D0
     [68, 45],  // D-
     [68, 115, 43],  // Ds+
     [68, 115, 45],  // Ds-
     [74, 47, 112, 115, 105],  // J/psi
     [72, 101, 51],  // He3
     [97, 48],  // a0
     [78, 40],  // N(
     [97, 48, 40],  // a0(
     [97, 49, 40],  // a1(
     [97, 50, 40],  // a2(
     [113, 117, 97, 114, 107],  // quark
     [120, 105],  // xi
     [101, 116, 97],  // eta
     [100, 101, 108, 116, 97],  // delta
     [108, 97, 109, 98, 100, 97],  // lambda
     [115, 105, 103, 109, 97],  // sigma
     [116, 114, 105, 116, 111, 110]  // triton
    ]

  /** Non-empty pieces free of the separator. */
  predicate Pieces(fs: seq<Bytes>, c: Byte)
  {
    forall k :: 0 <= k < |fs| ==> fs[k] != [] && c !in fs[k]
  }

  /** Splitting a text at a separator gives back pieces that were joined with it. */
  lemma {:induction false} FieldsOfJoin(fs: seq<Bytes>, c: Byte)
    requires Pieces(fs, c)
    ensures Fields(Join(fs, c), c) == fs
    decreases |fs|
  {
    if |fs| > 1 {
      FieldsOfJoin(fs[1..], c);
      var rest := Join(fs[1..], c);
      SplitAtJoin(fs[0], c, rest);
      assert Join(fs, c) == fs[0] + [c] + rest;
      assert Join(fs, c) != [];
      assert fs == [fs[0]] + fs[1..];
    }
  }

  /** The comma-separated text of the names that must match exactly. */
  const ParticleList1: Bytes := Join(ExactParticles, Comma)

  /** The comma-separated text of the tokens of which a name need only contain one. */
  const ParticleList2: Bytes := Join(ParticleTokens, Comma)

  /** The two `getline` loops see exactly the pieces. */
  lemma ParticleListsSplit()
    ensures Fields(ParticleList1, Comma) == ExactParticles
    ensures Fields(ParticleList2, Comma) == ParticleTokens
  {
    ExactParticlesArePieces();
    ParticleTokensArePieces();
    FieldsOfJoin(ExactParticles, Comma);
    FieldsOfJoin(ParticleTokens, Comma);
  }

  lemma ExactParticlesArePieces()
    ensures Pieces(ExactParticles, Comma)
  {
  }

  lemma ParticleTokensArePieces()
    ensures Pieces(ParticleTokens, Comma)
  {
  }

  /** An exact entry of `exact`, or a name containing one of `tokens`. */
  predicate Listed(name: Bytes, exact: seq<Bytes>, tokens: seq<Bytes>)
  {
    name in exact || exists k :: 0 <= k < |tokens| && Contains(name, tokens[k])
  }

  /** A particle name the single-particle generator accepts. */
  predicate ParticleKnown(name: Bytes)
  {
    Listed(name, ExactParticles, ParticleTokens)
  }

  /**
   * The two `getline` loops over the pieces of the lists, each stopping at
   * its first match; the second runs only when the first found nothing.
   */
  method ScanParticleLists(name: Bytes, exact: seq<Bytes>, tokens: seq<Bytes>) returns (good: bool)
    ensures good <==> Listed(name, exact, tokens)
  {
    good := false;
    var i := 0;
    while i < |exact| && !good
      invariant 0 <= i <= |exact|
      invariant good <==> name in exact[..i]
    {
      if exact[i] == name {
        good := true;
      }
      assert exact[..i + 1] == exact[..i] + [exact[i]];
      i := i + 1;
    }
    if good {
      assert exact[..i] <= exact;
    } else {
      assert exact[..i] == exact;
    }
    if !good {
      var j := 0;
      while j < |tokens| && !good
        invariant 0 <= j <= |tokens|
        invariant good <==> exists k :: 0 <= k < j && Contains(name, tokens[k])
      {
        if Contains(name, tokens[j]) {
          good := true;
        }
        j := j + 1;
      }
    }
  }

  // ---------------------------------------------------------------------------
  // Unit texts
  // ---------------------------------------------------------------------------

  const ZeroText: Bytes := [48]              // "0"
  const KeVText: Bytes := [107, 101, 86]     // "keV"
  const MeVText: Bytes := [77, 101, 86]      // "MeV"
  const GeVText: Bytes := [71, 101, 86]      // "GeV"
  const EVText: Bytes := [101, 86]           // "eV"
  const StarEVText: Bytes := [42, 101, 86]   // "*eV"
  const MmText: Bytes := [109, 109]          // "mm"
  const CmText: Bytes := [99, 109]           // "cm"
  const UmText: Bytes := [117, 109]          // "um"
  const StarUmText: Bytes := [42, 117, 109]  // "*um"
  const CiText: Bytes := [67, 105]           // "Ci"

  // One-letter texts, found by `ContainsByte`.
  const LowerM: Byte := 109   // 'm'
  const LowerU: Byte := 117   // 'u'
  const LowerN: Byte := 110   // 'n'
  const LowerK: Byte := 107   // 'k'
  const LowerD: Byte := 100   // 'd'
  const LowerH: Byte := 104   // 'h'
  const LowerY: Byte := 121   // 'y'
  const UpperM: Byte := 77    // 'M'
  const UpperG: Byte := 71    // 'G'

  // ---------------------------------------------------------------------------
  // The activity unit and its per-mass part (lines 1673-1681, 1788-1813)
  // ---------------------------------------------------------------------------

  /** The activity unit before the first '/', and the mass unit after it ("0" without one). */
  function SplitActivityUnit(u: Bytes): (r: (Bytes, Bytes))
    ensures Slash !in u ==> r == (u, ZeroText)
    ensures Slash in u ==> u == r.0 + [Slash] + r.1 && Slash !in r.0
  {
    var (unit, mass) := SplitAt(u, Slash);
    (unit, if mass.Some? then mass.value else ZeroText)
  }

  /** "mCi/kg" splits into "mCi" and "kg". */
  lemma SplitActivityUnitJoin(a: Bytes, m: Bytes)
    requires Slash !in a
    ensures SplitActivityUnit(a + [Slash] + m) == (a, m)
  {
    SplitAtJoin(a, Slash, m);
  }

  /** "0", "g", "kg", "mg" and "ug". */
  const MassUnits: seq<Bytes> := [[48], [103], [107, 103], [109, 103], [117, 103]]

  /** How many of each allowed mass unit make a gram: an activity per unit times this is one per gram. */
  const UnitsPerGram: seq<real> := [1.0, 1.0, 0.001, 1000.0, 1000000.0]

  /** The per-mass normalisation: substring tests on "m", "u" and "k". */
  function MassFactor(m: Bytes): real
  {
    (if Contains(m, [LowerM]) then 1000.0 else 1.0)
    * (if Contains(m, [LowerU]) then 1000000.0 else 1.0)
    * (if Contains(m, [LowerK]) then 0.001 else 1.0)
  }

  lemma MassFlags(m: Bytes)
    ensures MassFactor(m) ==
      (if LowerM in m then 1000.0 else 1.0) * (if LowerU in m then 1000000.0 else 1.0)
      * (if LowerK in m then 0.001 else 1.0)
  {
    ContainsByte(m, LowerM);
    ContainsByte(m, LowerU);
    ContainsByte(m, LowerK);
  }

  /** The substring tests give every allowed mass unit exactly its multiplier. */
  lemma MassFactorTable()
    ensures |MassUnits| == |UnitsPerGram|
    ensures forall i :: 0 <= i < |MassUnits| ==> MassFactor(MassUnits[i]) == UnitsPerGram[i]
  {
    forall i | 0 <= i < |MassUnits|
      ensures MassFactor(MassUnits[i]) == UnitsPerGram[i]
    {
      MassFlags(MassUnits[i]);
    }
  }

  /** The mass-unit allow-list test (lines 1788-1813), then the multiplier. */
  function MassScale(m: Bytes): (r: Result<real, Fault>)
    ensures r.Ok? <==> m in MassUnits
    ensures m !in MassUnits ==> r == Err(Exit)
    ensures forall j :: 0 <= j < |MassUnits| && MassUnits[j] == m ==> r == Ok(UnitsPerGram[j])
  {
    MassFactorTable();
    if m in MassUnits then Ok(MassFactor(m)) else Err(Exit)
  }

  // ---------------------------------------------------------------------------
  // Energies (lines 1815-1894, 1951-1990)
  // ---------------------------------------------------------------------------

  /** "0" (none given), "eV", "*eV", "keV", "*keV", "MeV", "*MeV", "GeV" and "*GeV". */
  const EnergyUnits: seq<Bytes> :=
    [ZeroText, EVText, StarEVText, KeVText, [42] + KeVText, MeVText, [42] + MeVText, GeVText, [42] + GeVText]

  /** What one of each unit is worth (the first, "0", leaves the number as it is). */
  const EnergyValues: seq<real> :=
    [1.0, 0.001 * KeV, 0.001 * KeV, KeV, KeV, 1000.0 * KeV, 1000.0 * KeV, 1000000.0 * KeV, 1000000.0 * KeV]

  /** The list after "*um", "*mm", "*cm" and "*m" are pushed onto it by mistake (lines 1899-1902). */
  const ExtendedEnergyUnits: seq<Bytes> :=
    EnergyUnits + [StarUmText, [42] + MmText, [42] + CmText, [42, LowerM]]

  /**
   * The multiplier the energy normalisation picks: a unit containing "0"
   * leaves the number alone, then "keV", "MeV" and "GeV" are looked for in
   * turn, and only "eV" and "*eV" themselves select electron-volts; for
   * anything else there is none.
   */
  function EnergyFactor(unit: Bytes): Option<real>
  {
    if Contains(unit, ZeroText) then Some(1.0)
    else if Contains(unit, KeVText) then Some(KeV)
    else if Contains(unit, MeVText) then Some(1000.0 * KeV)
    else if Contains(unit, GeVText) then Some(1000000.0 * KeV)
    else if unit == EVText || unit == StarEVText then Some(0.001 * KeV)
    else None
  }

  /** The energy normalisation: scale by the multiplier, or exit without one. */
  function EnergyScale(unit: Bytes, e: real): Result<real, Fault>
  {
    var f := EnergyFactor(unit);
    if f.Some? then Ok(e * f.value) else Err(Exit)
  }

  /** The allow-list test, then the normalisation. */
  function CheckedEnergy(unit: Bytes, allowed: seq<Bytes>, e: real): (r: Result<real, Fault>)
    ensures unit !in allowed ==> r == Err(Exit)
    ensures unit in allowed ==> r == EnergyScale(unit, e)
  {
    if unit in allowed then EnergyScale(unit, e) else Err(Exit)
  }

  /** What the normalisation makes of a unit lacking the bytes '0', 'k', 'M' and 'G'. */
  lemma NoPrefixEnergy(unit: Bytes)
    requires ZeroText[0] !in unit && LowerK !in unit && UpperM !in unit && UpperG !in unit
    ensures EnergyFactor(unit) == if unit == EVText || unit == StarEVText then Some(0.001 * KeV) else None
  {
    Absent(unit, ZeroText);
    Absent(unit, KeVText);
    Absent(unit, MeVText);
    Absent(unit, GeVText);
  }

  /** Which listed energy units contain "0". */
  lemma ZeroEnergyAt(i: nat)
    requires i < |EnergyUnits|
    ensures Contains(EnergyUnits[i], ZeroText) <==> i == 0
  {
    ContainsByte(EnergyUnits[i], ZeroText[0]);
  }

  /** Which listed energy units contain "keV" (`j` = 3), "MeV" (5) or "GeV" (7). */
  lemma PrefixedEnergyAt(i: nat, pat: Bytes, j: nat)
    requires i < |EnergyUnits| && j + 1 < |EnergyUnits|
    requires (pat == KeVText && j == 3) || (pat == MeVText && j == 5) || (pat == GeVText && j == 7)
    ensures Contains(EnergyUnits[i], pat) <==> i == j || i == j + 1
  {
    if i == j {
      ContainsItself(pat);
    } else if i == j + 1 {
      Present(EnergyUnits[i], pat, 1);
    } else {
      Absent(EnergyUnits[i], pat);
    }
  }

  /** Exactly the second and third listed units are plain electron-volts. */
  lemma ElectronVoltAt(i: nat)
    requires i < |EnergyUnits|
    ensures EnergyUnits[i] == EVText || EnergyUnits[i] == StarEVText <==> i == 1 || i == 2
  {
  }

  /** The normalisation picks the value of one listed unit. */
  lemma EnergyAt(i: nat)
    requires i < |EnergyUnits|
    ensures EnergyFactor(EnergyUnits[i]) == Some(EnergyValues[i])
  {
    ZeroEnergyAt(i);
    PrefixedEnergyAt(i, KeVText, 3);
    PrefixedEnergyAt(i, MeVText, 5);
    PrefixedEnergyAt(i, GeVText, 7);
    ElectronVoltAt(i);
  }

  /** The normalisation gives every listed unit its value. */
  lemma EnergyScaleTable(e: real)
    ensures |EnergyUnits| == |EnergyValues|
    ensures forall i :: 0 <= i < |EnergyUnits| ==> EnergyScale(EnergyUnits[i], e) == Ok(e * EnergyValues[i])
  {
    forall i | 0 <= i < |EnergyUnits|
      ensures EnergyScale(EnergyUnits[i], e) == Ok(e * EnergyValues[i])
    {
      EnergyAt(i);
    }
  }

  /** The length units that end up in the two-electron energy list are all refused by the normalisation. */
  lemma ExtendedEnergyUnitsRefused(e: real)
    ensures forall i :: |EnergyUnits| <= i < |ExtendedEnergyUnits| ==> EnergyScale(ExtendedEnergyUnits[i], e) == Err(Exit)
  {
    forall i | |EnergyUnits| <= i < |ExtendedEnergyUnits|
      ensures EnergyFactor(ExtendedEnergyUnits[i]) == None
    {
      NoPrefixEnergy(ExtendedEnergyUnits[i]);
    }
  }

  /** The single-particle energy as written: the allow-list flag starts true, so only the normalisation can refuse. */
  function SingleParticleEnergyAsWritten(unit: Bytes, e: real): (r: Result<real, Fault>)
    ensures r == EnergyScale(unit, e)
  {
    EnergyScale(unit, e)
  }

  /** The single-particle energy with its allow-list test in force, as for the other generators. */
  function SingleParticleEnergy(unit: Bytes, e: real): (r: Result<real, Fault>)
    ensures unit !in EnergyUnits ==> r == Err(Exit)
    ensures unit in EnergyUnits ==> r == SingleParticleEnergyAsWritten(unit, e)
  {
    CheckedEnergy(unit, EnergyUnits, e)
  }

  /** "keVs" is outside the list, yet the unchecked code takes it for keV. */
  lemma SingleParticleUnitUnchecked(e: real)
    ensures SingleParticleEnergyAsWritten(KeVText + [115], e) == Ok(e * KeV)
    ensures SingleParticleEnergy(KeVText + [115], e) == Err(Exit)
  {
    var u := KeVText + [115];
    Absent(u, ZeroText);
    Present(u, KeVText, 0);
    assert u !in EnergyUnits by {
      forall k | 0 <= k < |EnergyUnits| ensures EnergyUnits[k] != u {
        assert |EnergyUnits[k]| < 4 || EnergyUnits[k][0] == 42;
      }
    }
  }

  /** The two-electron energy checks against the extended list, which comes to the same as the plain one. */
  function TwoElectronsEnergy(unit: Bytes, e: real): (r: Result<real, Fault>)
    ensures r == CheckedEnergy(unit, EnergyUnits, e)
  {
    assert unit in ExtendedEnergyUnits && unit !in EnergyUnits ==> EnergyScale(unit, e) == Err(Exit) by {
      ExtendedEnergyUnitsRefused(e);
      if unit in ExtendedEnergyUnits && unit !in EnergyUnits {
        var i :| 0 <= i < |ExtendedEnergyUnits| && ExtendedEnergyUnits[i] == unit;
        assert i >= |EnergyUnits|;
      }
    }
    CheckedEnergy(unit, ExtendedEnergyUnits, e)
  }

  /** Whether a unit is accepted does not depend on the number it scales. */
  lemma EnergyScaleOutcome(unit: Bytes, a: real, b: real)
    ensures EnergyScale(unit, a).Err? <==> EnergyScale(unit, b).Err?
  {
  }

  /** Both two-electron energies: one unit test, then the same scaling of each bound (lines 1951-1990). */
  function TwoElectronsEnergies(unit: Bytes, emin: real, emax: real): (r: Result<(real, real), Fault>)
    ensures r.Ok? <==> TwoElectronsEnergy(unit, emin).Ok?
    ensures r.Ok? ==> TwoElectronsEnergy(unit, emin) == Ok(r.value.0) && TwoElectronsEnergy(unit, emax) == Ok(r.value.1)
  {
    EnergyScaleOutcome(unit, emin, emax);
    match (TwoElectronsEnergy(unit, emin), TwoElectronsEnergy(unit, emax))
    case (Ok(lo), Ok(hi)) => Ok((lo, hi))
    case (Err(f), _) => Err(f)
    case (_, Err(f)) => Err(f)
  }

  // ---------------------------------------------------------------------------
  // Lengths (lines 1896-1949, 1992-2019)
  // ---------------------------------------------------------------------------

  /** "0", "um", "mm", "cm" and "m". */
  const LengthUnits: seq<Bytes> := [ZeroText, UmText, MmText, CmText, [LowerM]]

  /** What one of each length unit is worth ("0" leaves the number as it is). */
  const LengthValues: seq<real> := [1.0, Um, Mm, Cm, Metre]

  datatype GammaXLengths = GammaXLengths(
    fiducialR: real, fiducialLoZ: real, fiducialHiZ: real,
    reverseFieldR: real, reverseFieldLoZ: real, reverseFieldHiZ: real)

  function Scaled(g: GammaXLengths, f: real): GammaXLengths
  {
    GammaXLengths(g.fiducialR * f, g.fiducialLoZ * f, g.fiducialHiZ * f,
                  g.reverseFieldR * f, g.reverseFieldLoZ * f, g.reverseFieldHiZ * f)
  }

  /** The value of a listed length unit. */
  function LengthValue(unit: Bytes): (f: real)
    requires unit in LengthUnits
    ensures forall i :: 0 <= i < |LengthUnits| && LengthUnits[i] == unit ==> f == LengthValues[i]
  {
    if unit == ZeroText then 1.0
    else if unit == UmText then Um
    else if unit == MmText then Mm
    else if unit == CmText then Cm
    else Metre
  }

  /**
   * The gamma-X lengths as written: after "0", "mm" and "cm", any unit
   * containing "m" (so "um" too) takes the metre branch, which scales the
   * fiducial radius by 1e-2 cm and the other five by 1e2 m.
   */
  function GammaXLengthsAsWritten(unit: Bytes, g: GammaXLengths): Result<GammaXLengths, Fault>
  {
    if unit !in LengthUnits then Err(Exit)
    else if Contains(unit, ZeroText) then Ok(g)
    else if Contains(unit, MmText) then Ok(Scaled(g, Mm))
    else if Contains(unit, CmText) then Ok(Scaled(g, Cm))
    else if Contains(unit, [LowerM]) then
      Ok(GammaXLengths(g.fiducialR * 0.01 * Cm, g.fiducialLoZ * 100.0 * Metre, g.fiducialHiZ * 100.0 * Metre,
                       g.reverseFieldR * 100.0 * Metre, g.reverseFieldLoZ * 100.0 * Metre,
                       g.reverseFieldHiZ * 100.0 * Metre))
    else if unit == UmText || unit == StarUmText then Ok(Scaled(g, 0.0001 * Um))
    else Err(Exit)
  }

  /** Every gamma-X length in the unit given. */
  function GammaXLengthsScaled(unit: Bytes, g: GammaXLengths): (r: Result<GammaXLengths, Fault>)
    ensures unit !in LengthUnits ==> r == Err(Exit)
    ensures unit in LengthUnits ==> r == Ok(Scaled(g, LengthValue(unit)))
  {
    if unit in LengthUnits then Ok(Scaled(g, LengthValue(unit))) else Err(Exit)
  }

  /** Which of the tests each length unit passes. */
  lemma LengthTests()
    ensures Contains(ZeroText, ZeroText)
    ensures !Contains(UmText, ZeroText) && !Contains(UmText, MmText) && !Contains(UmText, CmText) && Contains(UmText, [LowerM])
    ensures !Contains(MmText, ZeroText) && Contains(MmText, MmText)
    ensures !Contains(CmText, ZeroText) && !Contains(CmText, MmText) && Contains(CmText, CmText)
    ensures !Contains([LowerM], ZeroText) && !Contains([LowerM], MmText) && !Contains([LowerM], CmText)
    ensures Contains([LowerM], [LowerM])
  {
    ContainsItself(ZeroText);
    ContainsItself(MmText);
    ContainsItself(CmText);
    ContainsItself([LowerM]);
    Absent(UmText, ZeroText);
    Absent(UmText, MmText);
    Absent(UmText, CmText);
    Present(UmText, [LowerM], 1);
    Absent(MmText, ZeroText);
    Absent(CmText, ZeroText);
    Absent(CmText, MmText);
    Absent([LowerM], ZeroText);
    Absent([LowerM], MmText);
    Absent([LowerM], CmText);
  }

  /** For "0", "mm" and "cm" the code does what the unit says. */
  lemma GammaXLengthsAgree(unit: Bytes, g: GammaXLengths)
    requires unit == ZeroText || unit == MmText || unit == CmText
    ensures GammaXLengthsAsWritten(unit, g) == GammaXLengthsScaled(unit, g)
  {
    LengthTests();
  }

  /** One metre everywhere becomes 0.1 mm for the radius and 1e5 mm elsewhere, and micrometres are read as metres. */
  lemma GammaXMetreMisscaled()
    ensures GammaXLengthsAsWritten([LowerM], GammaXLengths(1.0, 1.0, 1.0, 1.0, 1.0, 1.0))
         == Ok(GammaXLengths(0.1, 100000.0, 100000.0, 100000.0, 100000.0, 100000.0))
    ensures GammaXLengthsScaled([LowerM], GammaXLengths(1.0, 1.0, 1.0, 1.0, 1.0, 1.0))
         == Ok(GammaXLengths(1000.0, 1000.0, 1000.0, 1000.0, 1000.0, 1000.0))
    ensures forall g :: GammaXLengthsAsWritten(UmText, g) == GammaXLengthsAsWritten([LowerM], g)
  {
    LengthTests();
  }

  /**
   * The two-electron length as written: "0" and "mm" are tested on its own
   * unit, but "cm", "m" and "um" on the gamma-X length unit.
   */
  function TwoElectronsLengthAsWritten(unit: Bytes, gammaXUnit: Bytes, dz: real): Result<real, Fault>
  {
    if unit !in LengthUnits then Err(Exit)
    else if Contains(unit, ZeroText) then Ok(dz)
    else if Contains(unit, MmText) then Ok(InUnit(dz, Mm))
    else if Contains(gammaXUnit, CmText) then Ok(InUnit(dz, Cm))
    else if Contains(gammaXUnit, [LowerM]) then Ok(InUnit(dz, Metre))
    else if gammaXUnit == UmText || gammaXUnit == StarUmText then Ok(InUnit(dz, Um))
    else Err(Exit)
  }

  /** The two-electron length in its own unit. */
  function TwoElectronsLength(unit: Bytes, dz: real): (r: Result<real, Fault>)
    ensures unit !in LengthUnits ==> r == Err(Exit)
    ensures unit in LengthUnits ==> r == Ok(InUnit(dz, LengthValue(unit)))
  {
    if unit in LengthUnits then Ok(InUnit(dz, LengthValue(unit))) else Err(Exit)
  }

  /** With the default gamma-X unit "cm", a two-electron length in metres is taken as centimetres. */
  lemma TwoElectronsLengthUsesGammaXUnit(dz: real)
    ensures TwoElectronsLengthAsWritten([LowerM], CmText, dz) == Ok(InUnit(dz, Cm))
    ensures TwoElectronsLength([LowerM], dz) == Ok(InUnit(dz, Metre))
  {
    LengthTests();
  }

  /** The two agree whenever both units are the same (micrometres aside) or the unit is "0" or "mm". */
  lemma TwoElectronsLengthAgree(unit: Bytes, gammaXUnit: Bytes, dz: real)
    requires unit in LengthUnits && unit != UmText
    requires unit == gammaXUnit || unit == ZeroText || unit == MmText
    ensures TwoElectronsLengthAsWritten(unit, gammaXUnit, dz) == TwoElectronsLength(unit, dz)
  {
    LengthTests();
    if unit == ZeroText {
      assert LengthValue(unit) == 1.0;
    } else if unit == MmText {
      assert LengthValue(unit) == Mm;
    } else if unit == CmText {
      assert gammaXUnit == CmText && LengthValue(unit) == Cm;
    } else {
      assert unit == [LowerM] && gammaXUnit == [LowerM] && LengthValue(unit) == Metre;
    }
  }

  // ---------------------------------------------------------------------------
  // The activity unit (lines 2045-2078)
  // ---------------------------------------------------------------------------

  /** "Ci", "mCi", "uCi", "nCi", "kBq", "Bq", "mBq", "uBq" and "nBq". */
  const ActivityUnits: seq<Bytes> :=
    [CiText, [LowerM] + CiText, [LowerU] + CiText, [LowerN] + CiText, [107, 66, 113],
     [66, 113], [109, 66, 113], [117, 66, 113], [110, 66, 113]]

  /** Each allowed unit in Bq. */
  const ActivityValues: seq<real> :=
    [37000000000.0, 37000000.0, 37000.0, 37.0, 1000.0, 1.0, 0.001, 0.000001, 0.000000001]

  /** The normalisation to Bq: "Ci", then the prefixes "m", "u", "n" and "k", each found as a substring. */
  function ActivityFactor(u: Bytes): real
  {
    (if Contains(u, CiText) then 37000000000.0 else 1.0)
    * (if Contains(u, [LowerM]) then 0.001 else 1.0)
    * (if Contains(u, [LowerU]) then 0.000001 else 1.0)
    * (if Contains(u, [LowerN]) then 0.000000001 else 1.0)
    * (if Contains(u, [LowerK]) then 1000.0 else 1.0)
  }

  /** The normalisation once the single-letter tests are read as byte membership. */
  function ActivityByLetters(curies: bool, u: Bytes): real
  {
    (if curies then 37000000000.0 else 1.0)
    * (if LowerM in u then 0.001 else 1.0) * (if LowerU in u then 0.000001 else 1.0)
    * (if LowerN in u then 0.000000001 else 1.0) * (if LowerK in u then 1000.0 else 1.0)
  }

  lemma ActivityFlags(u: Bytes)
    ensures ActivityFactor(u) == ActivityByLetters(Contains(u, CiText), u)
  {
    ContainsByte(u, LowerM);
    ContainsByte(u, LowerU);
    ContainsByte(u, LowerN);
    ContainsByte(u, LowerK);
  }

  /** Exactly the first four allowed units are in curies. */
  lemma CuriesAt(i: nat)
    requires i < |ActivityUnits|
    ensures Contains(ActivityUnits[i], CiText) <==> i < 4
  {
    if i < 4 {
      Present(ActivityUnits[i], CiText, if i == 0 then 0 else 1);
    } else {
      Absent(ActivityUnits[i], CiText);
    }
  }

  lemma ActivityLettersTable()
    ensures forall i :: 0 <= i < |ActivityUnits| ==> ActivityByLetters(i < 4, ActivityUnits[i]) == ActivityValues[i]
  {
  }

  /** The substring tests give every allowed unit exactly its value in Bq. */
  lemma ActivityFactorTable()
    ensures |ActivityUnits| == |ActivityValues|
    ensures forall i :: 0 <= i < |ActivityUnits| ==> ActivityFactor(ActivityUnits[i]) == ActivityValues[i]
  {
    ActivityLettersTable();
    forall i | 0 <= i < |ActivityUnits|
      ensures ActivityFactor(ActivityUnits[i]) == ActivityValues[i]
    {
      ActivityFlags(ActivityUnits[i]);
      CuriesAt(i);
    }
  }

  /** The activity-unit allow-list test (lines 2046-2066), then the conversion to Bq. */
  function ActivityScale(u: Bytes): (r: Result<real, Fault>)
    ensures r.Ok? <==> u in ActivityUnits
    ensures u !in ActivityUnits ==> r == Err(Exit)
    ensures forall i :: 0 <= i < |ActivityUnits| && ActivityUnits[i] == u ==> r == Ok(ActivityValues[i])
  {
    ActivityFactorTable();
    if u in ActivityUnits then Ok(ActivityFactor(u)) else Err(Exit)
  }

  // ---------------------------------------------------------------------------
  // The source age (lines 2080-2118)
  // ---------------------------------------------------------------------------

  /** "s", "Ms", "Gs", "h", "d", "y", "yr", "ky", "kyr", "Myr", "My", "Gyr" and "Gy". */
  const AgeUnits: seq<Bytes> :=
    [[115], [77, 115], [71, 115], [104], [100], [121], [121, 114],
     [107, 121], [107, 121, 114], [77, 121, 114], [77, 121], [71, 121, 114], [71, 121]]

  /** 3600 * 24 * 365.25 seconds. */
  const SecondsPerYear: real := 31557600.0

  /** Each allowed age unit in seconds. */
  const AgeValues: seq<real> :=
    [1.0, 1000000.0, 1000000000.0, 3600.0, 86400.0, SecondsPerYear, SecondsPerYear,
     1000.0 * SecondsPerYear, 1000.0 * SecondsPerYear, 1000000.0 * SecondsPerYear,
     1000000.0 * SecondsPerYear, 1000000000.0 * SecondsPerYear, 1000000000.0 * SecondsPerYear]

  /** The normalisation to seconds: "k", "M", "G", "d", "h" and "y", each found as a substring. */
  function AgeFactor(u: Bytes): real
  {
    (if Contains(u, [LowerK]) then 1000.0 else 1.0)
    * (if Contains(u, [UpperM]) then 1000000.0 else 1.0)
    * (if Contains(u, [UpperG]) then 1000000000.0 else 1.0)
    * (if Contains(u, [LowerD]) then 86400.0 else 1.0)
    * (if Contains(u, [LowerH]) then 3600.0 else 1.0)
    * (if Contains(u, [LowerY]) then SecondsPerYear else 1.0)
  }

  /** The normalisation once the single-letter tests are read as byte membership. */
  function AgeByLetters(u: Bytes): real
  {
    (if LowerK in u then 1000.0 else 1.0) * (if UpperM in u then 1000000.0 else 1.0)
    * (if UpperG in u then 1000000000.0 else 1.0) * (if LowerD in u then 86400.0 else 1.0)
    * (if LowerH in u then 3600.0 else 1.0) * (if LowerY in u then SecondsPerYear else 1.0)
  }

  lemma AgeFlags(u: Bytes)
    ensures AgeFactor(u) == AgeByLetters(u)
  {
    ContainsByte(u, LowerK);
    ContainsByte(u, UpperM);
    ContainsByte(u, UpperG);
    ContainsByte(u, LowerD);
    ContainsByte(u, LowerH);
    ContainsByte(u, LowerY);
  }

  lemma AgeLettersTable()
    ensures forall i :: 0 <= i < |AgeUnits| ==> AgeByLetters(AgeUnits[i]) == AgeValues[i]
  {
  }

  /** The substring tests give every allowed age unit exactly its length in seconds. */
  lemma AgeFactorTable()
    ensures |AgeUnits| == |AgeValues|
    ensures forall i :: 0 <= i < |AgeUnits| ==> AgeFactor(AgeUnits[i]) == AgeValues[i]
  {
    AgeLettersTable();
    forall i | 0 <= i < |AgeUnits|
      ensures AgeFactor(AgeUnits[i]) == AgeValues[i]
    {
      AgeFlags(AgeUnits[i]);
    }
  }

  /** The age-unit allow-list test (lines 2080-2104), then the conversion to seconds. */
  function AgeScale(u: Bytes): (r: Result<real, Fault>)
    ensures r.Ok? <==> u in AgeUnits
    ensures u !in AgeUnits ==> r == Err(Exit)
    ensures forall i :: 0 <= i < |AgeUnits| && AgeUnits[i] == u ==> r == Ok(AgeValues[i])
  {
    AgeFactorTable();
    if u in AgeUnits then Ok(AgeFactor(u)) else Err(Exit)
  }

  // ---------------------------------------------------------------------------
  // Generator names (lines 1592-1618, 1683-1771)
  // ---------------------------------------------------------------------------

  const SingleParticleText: Bytes := [83, 105, 110, 103, 108, 101, 80, 97, 114, 116, 105, 99, 108, 101] // "SingleParticle"
  const DecayChainText: Bytes := [68, 101, 99, 97, 121, 67, 104, 97, 105, 110]    // "DecayChain"
  const SingleDecayText: Bytes := [83, 105, 110, 103, 108, 101, 68, 101, 99, 97, 121] // "SingleDecay"
  const G4DecayText: Bytes := [71, 52, 68, 101, 99, 97, 121]                       // "G4Decay"
  const UniverseText: Bytes := [117, 110, 105, 118, 101, 114, 115, 101]            // "universe"

  /**
   * Whether the first word of the command names a generator placed at a
   * point rather than a volume: it contains one of the three point-generator
   * names, or it is the name of a catalog entry.
   */
  predicate PositionForm(arg1: Bytes, catalog: seq<Component.SourceType>)
  {
    Contains(arg1, SingleParticleText) || Contains(arg1, DecayChainText) || Contains(arg1, SingleDecayText)
    || exists i :: 0 <= i < |catalog| && catalog[i].name == arg1
  }

  /**
   * The volume name, the generator name and whether a position was given,
   * from the first two words: in the position form the volume is "universe"
   * and the first word is the generator.
   */
  function Placement(arg1: Bytes, arg2: Bytes, catalog: seq<Component.SourceType>): (r: (Bytes, Bytes, bool))
    ensures r.2 <==> PositionForm(arg1, catalog)
    ensures r.2 ==> r.0 == UniverseText && r.1 == arg1
    ensures !r.2 ==> r.0 == arg1 && r.1 == arg2
  {
    if PositionForm(arg1, catalog) then (UniverseText, arg1, true) else (arg1, arg2, false)
  }

  /** What the generator name carries: the name proper and its arguments. */
  datatype Generator = Generator(
    typeName: Bytes,
    particleName: Bytes,
    parentIsotope: Bytes,
    massNumber: int,
    atomicNumber: int,
    g4Decay: bool,
    decayChain: bool)

  /** `SingleParticle_name`: split, then check the particle name. */
  function SingleParticleStage(g: Generator): (r: Result<Generator, Fault>)
    ensures r.Ok? <==> Underscore in g.typeName && ParticleKnown(GeneratorSuffix(g.typeName).value.1)
    ensures r.Ok? ==> g.typeName == r.value.typeName + [Underscore] + r.value.particleName
    ensures r.Ok? ==> r.value == g.(typeName := r.value.typeName, particleName := r.value.particleName)
  {
    var s :- GeneratorSuffix(g.typeName);
    if ParticleKnown(s.1) then Ok(g.(typeName := s.0, particleName := s.1)) else Err(Exit)
  }

  /** `DecayChain_isotope`: split and remember that there is a decay chain. */
  function DecayChainStage(g: Generator): (r: Result<Generator, Fault>)
    ensures r.Ok? <==> Underscore in g.typeName
    ensures r.Ok? ==> g.typeName == r.value.typeName + [Underscore] + r.value.parentIsotope
    ensures r.Ok? ==> r.value == g.(typeName := r.value.typeName, parentIsotope := r.value.parentIsotope,
                                    decayChain := true)
  {
    var s :- GeneratorSuffix(g.typeName);
    Ok(g.(typeName := s.0, parentIsotope := s.1, decayChain := true))
  }

  /** `SingleDecay_A_Z` or `G4Decay_A_Z`: split twice and read both numbers. */
  function SingleDecayStage(g: Generator): (r: Result<Generator, Fault>)
    ensures Underscore !in g.typeName ==> r == Err(Exit)
    ensures r.Ok? ==> r.value.g4Decay == (g.g4Decay || Contains(g.typeName, G4DecayText))
    ensures r.Ok? ==> Underscore !in r.value.typeName
  {
    var s :- GeneratorSuffix(g.typeName);
    var n :- DecayNumbers(s.1);
    Ok(g.(typeName := s.0, massNumber := n.0, atomicNumber := n.1,
          g4Decay := g.g4Decay || Contains(g.typeName, G4DecayText)))
  }

  /** A generator name without arguments. */
  function Plain(name: Bytes): Generator
  {
    Generator(name, [], ZeroText, 0, 0, false, false)
  }

  /** The three tests on the generator name, in order, each on what the one before left. */
  function ParseGenerator(name: Bytes): (r: Result<Generator, Fault>)
    ensures (!Contains(name, SingleParticleText) && !Contains(name, DecayChainText)
             && !Contains(name, SingleDecayText) && !Contains(name, G4DecayText)) ==> r == Ok(Plain(name))
  {
    var g0 := Plain(name);
    var g1 :- if Contains(name, SingleParticleText) then SingleParticleStage(g0) else Ok(g0);
    var g2 :- if Contains(g1.typeName, DecayChainText) then DecayChainStage(g1) else Ok(g1);
    if Contains(g2.typeName, SingleDecayText) || Contains(g2.typeName, G4DecayText) then SingleDecayStage(g2)
    else Ok(g2)
  }

  /** A pattern whose first byte occurs in the text only at `k`, and not followed there by the rest, is absent. */
  lemma AbsentExceptAt(s: Bytes, pat: Bytes, k: nat)
    requires pat != []
    requires forall i :: 0 <= i < |s| && s[i] == pat[0] ==> i == k
    requires !OccursAt(s, pat, k)
    ensures !Contains(s, pat)
  {
    ContainsIff(s, pat);
    forall i: nat ensures !OccursAt(s, pat, i) {
      if i + |pat| <= |s| {
        assert s[i..i + |pat|][0] == s[i];
      }
    }
  }

  lemma DecimalLetters(n: int)
    ensures forall i :: 0 <= i < |Decimal(n)| ==> Decimal(n)[i] == Minus || IsDigit(Decimal(n)[i])
  {
    var d := Decimal(n);
    if n < 0 {
      assert forall i :: 1 <= i < |d| ==> d[i] == NatDigits(-n)[i - 1];
    }
  }

  /** Text made of signs, digits and underscores only, as `A_Z` written out is. */
  predicate Numeric(s: Bytes)
  {
    forall i :: 0 <= i < |s| ==> s[i] == Minus || IsDigit(s[i]) || s[i] == Underscore
  }

  lemma DecayArgumentNumeric(a: int, z: int)
    ensures Numeric(Decimal(a) + [Underscore] + Decimal(z))
  {
    var arg := Decimal(a) + [Underscore] + Decimal(z);
    DecimalLetters(a);
    DecimalLetters(z);
    forall i | 0 <= i < |arg| ensures arg[i] == Minus || IsDigit(arg[i]) || arg[i] == Underscore {
      if i < |Decimal(a)| {
        assert arg[i] == Decimal(a)[i];
      } else if i > |Decimal(a)| {
        assert arg[i] == Decimal(z)[i - |Decimal(a)| - 1];
      }
    }
  }

  /** Of the generator names, `SingleDecay_` followed by numeric text contains only "SingleDecay". */
  lemma SingleDecayNameTests(arg: Bytes)
    requires Numeric(arg)
    ensures var name := SingleDecayText + [Underscore] + arg;
      !Contains(name, SingleParticleText) && !Contains(name, DecayChainText)
      && Contains(name, SingleDecayText) && !Contains(name, G4DecayText)
  {
    var name := SingleDecayText + [Underscore] + arg;
    assert forall i :: 12 <= i < |name| ==> name[i] == arg[i - 12];
    assert name[6] == 68 && name[11] == Underscore;
    AbsentExceptAt(name, SingleParticleText, 0);
    AbsentExceptAt(name, DecayChainText, 6);
    Absent(name, G4DecayText);
    Present(name, SingleDecayText, 0);
  }

  /** `SingleDecay_A_Z` with both numbers written out gives the single-decay generator for A and Z. */
  lemma SingleDecayRoundTrip(a: int, z: int)
    ensures ParseGenerator(SingleDecayText + [Underscore] + (Decimal(a) + [Underscore] + Decimal(z)))
         == Ok(Generator(SingleDecayText, [], ZeroText, a, z, false, false))
  {
    var arg := Decimal(a) + [Underscore] + Decimal(z);
    DecayArgumentNumeric(a, z);
    SingleDecayNameTests(arg);
    assert Underscore !in SingleDecayText;
    SplitAtJoin(SingleDecayText, Underscore, arg);
    DecayNumbersRoundTrip(a, z);
  }

  // ---------------------------------------------------------------------------
  // The catalog lookup (lines 1771-1786)
  // ---------------------------------------------------------------------------

  /** The first catalog entry of that name. */
  function FirstNamed(catalog: seq<Component.SourceType>, name: Bytes): (r: Option<Component.SourceType>)
    ensures r.Some? ==> exists i :: 0 <= i < |catalog| && catalog[i] == r.value
                                   && forall j :: 0 <= j < i ==> catalog[j].name != name
    ensures r.Some? ==> r.value.name == name
    ensures r.None? <==> forall i :: 0 <= i < |catalog| ==> catalog[i].name != name
  {
    if catalog == [] then None
    else if catalog[0].name == name then Some(catalog[0])
    else
      var r := FirstNamed(catalog[1..], name);
      assert r.Some? ==> exists i :: 0 <= i < |catalog| && catalog[i] == r.value
                                    && forall j :: 0 <= j < i ==> catalog[j].name != name by {
        if r.Some? {
          var i :| 0 <= i < |catalog[1..]| && catalog[1..][i] == r.value
                   && forall j :: 0 <= j < i ==> catalog[1..][j].name != name;
          assert catalog[i + 1] == r.value;
          forall j | 0 <= j < i + 1 ensures catalog[j].name != name {
            if j > 0 {
              assert catalog[j] == catalog[1..][j - 1];
            }
          }
        }
      }
      assert r.None? <==> forall i :: 0 <= i < |catalog| ==> catalog[i].name != name by {
        assert forall i :: 1 <= i < |catalog| ==> catalog[i] == catalog[1..][i - 1];
      }
      r
  }

  /** The loop over the catalog, leaving at the first match. */
  method FindSourceType(catalog: seq<Component.SourceType>, name: Bytes) returns (r: Option<Component.SourceType>)
    ensures r == FirstNamed(catalog, name)
  {
    r := None;
    var i := 0;
    while i < |catalog|
      invariant 0 <= i <= |catalog|
      invariant FirstNamed(catalog, name) == FirstNamed(catalog[i..], name)
      invariant r == None
    {
      if catalog[i].name == name {
        return Some(catalog[i]);
      }
      assert catalog[i..][1..] == catalog[i + 1..];
      i := i + 1;
    }
  }

  // ---------------------------------------------------------------------------
  // The whole command (lines 1546-2152)
  // ---------------------------------------------------------------------------

  /** The command's fields as the string stream leaves them (defaults at lines 1559-1580). */
  datatype Command = Command(
    volName: Bytes,
    sourceTypeName: Bytes,
    posDefined: bool,
    position: Component.Point3,
    activity: real,
    activityUnit: Bytes,
    particleEnergy: real,
    particleEnergyUnit: Bytes,
    sourceAge: real,          // `atof` of the age text
    sourceAgeUnit: Bytes,
    gammaX: GammaXLengths,
    gammaXLengthUnit: Bytes,
    gammaXMaxEnergy: real,
    gammaXEnergyUnit: Bytes,
    deltaZMax: real,
    twoElectronsLengthUnit: Bytes,
    emin: real,
    emax: real,
    twoElectronsEnergyUnit: Bytes)

  /** The second unit of each kind the stream starts from when the command gives none. */
  const DefaultGammaX: GammaXLengths := GammaXLengths(20.1, 10.0, 50.0, 23.5, 1.0, 5.0)

  /** A command with only the four mandatory words read; everything else keeps its default. */
  function Defaults(arg1: Bytes, arg2: Bytes, catalog: seq<Component.SourceType>, position: Component.Point3,
                    activity: real, activityUnit: Bytes): Command
  {
    var p := Placement(arg1, arg2, catalog);
    Command(p.0, p.1, p.2, if p.2 then position else Component.Origin, activity, activityUnit,
            0.0, ZeroText, 0.0, [115], DefaultGammaX, CmText, 10.0 * KeV, KeVText,
            1.0, CmText, 0.0, 100.0, KeVText)
  }

  /** What `SetSource` hands to every matching component, and the manager flags it sets. */
  datatype Parsed = Parsed(
    volName: Bytes,
    kind: Component.SourceType,
    perMass: bool,
    activity: real,
    massNumber: int,
    atomicNumber: int,
    parentIsotope: Bytes,
    sourceAge: real,
    particleName: Bytes,
    particleEnergy: real,
    pointSource: bool,
    position: Component.Point3,
    gammaX: GammaXLengths,
    gammaXMaxEnergy: real,
    deltaZMax: real,
    emin: real,
    emax: real,
    g4Decay: bool,
    decayChain: bool)

  /** The generator-independent settings: energies and lengths in internal units. */
  datatype Settings = Settings(particleEnergy: real, gammaXMaxEnergy: real, gammaX: GammaXLengths,
                               emin: real, emax: real, deltaZMax: real)

  /**
   * The energy checks in the order of lines 1815-1894, then 1951-1990, as
   * written: the single-particle unit is only normalised, never checked
   * against the list.
   */
  function ParseEnergies(c: Command): (r: Result<(real, real, real, real), Fault>)
    ensures r.Ok? ==> EnergyScale(c.particleEnergyUnit, c.particleEnergy) == Ok(r.value.0)
                      && c.gammaXEnergyUnit in EnergyUnits && c.twoElectronsEnergyUnit in EnergyUnits
  {
    var e :- SingleParticleEnergyAsWritten(c.particleEnergyUnit, c.particleEnergy);
    var gx :- CheckedEnergy(c.gammaXEnergyUnit, EnergyUnits, c.gammaXMaxEnergy);
    var two :- TwoElectronsEnergies(c.twoElectronsEnergyUnit, c.emin, c.emax);
    Ok((e, gx, two.0, two.1))
  }

  /** The energy checks as evidently intended: every energy unit is checked against the list. */
  function ParseEnergiesIntended(c: Command): (r: Result<(real, real, real, real), Fault>)
    ensures r.Ok? ==> c.particleEnergyUnit in EnergyUnits && c.gammaXEnergyUnit in EnergyUnits
                      && c.twoElectronsEnergyUnit in EnergyUnits
    ensures r.Ok? <==> ParseEnergies(c).Ok? && c.particleEnergyUnit in EnergyUnits
    ensures r.Ok? ==> r == ParseEnergies(c)
  {
    var e :- SingleParticleEnergy(c.particleEnergyUnit, c.particleEnergy);
    var gx :- CheckedEnergy(c.gammaXEnergyUnit, EnergyUnits, c.gammaXMaxEnergy);
    var two :- TwoElectronsEnergies(c.twoElectronsEnergyUnit, c.emin, c.emax);
    Ok((e, gx, two.0, two.1))
  }

  /**
   * The energy and length checks as written (the gamma-X lengths come
   * between the two energy groups in the source): the gamma-X lengths go
   * through the metre branch for "m" and "um", and the two-electron length
   * is scaled by the gamma-X length unit unless its own is "0" or "mm".
   */
  function ParseSettings(c: Command): (r: Result<Settings, Fault>)
    ensures r.Ok? ==> EnergyScale(c.particleEnergyUnit, c.particleEnergy) == Ok(r.value.particleEnergy)
                      && c.gammaXEnergyUnit in EnergyUnits && c.gammaXLengthUnit in LengthUnits
                      && c.twoElectronsEnergyUnit in EnergyUnits && c.twoElectronsLengthUnit in LengthUnits
    ensures r.Ok? && (c.gammaXLengthUnit == ZeroText || c.gammaXLengthUnit == MmText || c.gammaXLengthUnit == CmText)
            ==> r.value.gammaX == Scaled(c.gammaX, LengthValue(c.gammaXLengthUnit))
    ensures r.Ok? && (c.twoElectronsLengthUnit == ZeroText || c.twoElectronsLengthUnit == MmText)
            ==> r.value.deltaZMax == InUnit(c.deltaZMax, LengthValue(c.twoElectronsLengthUnit))
  {
    var e :- ParseEnergies(c);
    var lengths :- GammaXLengthsAsWritten(c.gammaXLengthUnit, c.gammaX);
    var dz :- TwoElectronsLengthAsWritten(c.twoElectronsLengthUnit, c.gammaXLengthUnit, c.deltaZMax);
    assert c.gammaXLengthUnit == ZeroText || c.gammaXLengthUnit == MmText || c.gammaXLengthUnit == CmText
           ==> lengths == Scaled(c.gammaX, LengthValue(c.gammaXLengthUnit)) by {
      if c.gammaXLengthUnit == ZeroText || c.gammaXLengthUnit == MmText || c.gammaXLengthUnit == CmText {
        GammaXLengthsAgree(c.gammaXLengthUnit, c.gammaX);
      }
    }
    assert c.twoElectronsLengthUnit == ZeroText || c.twoElectronsLengthUnit == MmText
           ==> dz == InUnit(c.deltaZMax, LengthValue(c.twoElectronsLengthUnit)) by {
      if c.twoElectronsLengthUnit == ZeroText || c.twoElectronsLengthUnit == MmText {
        TwoElectronsLengthAgree(c.twoElectronsLengthUnit, c.gammaXLengthUnit, c.deltaZMax);
      }
    }
    Ok(Settings(e.0, e.1, lengths, e.2, e.3, dz))
  }

  /** The same checks as evidently intended: every energy unit checked, every length in its own unit. */
  function ParseSettingsIntended(c: Command): (r: Result<Settings, Fault>)
    ensures r.Ok? ==> c.particleEnergyUnit in EnergyUnits && c.gammaXEnergyUnit in EnergyUnits
                      && c.gammaXLengthUnit in LengthUnits && c.twoElectronsEnergyUnit in EnergyUnits
                      && c.twoElectronsLengthUnit in LengthUnits
    ensures r.Ok? ==> TwoElectronsLength(c.twoElectronsLengthUnit, c.deltaZMax) == Ok(r.value.deltaZMax)
                      && GammaXLengthsScaled(c.gammaXLengthUnit, c.gammaX) == Ok(r.value.gammaX)
  {
    var e :- ParseEnergiesIntended(c);
    var lengths :- GammaXLengthsScaled(c.gammaXLengthUnit, c.gammaX);
    var dz :- TwoElectronsLength(c.twoElectronsLengthUnit, c.deltaZMax);
    Ok(Settings(e.0, e.1, lengths, e.2, e.3, dz))
  }

  /**
   * The units for which the written checks do what was intended: a listed
   * single-particle energy unit, a gamma-X length unit of "0", "mm" or "cm",
   * and a two-electron length unit of "0", "mm" or the gamma-X one.
   */
  predicate WrittenAsIntended(c: Command)
  {
    c.particleEnergyUnit in EnergyUnits
    && (c.gammaXLengthUnit == ZeroText || c.gammaXLengthUnit == MmText || c.gammaXLengthUnit == CmText)
    && (c.twoElectronsLengthUnit == ZeroText || c.twoElectronsLengthUnit == MmText
        || c.twoElectronsLengthUnit == c.gammaXLengthUnit)
  }

  /** For such units the written settings are the intended ones, refusals included. */
  lemma ParseSettingsAgree(c: Command)
    requires WrittenAsIntended(c)
    ensures ParseSettings(c) == ParseSettingsIntended(c)
  {
    GammaXLengthsAgree(c.gammaXLengthUnit, c.gammaX);
    TwoElectronsLengthAgree(c.twoElectronsLengthUnit, c.gammaXLengthUnit, c.deltaZMax);
  }

  /**
   * The activity in Bq (per gram when a mass unit follows the slash): the
   * mass-unit test of lines 1788-1813 and the activity-unit test of lines
   * 2045-2078, both refusals ending the command.
   */
  function SourceActivity(activity: real, unit: Bytes): (r: Result<real, Fault>)
    ensures r.Ok? <==> SplitActivityUnit(unit).0 in ActivityUnits && SplitActivityUnit(unit).1 in MassUnits
    ensures forall i, j :: 0 <= i < |ActivityUnits| && 0 <= j < |MassUnits|
              && ActivityUnits[i] == SplitActivityUnit(unit).0 && MassUnits[j] == SplitActivityUnit(unit).1
              ==> r == Ok(InUnit(InUnit(activity, UnitsPerGram[j]), ActivityValues[i]))
  {
    var units := SplitActivityUnit(unit);
    var perGram :- MassScale(units.1);
    var bq :- ActivityScale(units.0);
    Ok(InUnit(InUnit(activity, perGram), bq))
  }

  /** The source age in seconds (lines 2080-2118). */
  function SourceAge(age: real, unit: Bytes): (r: Result<real, Fault>)
    ensures r.Ok? <==> unit in AgeUnits
    ensures forall k :: 0 <= k < |AgeUnits| && AgeUnits[k] == unit ==> r == Ok(InUnit(age, AgeValues[k]))
  {
    var seconds :- AgeScale(unit);
    Ok(InUnit(age, seconds))
  }

  /**
   * `SetSource` up to the loop over the components: the generator name, the
   * catalog, the energies and lengths as written, the activity with its mass
   * and activity units, and the age unit, each refusal ending the command.
   */
  function ParseSource(c: Command, catalog: seq<Component.SourceType>): (r: Result<Parsed, Fault>)
    ensures r.Ok? ==> ParseGenerator(c.sourceTypeName).Ok? && r.value.kind in catalog
                      && r.value.kind.name == ParseGenerator(c.sourceTypeName).value.typeName
    ensures r.Ok? ==> r.value.volName == c.volName
    ensures r.Ok? ==> (r.value.perMass <==> SplitActivityUnit(c.activityUnit).1 != ZeroText)
    ensures r.Ok? ==> SourceActivity(c.activity, c.activityUnit) == Ok(r.value.activity)
    ensures r.Ok? ==> SourceAge(c.sourceAge, c.sourceAgeUnit) == Ok(r.value.sourceAge)
    ensures r.Ok? ==> ParseSettings(c).Ok? && r.value.particleEnergy == ParseSettings(c).value.particleEnergy
                      && r.value.gammaX == ParseSettings(c).value.gammaX
                      && r.value.deltaZMax == ParseSettings(c).value.deltaZMax
  {
    var g :- ParseGenerator(c.sourceTypeName);
    var found := FirstNamed(catalog, g.typeName);
    if found.None? then Err(Exit)
    else
      var s :- ParseSettings(c);
      var activity :- SourceActivity(c.activity, c.activityUnit);
      var age :- SourceAge(c.sourceAge, c.sourceAgeUnit);
      Ok(Parsed(c.volName, found.value, SplitActivityUnit(c.activityUnit).1 != ZeroText, activity,
                g.massNumber, g.atomicNumber, g.parentIsotope, age,
                g.particleName, s.particleEnergy, c.posDefined, c.position,
                s.gammaX, s.gammaXMaxEnergy, s.deltaZMax, s.emin, s.emax, g.g4Decay, g.decayChain))
  }

  /** The same with the energies and lengths as evidently intended. */
  function ParseSourceIntended(c: Command, catalog: seq<Component.SourceType>): (r: Result<Parsed, Fault>)
    ensures r.Ok? ==> ParseGenerator(c.sourceTypeName).Ok? && r.value.kind in catalog
                      && r.value.kind.name == ParseGenerator(c.sourceTypeName).value.typeName
    ensures r.Ok? ==> r.value.volName == c.volName
    ensures r.Ok? ==> (r.value.perMass <==> SplitActivityUnit(c.activityUnit).1 != ZeroText)
    ensures r.Ok? ==> SourceActivity(c.activity, c.activityUnit) == Ok(r.value.activity)
    ensures r.Ok? ==> SourceAge(c.sourceAge, c.sourceAgeUnit) == Ok(r.value.sourceAge)
    ensures r.Ok? ==> ParseSettingsIntended(c).Ok? && r.value.particleEnergy == ParseSettingsIntended(c).value.particleEnergy
                      && r.value.gammaX == ParseSettingsIntended(c).value.gammaX
                      && r.value.deltaZMax == ParseSettingsIntended(c).value.deltaZMax
  {
    var g :- ParseGenerator(c.sourceTypeName);
    var found := FirstNamed(catalog, g.typeName);
    if found.None? then Err(Exit)
    else
      var s :- ParseSettingsIntended(c);
      var activity :- SourceActivity(c.activity, c.activityUnit);
      var age :- SourceAge(c.sourceAge, c.sourceAgeUnit);
      Ok(Parsed(c.volName, found.value, SplitActivityUnit(c.activityUnit).1 != ZeroText, activity,
                g.massNumber, g.atomicNumber, g.parentIsotope, age,
                g.particleName, s.particleEnergy, c.posDefined, c.position,
                s.gammaX, s.gammaXMaxEnergy, s.deltaZMax, s.emin, s.emax, g.g4Decay, g.decayChain))
  }

  /** For units the written checks handle as intended, the command is parsed as intended. */
  lemma ParseSourceAgree(c: Command, catalog: seq<Component.SourceType>)
    requires WrittenAsIntended(c)
    ensures ParseSource(c, catalog) == ParseSourceIntended(c, catalog)
  {
    ParseSettingsAgree(c);
  }

  /** A plain catalog source named as a volume source with its defaults is accepted, and its activity converted. */
  lemma PlainSourceAccepted(vol: Bytes, name: Bytes, catalog: seq<Component.SourceType>, activity: real, i: nat)
    requires !PositionForm(vol, catalog)
    requires !Contains(name, SingleParticleText) && !Contains(name, DecayChainText)
             && !Contains(name, SingleDecayText) && !Contains(name, G4DecayText)
    requires exists k :: 0 <= k < |catalog| && catalog[k].name == name
    requires i < |ActivityUnits|
    ensures ParseSource(Defaults(vol, name, catalog, Component.Origin, activity, ActivityUnits[i]), catalog).Ok?
    ensures var p := ParseSource(Defaults(vol, name, catalog, Component.Origin, activity, ActivityUnits[i]), catalog).value;
            p.volName == vol && p.kind.name == name && !p.perMass && p.activity == InUnit(activity, ActivityValues[i])
            && p.sourceAge == 0.0 && !p.pointSource
  {
    var c := Defaults(vol, name, catalog, Component.Origin, activity, ActivityUnits[i]);
    DefaultSettings(c);
    PlainActivity(activity, i);
    assert SourceAge(c.sourceAge, c.sourceAgeUnit) == Ok(0.0) by {
      assert AgeUnits[0] == c.sourceAgeUnit;
    }
  }

  /** A bare activity unit is refused by no mass test and takes its own conversion. */
  lemma PlainActivity(activity: real, i: nat)
    requires i < |ActivityUnits|
    ensures SplitActivityUnit(ActivityUnits[i]) == (ActivityUnits[i], ZeroText)
    ensures SourceActivity(activity, ActivityUnits[i]) == Ok(InUnit(activity, ActivityValues[i]))
  {
    assert Slash !in ActivityUnits[i];
    assert MassUnits[0] == ZeroText && UnitsPerGram[0] == 1.0;
  }

  /** The defaults pass every energy and length check, as written and as intended. */
  lemma DefaultSettings(c: Command)
    requires c.particleEnergyUnit == ZeroText && c.gammaXEnergyUnit == KeVText && c.gammaXLengthUnit == CmText
    requires c.twoElectronsEnergyUnit == KeVText && c.twoElectronsLengthUnit == CmText
    ensures ParseSettings(c).Ok? && ParseSettingsIntended(c).Ok?
  {
    EnergyAt(0);
    EnergyAt(3);
    assert EnergyUnits[0] == ZeroText && EnergyUnits[3] == KeVText;
    assert CmText in LengthUnits;
    ParseSettingsAgree(c);
  }
}
