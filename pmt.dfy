/**
 * The two PMT numbering schemes of the 1.0 detector: the table from the
 * simulation's original numbering to the numbering of the real detector,
 * its inverse, and the positions of the top and bottom arrays.
 */
module PmtRenumbering {

  /** Number of slots in each table; slot 0 is unused (1-based PMT numbers). */
  const Slots: int := 123

  /**
   * `simToReal` as the initializer fills it (lines 16-138): the real PMT of
   * each old simulation PMT, 0 for slot 0 and anything outside the table.
   * The entries are written in rows of ten.
   */
  function SimToRealEntry(n: int): int
  {
    if n < 1 || n > 122 then 0
    else
      match n / 10
      case 0 => (match n case 1 => 1 case 2 => 54 case 3 => 53 case 4 => 52 case 5 => 51 case 6 => 2 case 7 => 5 case 8 => 57 case 9 => 56 case _ => 0)
      case 1 => (match n case 10 => 55 case 11 => 44 case 12 => 3 case 13 => 6 case 14 => 8 case 15 => 59 case 16 => 58 case 17 => 47 case 18 => 43 case 19 => 4 case _ => 0)
      case 2 => (match n case 20 => 7 case 21 => 9 case 22 => 10 case 23 => 60 case 24 => 49 case 25 => 46 case 26 => 42 case 27 => 11 case 28 => 15 case 29 => 18 case _ => 0)
      case 3 => (match n case 30 => 20 case 31 => 121 case 32 => 50 case 33 => 48 case 34 => 45 case 35 => 41 case 36 => 12 case 37 => 16 case 38 => 19 case 39 => 30 case _ => 0)
      case 4 => (match n case 40 => 40 case 41 => 39 case 42 => 37 case 43 => 34 case 44 => 13 case 45 => 17 case 46 => 28 case 47 => 29 case 48 => 38 case 49 => 36 case _ => 0)
      case 5 => (match n case 50 => 33 case 51 => 14 case 52 => 25 case 53 => 26 case 54 => 27 case 55 => 35 case 56 => 32 case 57 => 21 case 58 => 22 case 59 => 23 case _ => 0)
      case 6 => (match n case 60 => 24 case 61 => 31 case 62 => 61 case 63 => 114 case 64 => 113 case 65 => 112 case 66 => 111 case 67 => 62 case 68 => 65 case 69 => 117 case _ => 0)
      case 7 => (match n case 70 => 116 case 71 => 115 case 72 => 104 case 73 => 63 case 74 => 66 case 75 => 68 case 76 => 119 case 77 => 118 case 78 => 107 case 79 => 103 case _ => 0)
      case 8 => (match n case 80 => 64 case 81 => 67 case 82 => 69 case 83 => 70 case 84 => 120 case 85 => 109 case 86 => 106 case 87 => 102 case 88 => 71 case 89 => 75 case _ => 0)
      case 9 => (match n case 90 => 78 case 91 => 80 case 92 => 122 case 93 => 110 case 94 => 108 case 95 => 105 case 96 => 101 case 97 => 72 case 98 => 76 case 99 => 79 case _ => 0)
      case 10 => (match n case 100 => 90 case 101 => 100 case 102 => 99 case 103 => 97 case 104 => 94 case 105 => 73 case 106 => 77 case 107 => 88 case 108 => 89 case 109 => 98 case _ => 0)
      case 11 => (match n case 110 => 96 case 111 => 93 case 112 => 74 case 113 => 85 case 114 => 86 case 115 => 87 case 116 => 95 case 117 => 92 case 118 => 81 case 119 => 82 case _ => 0)
      case 12 => (match n case 120 => 83 case 121 => 84 case 122 => 91 case _ => 0)
      case _ => 0
  }

  /**
   * The old simulation PMT of each real PMT: the inverse of
   * `SimToRealEntry`, written out so that the bijection can be checked
   * entry by entry (`SimToRealBijective`, `RealToSimBijective`).
   */
  function RealToSimEntry(n: int): int
  {
    if n < 1 || n > 122 then 0
    else
      match n / 10
      case 0 => (match n case 1 => 1 case 2 => 6 case 3 => 12 case 4 => 19 case 5 => 7 case 6 => 13 case 7 => 20 case 8 => 14 case 9 => 21 case _ => 0)
      case 1 => (match n case 10 => 22 case 11 => 27 case 12 => 36 case 13 => 44 case 14 => 51 case 15 => 28 case 16 => 37 case 17 => 45 case 18 => 29 case 19 => 38 case _ => 0)
      case 2 => (match n case 20 => 30 case 21 => 57 case 22 => 58 case 23 => 59 case 24 => 60 case 25 => 52 case 26 => 53 case 27 => 54 case 28 => 46 case 29 => 47 case _ => 0)
      case 3 => (match n case 30 => 39 case 31 => 61 case 32 => 56 case 33 => 50 case 34 => 43 case 35 => 55 case 36 => 49 case 37 => 42 case 38 => 48 case 39 => 41 case _ => 0)
      case 4 => (match n case 40 => 40 case 41 => 35 case 42 => 26 case 43 => 18 case 44 => 11 case 45 => 34 case 46 => 25 case 47 => 17 case 48 => 33 case 49 => 24 case _ => 0)
      case 5 => (match n case 50 => 32 case 51 => 5 case 52 => 4 case 53 => 3 case 54 => 2 case 55 => 10 case 56 => 9 case 57 => 8 case 58 => 16 case 59 => 15 case _ => 0)
      case 6 => (match n case 60 => 23 case 61 => 62 case 62 => 67 case 63 => 73 case 64 => 80 case 65 => 68 case 66 => 74 case 67 => 81 case 68 => 75 case 69 => 82 case _ => 0)
      case 7 => (match n case 70 => 83 case 71 => 88 case 72 => 97 case 73 => 105 case 74 => 112 case 75 => 89 case 76 => 98 case 77 => 106 case 78 => 90 case 79 => 99 case _ => 0)
      case 8 => (match n case 80 => 91 case 81 => 118 case 82 => 119 case 83 => 120 case 84 => 121 case 85 => 113 case 86 => 114 case 87 => 115 case 88 => 107 case 89 => 108 case _ => 0)
      case 9 => (match n case 90 => 100 case 91 => 122 case 92 => 117 case 93 => 111 case 94 => 104 case 95 => 116 case 96 => 110 case 97 => 103 case 98 => 109 case 99 => 102 case _ => 0)
      case 10 => (match n case 100 => 101 case 101 => 96 case 102 => 87 case 103 => 79 case 104 => 72 case 105 => 95 case 106 => 86 case 107 => 78 case 108 => 94 case 109 => 85 case _ => 0)
      case 11 => (match n case 110 => 93 case 111 => 66 case 112 => 65 case 113 => 64 case 114 => 63 case 115 => 71 case 116 => 70 case 117 => 69 case 118 => 77 case 119 => 76 case _ => 0)
      case 12 => (match n case 120 => 84 case 121 => 31 case 122 => 92 case _ => 0)
      case _ => 0
  }

  /** `IsTop` (lines 165-170): real PMTs 1-60 and 121 are in the top array. */
  predicate IsTop(realPMT: int)
  {
    (1 <= realPMT <= 60) || realPMT == 121
  }

  /** `IsBottom` (lines 172-177): real PMTs 61-120 and 122 are in the bottom array. */
  predicate IsBottom(realPMT: int)
  {
    (61 <= realPMT <= 120) || realPMT == 122
  }

  /** No PMT is in both arrays, and the PMTs of the two arrays are exactly 1-122. */
  lemma TopBottomPartition(realPMT: int)
    ensures !(IsTop(realPMT) && IsBottom(realPMT))
    ensures IsTop(realPMT) || IsBottom(realPMT) <==> 1 <= realPMT <= 122
  {
  }

  /** The first 61 old simulation PMTs are the top array, and the table inverts on them. */
  lemma TopSims(s: int)
    requires 1 <= s <= 61
    ensures IsTop(SimToRealEntry(s)) && RealToSimEntry(SimToRealEntry(s)) == s
  {
    match s / 10
    case 0 => case 1 => case 2 => case 3 => case 4 => case 5 => case 6 =>
  }

  /** The last 61 old simulation PMTs are the bottom array, and the table inverts on them. */
  lemma BottomSims(s: int)
    requires 62 <= s <= 122
    ensures IsBottom(SimToRealEntry(s)) && RealToSimEntry(SimToRealEntry(s)) == s
  {
    match s / 10
    case 6 => case 7 => case 8 => case 9 => case 10 => case 11 => case 12 =>
  }

  /** Every top real PMT is reached from one of the first 61 old simulation PMTs. */
  lemma TopReals(r: int)
    requires IsTop(r)
    ensures 1 <= RealToSimEntry(r) <= 61 && SimToRealEntry(RealToSimEntry(r)) == r
  {
    match r / 10
    case 0 => case 1 => case 2 => case 3 => case 4 => case 5 => case 6 =>
    case 7 => case 8 => case 9 => case 10 => case 11 => case 12 =>
  }

  /** Every bottom real PMT is reached from one of the last 61 old simulation PMTs. */
  lemma BottomReals(r: int)
    requires IsBottom(r)
    ensures 62 <= RealToSimEntry(r) <= 122 && SimToRealEntry(RealToSimEntry(r)) == r
  {
    match r / 10
    case 0 => case 1 => case 2 => case 3 => case 4 => case 5 => case 6 =>
    case 7 => case 8 => case 9 => case 10 => case 11 => case 12 =>
  }

  /** The table inverts on every old simulation PMT. */
  lemma SimToRealBijective(s: int)
    requires 1 <= s <= 122
    ensures 1 <= SimToRealEntry(s) <= 122 && RealToSimEntry(SimToRealEntry(s)) == s
    ensures s <= 61 ==> IsTop(SimToRealEntry(s))
    ensures s >= 62 ==> IsBottom(SimToRealEntry(s))
  {
    if s <= 61 {
      TopSims(s);
    } else {
      BottomSims(s);
    }
  }

  /** Every real PMT is the image of exactly the old simulation PMT the inverse gives. */
  lemma RealToSimBijective(r: int)
    requires 1 <= r <= 122
    ensures 1 <= RealToSimEntry(r) <= 122 && SimToRealEntry(RealToSimEntry(r)) == r
    ensures IsTop(r) ==> RealToSimEntry(r) <= 61
    ensures IsBottom(r) ==> RealToSimEntry(r) >= 62
  {
    TopBottomPartition(r);
    if IsTop(r) {
      TopReals(r);
    } else {
      BottomReals(r);
    }
  }

  /**
   * `LUXSim1_0PMTRenumbering`'s two static tables, filled once by its
   * `Initializer`.
   */
  class Renumbering {
    var simToReal: array<int>
    var realToSim: array<int>

    /** Both tables hold their entries; `realToSim` is the inverse of `simToReal`. */
    ghost predicate Valid()
      reads this, simToReal, realToSim
    {
      simToReal.Length == Slots && realToSim.Length == Slots
      && (forall i :: 0 <= i < Slots ==> simToReal[i] == SimToRealEntry(i))
      && (forall i :: 0 <= i < Slots ==> realToSim[i] == RealToSimEntry(i))
    }

    /**
     * `Initializer` (lines 13-149): `simToReal` is filled from the table;
     * `realToSim` is cleared and then, for each old simulation PMT whose
     * real number is in 1-122, receives that PMT at its real number.
     */
    constructor Initializer()
      ensures Valid() && fresh(simToReal) && fresh(realToSim)
    {
      var sims := new int[Slots](SimToRealEntry);
      var reals := new int[Slots](_ => 0);
      var i := 1;
      while i < Slots
        invariant 1 <= i <= Slots
        invariant forall r :: 0 <= r < Slots ==>
                    reals[r] == if 1 <= RealToSimEntry(r) < i then RealToSimEntry(r) else 0
        modifies reals
      {
        var realPMT := sims[i];
        SimToRealBijective(i);
        if realPMT > 0 && realPMT < Slots {
          forall r | 0 <= r < Slots && RealToSimEntry(r) == i
            ensures r == realPMT
          {
            RealToSimBijective(r);
          }
          reals[realPMT] := i;
        }
        i := i + 1;
      }
      forall r | 0 <= r < Slots
        ensures reals[r] == RealToSimEntry(r)
      {
        if 1 <= r <= 122 {
          RealToSimBijective(r);
        }
      }
      simToReal := sims;
      realToSim := reals;
    }

    /** `GetRealFromOldSim` (lines 151-156). */
    function GetRealFromOldSim(simPMT: int): (r: int)
      requires Valid()
      reads this, simToReal, realToSim
      ensures (simPMT < 1 || simPMT > 122) ==> r == 0
      ensures 1 <= simPMT <= 61 ==> IsTop(r)
      ensures 62 <= simPMT <= 122 ==> IsBottom(r)
    {
      if simPMT > 0 && simPMT < Slots then
        SimToRealBijective(simPMT);
        simToReal[simPMT]
      else 0
    }

    /** `GetOldSimFromReal` (lines 158-163): the inverse lookup. */
    function GetOldSimFromReal(realPMT: int): (s: int)
      requires Valid()
      reads this, simToReal, realToSim
      ensures (realPMT < 1 || realPMT > 122) ==> s == 0
      ensures 1 <= realPMT <= 122 ==> 1 <= s <= 122 && GetRealFromOldSim(s) == realPMT
      ensures IsTop(realPMT) ==> 1 <= s <= 61
      ensures IsBottom(realPMT) ==> 62 <= s <= 122
    {
      if realPMT > 0 && realPMT < Slots then
        RealToSimBijective(realPMT);
        realToSim[realPMT]
      else 0
    }

    /** Going to the real numbering and back gives the old simulation PMT again. */
    lemma SimRoundTrip(simPMT: int)
      requires Valid() && 1 <= simPMT <= 122
      ensures GetOldSimFromReal(GetRealFromOldSim(simPMT)) == simPMT
    {
      SimToRealBijective(simPMT);
    }

    /**
     * `GetTopArrayIndexFromReal` (lines 179-203): the slot of a top PMT in
     * the top array, in the old or the new numbering; -1 for any other PMT.
     */
    function GetTopArrayIndexFromReal(realPMT: int, useOldSim: bool): (idx: int)
      requires Valid()
      reads this, simToReal, realToSim
      ensures !IsTop(realPMT) ==> idx == -1
      ensures IsTop(realPMT) ==> 0 <= idx <= 60
      ensures IsTop(realPMT) && useOldSim ==> idx + 1 == GetOldSimFromReal(realPMT)
    {
      if realPMT >= 1 && realPMT <= 60 then
        if useOldSim then GetOldSimFromReal(realPMT) - 1 else realPMT - 1
      else if realPMT == 121 then
        if useOldSim then GetOldSimFromReal(realPMT) - 1 else 60
      else -1
    }

    /**
     * `GetBottomArrayIndexFromReal` (lines 205-228): the slot of a bottom
     * PMT in the bottom array, in the old or the new numbering; -1 for any
     * other PMT.
     */
    function GetBottomArrayIndexFromReal(realPMT: int, useOldSim: bool): (idx: int)
      requires Valid()
      reads this, simToReal, realToSim
      ensures !IsBottom(realPMT) ==> idx == -1
      ensures IsBottom(realPMT) ==> 0 <= idx <= 60
      ensures IsBottom(realPMT) && useOldSim ==> idx + 62 == GetOldSimFromReal(realPMT)
    {
      if realPMT >= 61 && realPMT <= 120 then
        if useOldSim then GetOldSimFromReal(realPMT) - 62 else realPMT - 61
      else if realPMT == 122 then
        if useOldSim then GetOldSimFromReal(realPMT) - 62 else 60
      else -1
    }

    /** Distinct top PMTs have distinct slots in either numbering. */
    lemma TopIndexInjective(a: int, b: int, useOldSim: bool)
      requires Valid() && IsTop(a) && IsTop(b)
      requires GetTopArrayIndexFromReal(a, useOldSim) == GetTopArrayIndexFromReal(b, useOldSim)
      ensures a == b
    {
      if useOldSim {
        assert GetRealFromOldSim(GetOldSimFromReal(a)) == a;
        assert GetRealFromOldSim(GetOldSimFromReal(b)) == b;
      }
    }

    /** Distinct bottom PMTs have distinct slots in either numbering. */
    lemma BottomIndexInjective(a: int, b: int, useOldSim: bool)
      requires Valid() && IsBottom(a) && IsBottom(b)
      requires GetBottomArrayIndexFromReal(a, useOldSim) == GetBottomArrayIndexFromReal(b, useOldSim)
      ensures a == b
    {
      if useOldSim {
        assert GetRealFromOldSim(GetOldSimFromReal(a)) == a;
        assert GetRealFromOldSim(GetOldSimFromReal(b)) == b;
      }
    }
  }
}
