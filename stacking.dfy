/**
 * The user stacking action: as each new track comes into existence, it is
 * classified (always as urgent) and, when radioisotopes are decayed by
 * Geant4's own decay generator, its global time is reset so that daughters
 * of a decay do not inherit the parent's enormous lifetime.
 */
module Stacking {
  import Manager

  /** Geant4's classification of a new track. */
  datatype Classification = Urgent | Waiting | PostponeToNextEvent | Kill

  /** A time above this many ns is taken for a parent's lifetime (line 60). */
  const TimeCeiling: real := 100000000000000000.0

  /** The time given instead of one above the ceiling (line 60). */
  const TimeReset: real := 10000000000.0

  /** The part of a new track the stacking action reads and writes. */
  class Track {
    /** The PDG code of the track's particle. */
    const pdgEncoding: int
    var globalTime: real

    constructor(pdgEncoding: int, globalTime: real)
      ensures this.pdgEncoding == pdgEncoding && this.globalTime == globalTime
    {
      this.pdgEncoding := pdgEncoding;
      this.globalTime := globalTime;
    }
  }

  /** The radioisotope map marks this PDG code false: the isotope's own decays are not to be delayed. */
  predicate ResetIsotope(isotopes: map<int, bool>, pdg: int)
  {
    pdg in isotopes && !isotopes[pdg]
  }

  /** A time past the ceiling brought back to `TimeReset` (line 60). */
  function Capped(t: real): (r: real)
    ensures r <= TimeCeiling
    ensures t <= TimeCeiling ==> r == t
    ensures t > TimeCeiling ==> r == TimeReset
  {
    if t > TimeCeiling then TimeReset else t
  }

  /** The global time a new track leaves with when Geant4's decay generator is on (lines 59-64). */
  function NewGlobalTime(isotopes: map<int, bool>, pdg: int, t: real): real
  {
    if ResetIsotope(isotopes, pdg) then 0.0 else Capped(t)
  }

  /** No new track keeps a time past the ceiling, and the reset isotopes start at 0. */
  lemma NewGlobalTimeBounded(isotopes: map<int, bool>, pdg: int, t: real)
    ensures NewGlobalTime(isotopes, pdg, t) <= TimeCeiling
    ensures ResetIsotope(isotopes, pdg) ==> NewGlobalTime(isotopes, pdg, t) == 0.0
    ensures !ResetIsotope(isotopes, pdg) && t <= TimeCeiling ==> NewGlobalTime(isotopes, pdg, t) == t
  {
  }

  /** Classifying a track a second time leaves its time as the first pass set it. */
  lemma NewGlobalTimeIdempotent(isotopes: map<int, bool>, pdg: int, t: real)
    ensures NewGlobalTime(isotopes, pdg, NewGlobalTime(isotopes, pdg, t)) == NewGlobalTime(isotopes, pdg, t)
  {
  }

  /** A non-empty set of PDG codes has a member to visit next. */
  lemma HasMember(s: set<int>)
    requires s != {}
    ensures exists k :: k in s
  {
    if forall k :: k !in s {
      assert false;
    }
  }

  class StackingAction {
    const luxManager: Manager.LuxManager
    /** The global time of the last track classified with the decay generator on, capped unless reset. */
    var lastTime: real

    /**
     * Lines 30-35. The constructor's `double lastTime = 0;` declares a local
     * that hides the field, so the field starts with whatever the caller gives.
     */
    constructor(manager: Manager.LuxManager, initialLastTime: real)
      ensures luxManager == manager && lastTime == initialLastTime
    {
      luxManager := manager;
      lastTime := initialLastTime;
    }

    /**
     * `ClassifyNewTrack` (lines 46-69): every track is urgent. With the
     * decay generator on, a track whose PDG code the radioisotope map marks
     * false starts at time 0; any other keeps its time, capped at the ceiling.
     */
    method ClassifyNewTrack(track: Track) returns (result: Classification)
      modifies this`lastTime, track
      ensures result == Urgent
      ensures !luxManager.g4Decay ==> lastTime == old(lastTime) && track.globalTime == old(track.globalTime)
      ensures luxManager.g4Decay ==>
                track.globalTime == NewGlobalTime(luxManager.radioIsotopeMap, track.pdgEncoding, old(track.globalTime))
                && lastTime == if ResetIsotope(luxManager.radioIsotopeMap, track.pdgEncoding)
                               then old(track.globalTime) else Capped(old(track.globalTime))
    {
      result := Urgent;
      if luxManager.g4Decay {
        lastTime := track.globalTime;
        var radIsoMap := luxManager.radioIsotopeMap;
        var foundIso := false;
        var unvisited := radIsoMap.Keys;
        while unvisited != {}
          invariant unvisited <= radIsoMap.Keys
          invariant lastTime == track.globalTime == old(track.globalTime)
          invariant foundIso <==> track.pdgEncoding in radIsoMap && track.pdgEncoding !in unvisited
                                  && !radIsoMap[track.pdgEncoding]
          decreases unvisited
        {
          HasMember(unvisited);
          var key :| key in unvisited;
          if key == track.pdgEncoding && !radIsoMap[key] {
            foundIso := true;
          }
          unvisited := unvisited - {key};
        }
        if !foundIso {
          if lastTime > TimeCeiling {
            lastTime := TimeReset;
          }
          track.globalTime := lastTime;
        } else {
          track.globalTime := 0.0;
        }
      }
    }
  }
}
