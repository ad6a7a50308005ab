/**
 * The LUXSim manager's bookkeeping: the registry of detector components and
 * the "name level" commands addressed to them, the effect of the source
 * command on the components, the sizing and trimming of the event tree, the
 * events-file queues, and what each event records.
 */
module Manager {
  import opened Wire
  import opened Text
  import opened Format
  import Component
  import Output
  import SourceUnits

  type Fault = SourceUnits.Fault
  type DetectorComponent = Component.DetectorComponent

  const Stars: Bytes := [42, 42, 42]   // "***"
  const Newline: Byte := 10

  // ---------------------------------------------------------------------------
  // The output directory (lines 621-627)
  // ---------------------------------------------------------------------------

  /**
   * The directory as stored: a '/' is added unless the text already ends in
   * one.  For the empty text `compare(length() - 1, 1, "/")` starts past the
   * end and throws.
   */
  function WithTrailingSlash(dir: Bytes): (r: Result<Bytes, Fault>)
    ensures r.Err? <==> dir == []
    ensures r.Err? ==> r.error == SourceUnits.OutOfRange
    ensures r.Ok? ==> |r.value| > 0 && r.value[|r.value| - 1] == SourceUnits.Slash
    ensures r.Ok? ==> |dir| <= |r.value| <= |dir| + 1 && r.value[..|dir|] == dir
    ensures r.Ok? && dir[|dir| - 1] == SourceUnits.Slash ==> r.value == dir
  {
    if dir == [] then Err(SourceUnits.OutOfRange)
    else if dir[|dir| - 1] == SourceUnits.Slash then Ok(dir)
    else Ok(dir + [SourceUnits.Slash])
  }

  /** A stored directory is stored again unchanged. */
  lemma TrailingSlashIdempotent(dir: Bytes)
    requires dir != []
    ensures WithTrailingSlash(WithTrailingSlash(dir).value) == WithTrailingSlash(dir)
  {
  }

  // ---------------------------------------------------------------------------
  // "name level" commands (lines 699-714, 771-788, 825-842, 880-897)
  // ---------------------------------------------------------------------------

  /**
   * The volume name is the text before the first space and the level is
   * `atoi` of the rest, the space included; without a space
   * `substr(npos)` throws.
   */
  function ParseLevelCommand(info: Bytes): (r: Result<(Bytes, int), Fault>)
    ensures r.Err? <==> Space !in info
    ensures r.Err? ==> r.error == SourceUnits.OutOfRange
    ensures r.Ok? ==> |r.value.0| < |info| && info[..|r.value.0|] == r.value.0 && info[|r.value.0|] == Space
                      && Space !in r.value.0 && r.value.1 == Atoi(info[|r.value.0|..])
  {
    match SourceUnits.SplitAt(info, Space)
    case (_, None) => Err(SourceUnits.OutOfRange)
    case (name, Some(rest)) =>
      assert info[|name|..] == [Space] + rest && info[..|name|] == name;
      Ok((name, Atoi([Space] + rest)))
  }

  /** The command `UpdateGeometry` writes to restore a component's level: `name << " " << level`. */
  function LevelCommand(name: Bytes, level: int): Bytes
  {
    name + [Space] + Decimal(level)
  }

  /** A restoring command reads back as the name and level it was made from. */
  lemma LevelCommandRoundTrip(name: Bytes, level: int)
    requires Space !in name
    ensures ParseLevelCommand(LevelCommand(name, level)) == Ok((name, level))
  {
    SourceUnits.SplitAtJoin(name, Space, Decimal(level));
    assert Decimal(level) + [] == Decimal(level);
    DecimalAtoi(level, []);
    AtoiSkipsBlank(Decimal(level));
  }

  /** The components a level command addresses: all for "***", else those whose name contains the one given. */
  predicate Addressed(pattern: Bytes, name: Bytes)
  {
    pattern == Stars || Contains(name, pattern)
  }

  /** The components whose name contains `pattern`, in registry order. */
  function Matching(cs: seq<DetectorComponent>, pattern: Bytes): (r: seq<DetectorComponent>)
    ensures |r| <= |cs|
  {
    if cs == [] then []
    else Matching(cs[..|cs| - 1], pattern)
         + (if Contains(cs[|cs| - 1].name, pattern) then [cs[|cs| - 1]] else [])
  }

  /** Some component's name contains `pattern`. */
  predicate AnyNamed(cs: seq<DetectorComponent>, pattern: Bytes)
  {
    cs != [] && (AnyNamed(cs[..|cs| - 1], pattern) || Contains(cs[|cs| - 1].name, pattern))
  }

  lemma AnyNamedStep(cs: seq<DetectorComponent>, i: nat, pattern: Bytes)
    requires i < |cs|
    ensures AnyNamed(cs[..i + 1], pattern) <==> AnyNamed(cs[..i], pattern) || Contains(cs[i].name, pattern)
  {
    assert cs[..i + 1][..i] == cs[..i];
  }

  lemma {:induction false} AnyNamedExists(cs: seq<DetectorComponent>, pattern: Bytes)
    ensures AnyNamed(cs, pattern) <==> exists k :: 0 <= k < |cs| && Contains(cs[k].name, pattern)
  {
    if cs != [] {
      var n := |cs| - 1;
      AnyNamedExists(cs[..n], pattern);
      assert forall k :: 0 <= k < n ==> cs[..n][k] == cs[k];
      if Contains(cs[n].name, pattern) {
        assert exists k :: 0 <= k < |cs| && Contains(cs[k].name, pattern);
      }
    }
  }

  /** Exactly the components whose name contains the pattern are matched. */
  lemma {:induction false} MatchingMembers(cs: seq<DetectorComponent>, pattern: Bytes)
    ensures forall c :: c in Matching(cs, pattern) ==> c in cs && Contains(c.name, pattern)
    ensures forall k :: 0 <= k < |cs| && Contains(cs[k].name, pattern) ==> cs[k] in Matching(cs, pattern)
  {
    if cs != [] {
      var init := cs[..|cs| - 1];
      MatchingMembers(init, pattern);
      assert forall k :: 0 <= k < |init| ==> init[k] == cs[k];
      assert forall c :: c in init ==> c in cs;
    }
  }

  /** The levels of one kind of a sequence of components. */
  function LevelsOf(cs: seq<DetectorComponent>, kind: Component.LevelKind): (r: seq<int>)
    reads cs
    ensures |r| == |cs| && forall k :: 0 <= k < |cs| ==> r[k] == cs[k].Level(kind)
  {
    if cs == [] then [] else LevelsOf(cs[..|cs| - 1], kind) + [cs[|cs| - 1].Level(kind)]
  }

  /** The first component with exactly the given name. */
  function FirstNamed(cs: seq<DetectorComponent>, name: Bytes): (r: Option<DetectorComponent>)
    ensures r.None? <==> forall i :: 0 <= i < |cs| ==> cs[i].name != name
    ensures r.Some? ==> exists i :: 0 <= i < |cs| && cs[i] == r.value && r.value.name == name
                                    && forall j :: 0 <= j < i ==> cs[j].name != name
  {
    if cs == [] then None
    else if cs[0].name == name then
      assert cs[0] == cs[0];
      Some(cs[0])
    else
      var r := FirstNamed(cs[1..], name);
      assert forall j :: 1 <= j < |cs| ==> cs[j] == cs[1..][j - 1];
      r
  }

  // ---------------------------------------------------------------------------
  // Deregistration and the lookup table (lines 747-766)
  // ---------------------------------------------------------------------------

  /** The position of the first occurrence. */
  function IndexOf<T(==)>(s: seq<T>, x: T): (i: nat)
    requires x in s
    ensures i < |s| && s[i] == x && x !in s[..i]
  {
    if s[0] == x then 0
    else
      var j := IndexOf(s[1..], x);
      assert s[..j + 1] == [s[0]] + s[1..][..j];
      j + 1
  }

  /** The sequence without the first occurrence of `x`; the rest keep their order. */
  function RemoveFirst<T(==)>(s: seq<T>, x: T): (r: seq<T>)
    ensures x !in s ==> r == s
    ensures x in s ==> |r| == |s| - 1 && multiset(r) == multiset(s) - multiset{x}
    ensures x in s ==> r == s[..IndexOf(s, x)] + s[IndexOf(s, x) + 1..]
  {
    if x in s then
      var i := IndexOf(s, x);
      assert s == s[..i] + [x] + s[i + 1..];
      s[..i] + s[i + 1..]
    else s
  }

  /** Registering a new component and deregistering it again restores the registry. */
  lemma RegisterDeregister<T>(s: seq<T>, x: T)
    requires x !in s
    ensures RemoveFirst(s + [x], x) == s
  {
    assert (s + [x])[..|s|] == s;
    IndexOfAt(s + [x], x, |s|);
  }

  /** The first occurrence is the one with none before it. */
  lemma IndexOfAt<T>(s: seq<T>, x: T, i: nat)
    requires i < |s| && s[i] == x && x !in s[..i]
    ensures IndexOf(s, x) == i
  {
  }

  const IdLabel: Bytes := [73, 68, 32]          // "ID "
  const IdSeparator: Bytes := [58, 32]          // ": "

  /** One line of the lookup table, without its newline. */
  function TableLine(id: int, name: Bytes): Bytes
  {
    IdLabel + Decimal(id) + IdSeparator + name
  }

  /** One line of the table with its newline. */
  function TerminatedLine(e: (int, Bytes)): Bytes
  {
    TableLine(e.0, e.1) + [Newline]
  }

  /** The table text: one newline-terminated line per component, in registry order. */
  function LookupTable(entries: seq<(int, Bytes)>): Bytes
  {
    if entries == [] then [] else TerminatedLine(entries[0]) + LookupTable(entries[1..])
  }

  lemma {:induction false} LookupTableAppend(entries: seq<(int, Bytes)>, e: (int, Bytes))
    ensures LookupTable(entries + [e]) == LookupTable(entries) + TerminatedLine(e)
  {
    if entries == [] {
      assert [e][1..] == [];
      assert LookupTable([e]) == TerminatedLine(e) + LookupTable([]);
    } else {
      assert (entries + [e])[0] == entries[0];
      assert (entries + [e])[1..] == entries[1..] + [e];
      LookupTableAppend(entries[1..], e);
      assert LookupTable(entries + [e]) == TerminatedLine(entries[0]) + LookupTable(entries[1..] + [e]);
    }
  }

  lemma NoNewlineInLine(id: int, name: Bytes)
    requires Newline !in name
    ensures Newline !in TableLine(id, name)
  {
    SourceUnits.DecimalLetters(id);
    var l := TableLine(id, name);
    forall i | 0 <= i < |l| ensures l[i] != Newline {
      if 3 <= i < 3 + |Decimal(id)| {
        assert l[i] == Decimal(id)[i - 3];
      } else if 3 + |Decimal(id)| + 2 <= i {
        assert l[i] == name[i - 3 - |Decimal(id)| - 2];
      }
    }
  }

  /** Splitting the table at its newlines gives back one line per component. */
  lemma {:induction false} LookupTableLines(entries: seq<(int, Bytes)>)
    requires forall k :: 0 <= k < |entries| ==> Newline !in entries[k].1
    ensures |SourceUnits.Fields(LookupTable(entries), Newline)| == |entries|
    ensures forall k :: 0 <= k < |entries| ==>
              SourceUnits.Fields(LookupTable(entries), Newline)[k] == TableLine(entries[k].0, entries[k].1)
  {
    if entries != [] {
      var line := TableLine(entries[0].0, entries[0].1);
      var rest := LookupTable(entries[1..]);
      NoNewlineInLine(entries[0].0, entries[0].1);
      SourceUnits.SplitAtJoin(line, Newline, rest);
      assert LookupTable(entries) == line + [Newline] + rest;
      var fields := SourceUnits.Fields(LookupTable(entries), Newline);
      var tail := entries[1..];
      assert fields == [line] + SourceUnits.Fields(rest, Newline);
      assert forall k :: 0 <= k < |tail| ==> Newline !in tail[k].1 by {
        forall k | 0 <= k < |tail| ensures Newline !in tail[k].1 {
          assert tail[k] == entries[k + 1];
        }
      }
      LookupTableLines(tail);
      forall k | 0 <= k < |entries| ensures fields[k] == TableLine(entries[k].0, entries[k].1) {
        if k > 0 {
          assert fields[k] == SourceUnits.Fields(rest, Newline)[k - 1];
          assert tail[k - 1] == entries[k];
        }
      }
    }
  }

  /** What the lookup table lists of each component: its id and name. */
  function Entries(cs: seq<DetectorComponent>): (r: seq<(int, Bytes)>)
    reads cs
    ensures |r| == |cs| && forall k :: 0 <= k < |cs| ==> r[k] == (cs[k].compId, cs[k].name)
  {
    if cs == [] then [] else Entries(cs[..|cs| - 1]) + [(cs[|cs| - 1].compId, cs[|cs| - 1].name)]
  }

  /** A component's state after a level command: changed only when the command addresses it. */
  function LevelSet(s: Component.State, name: Bytes, kind: Component.LevelKind, pattern: Bytes, level: int): Component.State
  {
    if Addressed(pattern, name) then Component.WithLevel(s, kind, level) else s
  }

  /** A level command is idempotent. */
  lemma LevelSetTwice(s: Component.State, name: Bytes, kind: Component.LevelKind, pattern: Bytes, level: int)
    ensures LevelSet(LevelSet(s, name, kind, pattern, level), name, kind, pattern, level)
            == LevelSet(s, name, kind, pattern, level)
  {
    Component.WithLevelTwice(s, kind, level);
  }

  /** One step of the `GetLevels` loop. */
  lemma LevelsStep(cs: seq<DetectorComponent>, i: nat, pattern: Bytes, kind: Component.LevelKind)
    requires i < |cs|
    ensures LevelsOf(Matching(cs[..i + 1], pattern), kind)
            == LevelsOf(Matching(cs[..i], pattern), kind) + if Contains(cs[i].name, pattern) then [cs[i].Level(kind)] else []
  {
    assert cs[..i + 1] == cs[..i] + [cs[i]];
    MatchingAppend(cs[..i], cs[i], pattern);
    LevelsOfAppend(Matching(cs[..i], pattern), cs[i], kind);
  }

  lemma LevelsOfAppend(cs: seq<DetectorComponent>, c: DetectorComponent, kind: Component.LevelKind)
    ensures LevelsOf(cs + [c], kind) == LevelsOf(cs, kind) + [c.Level(kind)]
  {
    assert (cs + [c])[..|cs|] == cs;
  }

  lemma MatchingAppend(cs: seq<DetectorComponent>, c: DetectorComponent, pattern: Bytes)
    ensures Matching(cs + [c], pattern) == Matching(cs, pattern) + if Contains(c.name, pattern) then [c] else []
  {
    assert (cs + [c])[..|cs|] == cs;
  }

  // ---------------------------------------------------------------------------
  // Mass and volume commands (lines 972-1011)
  // ---------------------------------------------------------------------------

  /**
   * The first word and what `substr(find(" ") + 1)` leaves of the text;
   * without a space `npos + 1` wraps to 0 and the whole text is left.
   */
  function Word(s: Bytes): (r: (Bytes, Bytes))
    ensures Space in s ==> s == r.0 + [Space] + r.1 && Space !in r.0
    ensures Space !in s ==> r == (s, s)
  {
    match SourceUnits.SplitAt(s, Space)
    case (_, None) => (s, s)
    case (w, Some(rest)) => (w, rest)
  }

  /** Name, amount and unit of a mass or volume command, each cut off by `Word`. */
  function ThreeWords(s: Bytes): (Bytes, Bytes, Bytes)
  {
    var (a, r1) := Word(s);
    var (b, r2) := Word(r1);
    (a, b, Word(r2).0)
  }

  /** A command of three space-separated words reads back as those words. */
  lemma ThreeWordsOf(a: Bytes, b: Bytes, c: Bytes)
    requires Space !in a && Space !in b && Space !in c
    ensures ThreeWords(a + [Space] + b + [Space] + c) == (a, b, c)
  {
    assert a + [Space] + b + [Space] + c == a + [Space] + (b + [Space] + c);
    SourceUnits.SplitAtJoin(a, Space, b + [Space] + c);
    SourceUnits.SplitAtJoin(b, Space, c);
  }

  /** A command of one word uses that word as name, amount and unit alike. */
  lemma ThreeWordsOfOne(w: Bytes)
    requires Space !in w
    ensures ThreeWords(w) == (w, w, w)
  {
  }

  const UgText: Bytes := [117, 103]        // "ug"
  const MgText: Bytes := [109, 103]        // "mg"
  const KgText: Bytes := [107, 103]        // "kg"
  const Mm3Text: Bytes := [109, 109, 51]   // "mm3"
  const M3Text: Bytes := [109, 51]         // "m3"

  /** Grams per unit word of the mass command; any word but "ug", "mg" and "kg" means grams. */
  function GramsPer(unit: Bytes): real
  {
    if unit == UgText then 0.000001 else if unit == MgText then 0.001 else if unit == KgText then 1000.0 else 1.0
  }

  /** Cubic centimetres per unit word of the volume command; any word but "mm3" and "m3" means cm3. */
  function Cm3Per(unit: Bytes): real
  {
    if unit == Mm3Text then 0.001 else if unit == M3Text then 1000000.0 else 1.0
  }

  /** The mass handed to `SetMass`: `atof(amount) * g` scaled by the unit. */
  function CommandMass(amount: real, unit: Bytes): real
  {
    SourceUnits.InUnit(SourceUnits.InUnit(amount, Component.Gram), GramsPer(unit))
  }

  /** The volume handed to `SetVolume`: `atof(amount) * cm3` scaled by the unit. */
  function CommandVolume(amount: real, unit: Bytes): real
  {
    SourceUnits.InUnit(SourceUnits.InUnit(amount, Component.Cm3), Cm3Per(unit))
  }

  /** The mass the component then stores is the amount in grams. */
  lemma CommandMassInGrams(amount: real, unit: Bytes)
    ensures CommandMass(amount, unit) / Component.Gram == SourceUnits.InUnit(amount, GramsPer(unit))
  {
    var f := GramsPer(unit);
    assert amount * Component.Gram * f == (amount * f) * Component.Gram;
  }

  /** The volume the component then stores is the amount in cubic centimetres. */
  lemma CommandVolumeInCm3(amount: real, unit: Bytes)
    ensures CommandVolume(amount, unit) / Component.Cm3 == SourceUnits.InUnit(amount, Cm3Per(unit))
  {
    var f := Cm3Per(unit);
    assert amount * Component.Cm3 * f == (amount * f) * Component.Cm3;
  }

  function MassCommandSet(s: Component.State, name: Bytes, density: real, pattern: Bytes, m: real): Component.State
    requires density > 0.0
  {
    if Contains(name, pattern) then Component.MassSet(s, m, density) else s
  }

  function VolumeCommandSet(s: Component.State, name: Bytes, density: real, pattern: Bytes, v: real, sampled: real)
    : Component.State
  {
    if Contains(name, pattern) then Component.VolumeSet(s, v, density, sampled) else s
  }

  // ---------------------------------------------------------------------------
  // Adding a parsed source to the components (lines 2117-2150)
  // ---------------------------------------------------------------------------

  /** The source `AddSource` stores for a parsed command and the activity given to this volume. */
  function SourceOf(p: SourceUnits.Parsed, activity: real): (r: Component.Source)
    ensures r.ratio == 0.0 && r.activity == activity
  {
    Component.Source(p.kind, activity, 0.0, p.massNumber, p.atomicNumber, p.parentIsotope, p.sourceAge,
                     p.particleName, p.particleEnergy, p.pointSource, p.position)
  }

  /**
   * A component's state after the source command: unchanged unless its name
   * contains the volume name; an activity per mass is multiplied by the
   * component's mass, which `GetMass` computes if it is still unknown.
   */
  function SourceSet(s: Component.State, name: Bytes, density: real, p: SourceUnits.Parsed, sampled: real)
    : Component.State
  {
    if !Contains(name, p.volName) then s
    else if p.perMass then
      var s1 := Component.MassKnown(s, density, sampled);
      s1.(sources := s1.sources + [SourceOf(p, SourceUnits.InUnit(p.activity, s1.mass))])
    else s.(sources := s.sources + [SourceOf(p, p.activity)])
  }

  /** What the source command adds to a component: one source, or none when its name does not match. */
  lemma SourceSetAdds(s: Component.State, name: Bytes, density: real, p: SourceUnits.Parsed, sampled: real)
    ensures var r := SourceSet(s, name, density, p, sampled);
            r.sources[..|s.sources|] == s.sources
            && (Contains(name, p.volName) ==> |r.sources| == |s.sources| + 1
                                              && r.sources[|s.sources|].kind == p.kind
                                              && r.sources[|s.sources|].ratio == 0.0)
            && (!Contains(name, p.volName) ==> r == s)
  {
  }

  // ---------------------------------------------------------------------------
  // The event tree (lines 2262-2318, 2446-2466)
  // ---------------------------------------------------------------------------

  /** What a tree node holds of the decay behind an event. */
  datatype Decay = Decay(z: int, a: int, particleName: Bytes, energy: real)

  /** A node of the tree: the decay, its time in ns, where, and which volume source and source produced it. */
  datatype TreeEntry = TreeEntry(decay: Decay, time: real, position: Component.Point3, volumeIndex: int, sourceIndex: int)

  /** The tree as the manager sees it: its parameters and the nonempty nodes in time order. */
  datatype EventTree = EventTree(depth: int, windowStart: real, windowEnd: real, capacity: int, entries: seq<TreeEntry>)

  predicate TimeOrdered(es: seq<TreeEntry>)
  {
    forall i, j :: 0 <= i < j < |es| ==> es[i].time <= es[j].time
  }

  /** The number of leading entries not later than `t`. */
  function NotLater(es: seq<TreeEntry>, t: real): (k: nat)
    ensures k <= |es|
    ensures forall i :: 0 <= i < k ==> es[i].time <= t
    ensures k < |es| ==> es[k].time > t
  {
    if es == [] || es[0].time > t then 0 else 1 + NotLater(es[1..], t)
  }

  /** Inserting by time: the new entry goes after the entries that are not later than it. */
  function InsertByTime(es: seq<TreeEntry>, e: TreeEntry): (r: seq<TreeEntry>)
    ensures multiset(r) == multiset(es) + multiset{e}
  {
    var k := NotLater(es, e.time);
    assert es == es[..k] + es[k..];
    es[..k] + [e] + es[k..]
  }

  /** Insertion keeps the entries in time order. */
  lemma InsertKeepsOrder(es: seq<TreeEntry>, e: TreeEntry)
    requires TimeOrdered(es)
    ensures TimeOrdered(InsertByTime(es, e))
  {
    var k := NotLater(es, e.time);
    var r := InsertByTime(es, e);
    forall i, j | 0 <= i < j < |r| ensures r[i].time <= r[j].time {
      var ti := if i < k then es[i].time else if i == k then e.time else es[i - 1].time;
      var tj := if j < k then es[j].time else if j == k then e.time else es[j - 1].time;
      assert r[i].time == ti && r[j].time == tj;
      if j > k {
        assert es[k].time <= es[j - 1].time;
      }
    }
  }

  /** What trimming keeps: the earliest `n` entries, and none of those dropped is earlier than one kept. */
  lemma TrimKeepsEarliest(es: seq<TreeEntry>, n: nat)
    requires TimeOrdered(es) && n <= |es|
    ensures TimeOrdered(es[..n])
    ensures forall i, j :: 0 <= i < n <= j < |es| ==> es[..n][i].time <= es[j].time
  {
  }

  /** The event count from which the tree gets deeper. */
  const DeepTreeEvents: real := 2000000.0
  const BaseDepth: int := 20
  const MaxDepth: int := 25
  const DefaultWindowEnd: real := 10000000000.0
  const NsPerSecond: real := 1000000000.0

  function Pow2(k: nat): (r: nat)
    ensures r >= 1
  {
    if k == 0 then 1 else 2 * Pow2(k - 1)
  }

  lemma {:induction false} Pow2Monotone(i: nat, j: nat)
    requires i <= j
    ensures Pow2(i) <= Pow2(j)
    decreases j
  {
    if i < j {
      Pow2Monotone(i, j - 1);
    }
  }

  /**
   * The levels added for `n` events: at most five, one for each `k >= 1`
   * with `n > 2e6 * 2^k`.
   */
  predicate DepthFits(n: int, k: nat)
  {
    k <= MaxDepth - BaseDepth
    && (k > 0 ==> n as real > DeepTreeEvents * Pow2(k) as real)
    && (k < MaxDepth - BaseDepth ==> n as real <= DeepTreeEvents * Pow2(k + 1) as real)
  }

  /** The extra depth is determined by the number of events. */
  lemma DepthUnique(n: int, k1: nat, k2: nat)
    requires DepthFits(n, k1) && DepthFits(n, k2)
    ensures k1 == k2
  {
    if k1 < k2 {
      Pow2Monotone(k1 + 1, k2);
    } else if k2 < k1 {
      Pow2Monotone(k2 + 1, k1);
    }
  }

  /** More events never give a shallower tree. */
  lemma DepthMonotone(n1: int, n2: int, k1: nat, k2: nat)
    requires n1 <= n2 && DepthFits(n1, k1) && DepthFits(n2, k2)
    ensures k1 <= k2
  {
    if k2 < k1 {
      Pow2Monotone(k2 + 1, k1);
    }
  }

  lemma RatioAboveOne(x: real, y: real)
    requires y > 0.0
    ensures x / y > 1.0 <==> x > y
  {
    assert x == (x / y) * y;
  }

  /** `min` on integers. */
  function Min(a: int, b: int): int
  {
    if a <= b then a else b
  }

  const RealText: Bytes := [114, 101, 97, 108]                // "real"
  const LinearText: Bytes := [108, 105, 110, 101, 97, 114]    // "linear"

  /**
   * The depth of the tree: 20, one more for each doubling of the events
   * beyond 2e6 up to a depth of 25, and one more for decay chains.
   */
  method TreeDepth(numEvents: int, decayChain: bool) returns (depth: int)
    ensures var k := depth - BaseDepth - (if decayChain then 1 else 0);
            k >= 0 && DepthFits(numEvents, k)
  {
    var n := numEvents as real;
    depth := BaseDepth;
    if n > DeepTreeEvents {
      var npower := 1;
      while n / (DeepTreeEvents * Pow2(npower) as real) > 1.0 && depth < MaxDepth
        invariant 1 <= npower && depth == BaseDepth + npower - 1 <= MaxDepth
        invariant npower > 1 ==> n > DeepTreeEvents * Pow2(npower - 1) as real
        decreases MaxDepth - depth
      {
        RatioAboveOne(n, DeepTreeEvents * Pow2(npower) as real);
        npower := npower + 1;
        depth := depth + 1;
      }
      RatioAboveOne(n, DeepTreeEvents * Pow2(npower) as real);
    } else {
      assert Pow2(1) == 2;
    }
    if decayChain {
      depth := depth + 1;
    }
  }

  // ---------------------------------------------------------------------------
  // The events-file queues (lines 2339-2440)
  // ---------------------------------------------------------------------------

  /** One line of an events file: event number, particle id, energy in keV, position in cm. */
  datatype EventLine = EventLine(evtN: int, particleId: int, energyKeV: real, x: real, y: real, z: real)

  /** The number of leading entries equal to `v`. */
  function RunOf(q: seq<int>, v: int): (n: nat)
    ensures n <= |q|
    ensures forall k :: 0 <= k < n ==> q[k] == v
    ensures n < |q| ==> q[n] != v
  {
    if q == [] || q[0] != v then 0 else 1 + RunOf(q[1..], v)
  }

  /**
   * The same run, counted the way the loop is written: `front() == v` is
   * evaluated before `!empty()`, so once the run reaches the end of the
   * queue the loop reads the front of an empty queue (None).
   */
  function RunAsWritten(q: seq<int>, v: int): Option<nat>
  {
    if q == [] then None
    else if q[0] != v then Some(0)
    else match RunAsWritten(q[1..], v)
      case None => None
      case Some(n) => Some(n + 1)
  }

  /** The loop as written is well-defined exactly when the run stops before the end of the queue, and then agrees. */
  lemma {:induction false} RunAsWrittenAgrees(q: seq<int>, v: int)
    ensures RunAsWritten(q, v).None? <==> RunOf(q, v) == |q|
    ensures RunAsWritten(q, v).Some? ==> RunAsWritten(q, v).value == RunOf(q, v)
  {
    if q != [] && q[0] == v {
      RunAsWrittenAgrees(q[1..], v);
    }
  }

  /** The last event of a file: its run is the whole queue, and the loop as written reads past it. */
  lemma LastEventReadsEmptyFront()
    ensures RunAsWritten([7], 7).None? && RunOf([7], 7) == 1
  {
    assert [7][1..] == [];
  }

  // ---------------------------------------------------------------------------
  // Recording an event (lines 2544-2567)
  // ---------------------------------------------------------------------------

  /** A component is passed to the writer when some level is nonzero and it holds steps. */
  predicate Recordable(s: Component.State)
  {
    (s.recordLevel != 0 || s.recordLevelOptPhot != 0 || s.recordLevelThermElec != 0) && |s.eventRecord| > 0
  }

  /** With the upper energy cut `hack` set, an event is recorded only when 0.1 keV < total < hack. */
  predicate EnergyWindowOpen(hack: real, total: real)
  {
    hack == 0.0 || (0.1 * SourceUnits.KeV < total && total < hack)
  }

  /** The states of the components, in registry order. */
  function Snapshots(cs: seq<DetectorComponent>): (r: seq<Component.State>)
    reads cs
    ensures |r| == |cs| && forall k :: 0 <= k < |cs| ==> r[k] == cs[k].Snapshot()
  {
    if cs == [] then [] else Snapshots(cs[..|cs| - 1]) + [cs[|cs| - 1].Snapshot()]
  }

  /** The record the writer adds for one component in this state: none, or one. */
  function RecordOf(s: Component.State, eventNum: int, primaries: seq<Primary>, always: bool,
                    fadd: (F64, F64) -> F64): seq<Record>
  {
    if Recordable(s) && Output.Emitted(s.eventRecord, s.recordLevel, always, fadd)
    then [Output.RecordFor(s.eventRecord, primaries, s.recordLevel, s.recordLevelOptPhot,
                           s.recordLevelThermElec, s.compId, eventNum, fadd)]
    else []
  }

  /** The records the writer adds for an event, one per recordable component it emits, in registry order. */
  function Recorded(ss: seq<Component.State>, eventNum: int, primaries: seq<Primary>, always: bool,
                    fadd: (F64, F64) -> F64): (r: seq<Record>)
    ensures |r| <= |ss|
    ensures forall k :: 0 <= k < |r| ==> r[k].eventNum == eventNum && r[k].primaries == primaries
  {
    if ss == [] then []
    else Recorded(ss[..|ss| - 1], eventNum, primaries, always, fadd)
         + RecordOf(ss[|ss| - 1], eventNum, primaries, always, fadd)
  }

  lemma RecordedAppend(ss: seq<Component.State>, s: Component.State, eventNum: int, primaries: seq<Primary>,
                       always: bool, fadd: (F64, F64) -> F64)
    ensures Recorded(ss + [s], eventNum, primaries, always, fadd)
            == Recorded(ss, eventNum, primaries, always, fadd) + RecordOf(s, eventNum, primaries, always, fadd)
  {
    assert (ss + [s])[..|ss|] == ss;
  }

  lemma AppendAssociates<T>(a: seq<T>, b: seq<T>, c: seq<T>)
    ensures (a + b) + c == a + (b + c)
  {
  }

  /** One more component handed to the writer extends the records by that component's. */
  lemma RecordStep(start: seq<Record>, before: seq<Record>, after: seq<Record>, states: seq<Component.State>,
                   i: nat, eventNum: int, primaries: seq<Primary>, always: bool, fadd: (F64, F64) -> F64)
    requires i < |states|
    requires before == start + Recorded(states[..i], eventNum, primaries, always, fadd)
    requires after == before + RecordOf(states[i], eventNum, primaries, always, fadd)
    ensures after == start + Recorded(states[..i + 1], eventNum, primaries, always, fadd)
  {
    assert states[..i + 1] == states[..i] + [states[i]];
    RecordedAppend(states[..i], states[i], eventNum, primaries, always, fadd);
    AppendAssociates(start, Recorded(states[..i], eventNum, primaries, always, fadd),
                     RecordOf(states[i], eventNum, primaries, always, fadd));
  }

  /** A component with every level zero, or with no steps, is never written. */
  lemma {:induction false} SilentComponentsNotRecorded(ss: seq<Component.State>, eventNum: int,
                                                       primaries: seq<Primary>, always: bool,
                                                       fadd: (F64, F64) -> F64)
    requires forall k :: 0 <= k < |ss| ==> !Recordable(ss[k])
    ensures Recorded(ss, eventNum, primaries, always, fadd) == []
  {
    if ss != [] {
      SilentComponentsNotRecorded(ss[..|ss| - 1], eventNum, primaries, always, fadd);
    }
  }

  // ---------------------------------------------------------------------------
  // Sizing the event tree's time window (lines 2270-2289)
  // ---------------------------------------------------------------------------

  /**
   * The end of the tree's time window in seconds: 1e10 when no volume has
   * activity, else twice (more than 100 events) or four times the time the
   * total activity needs to produce the requested events.
   */
  function WindowEnd(numEvents: int, numVols: int, activity: real): (w: real)
    ensures numVols < 1 || activity == 0.0 ==> w == DefaultWindowEnd
    ensures numVols >= 1 && activity > 0.0 && numEvents > 0 ==> w > 0.0
  {
    if numVols < 1 || activity == 0.0 then DefaultWindowEnd
    else if numEvents > 100 then 2.0 * numEvents as real / activity
    else 4.0 * numEvents as real / activity
  }

  // ---------------------------------------------------------------------------
  // Volumes with activity (lines 476-490)
  // ---------------------------------------------------------------------------

  /** An entry of `sourceByVolume`: a component with activity and its total activity. */
  datatype VolumeSource = VolumeSource(component: DetectorComponent, activity: real)

  /** The total activities of the components, in registry order. */
  function Totals(cs: seq<DetectorComponent>): (r: seq<real>)
    reads cs
    ensures |r| == |cs| && forall k :: 0 <= k < |cs| ==> r[k] == cs[k].totalActivity
  {
    if cs == [] then [] else Totals(cs[..|cs| - 1]) + [cs[|cs| - 1].totalActivity]
  }

  /** `Totals` depends on nothing but the components' total activities. */
  lemma TotalsOf(cs: seq<DetectorComponent>, totals: seq<real>)
    requires |totals| == |cs| && forall k :: 0 <= k < |cs| ==> totals[k] == cs[k].totalActivity
    ensures Totals(cs) == totals
  {
  }

  /** The first `n` components whose total activity is nonzero, with that activity, in registry order. */
  function ActivePrefix(cs: seq<DetectorComponent>, totals: seq<real>, n: nat): (r: seq<VolumeSource>)
    requires |totals| == |cs| && n <= |cs|
    ensures |r| <= n
  {
    if n == 0 then []
    else ActivePrefix(cs, totals, n - 1)
         + if totals[n - 1] != 0.0 then [VolumeSource(cs[n - 1], totals[n - 1])] else []
  }

  /** The components whose total activity is nonzero, with that activity, in registry order. */
  function Active(cs: seq<DetectorComponent>, totals: seq<real>): seq<VolumeSource>
    requires |totals| == |cs|
  {
    ActivePrefix(cs, totals, |cs|)
  }

  /** Exactly the components with nonzero activity are listed, each with its own activity. */
  lemma {:induction false} ActiveExactly(cs: seq<DetectorComponent>, totals: seq<real>, n: nat)
    requires |totals| == |cs| && n <= |cs|
    ensures forall v :: v in ActivePrefix(cs, totals, n) <==>
              v.activity != 0.0 && exists k :: 0 <= k < n && v == VolumeSource(cs[k], totals[k])
  {
    if n > 0 {
      ActiveExactly(cs, totals, n - 1);
      forall v
        ensures v in ActivePrefix(cs, totals, n) <==>
                v.activity != 0.0 && exists k :: 0 <= k < n && v == VolumeSource(cs[k], totals[k])
      {
        if v.activity != 0.0 && exists k :: 0 <= k < n && v == VolumeSource(cs[k], totals[k]) {
          var k :| 0 <= k < n && v == VolumeSource(cs[k], totals[k]);
          if k < n - 1 {
            assert v in ActivePrefix(cs, totals, n - 1);
          }
        }
      }
    }
  }

  /** The sum of the first `n` numbers. */
  function SumPrefix(xs: seq<real>, n: nat): real
    requires n <= |xs|
  {
    if n == 0 then 0.0 else SumPrefix(xs, n - 1) + xs[n - 1]
  }

  function Sum(xs: seq<real>): real
  {
    SumPrefix(xs, |xs|)
  }

  /** The total activity of the entries of `sourceByVolume`. */
  function VolumeSum(vs: seq<VolumeSource>): real
  {
    if vs == [] then 0.0 else VolumeSum(vs[..|vs| - 1]) + vs[|vs| - 1].activity
  }

  /** Leaving out the volumes without activity does not change the total. */
  lemma {:induction false} ActiveSum(cs: seq<DetectorComponent>, totals: seq<real>, n: nat)
    requires |totals| == |cs| && n <= |cs|
    ensures VolumeSum(ActivePrefix(cs, totals, n)) == SumPrefix(totals, n)
  {
    if n > 0 {
      var r := ActivePrefix(cs, totals, n - 1);
      ActiveSum(cs, totals, n - 1);
      if totals[n - 1] != 0.0 {
        var v := VolumeSource(cs[n - 1], totals[n - 1]);
        assert (r + [v])[..|r|] == r;
      } else {
        assert r + [] == r;
      }
    }
  }

  /** The components of some `sourceByVolume` entries. */
  function ComponentsOf(vs: seq<VolumeSource>): set<DetectorComponent>
  {
    set v | v in vs :: v.component
  }

  // ---------------------------------------------------------------------------
  // The radioisotope map (header lines 469-472)
  // ---------------------------------------------------------------------------

  /** `after` is `before` with every listed isotope mapped to false and nothing else changed. */
  ghost predicate IsotopesCleared(before: map<int, bool>, listed: seq<int>, after: map<int, bool>)
  {
    (forall k :: k in after <==> k in before || k in listed)
    && (forall k :: k in listed ==> k in after && !after[k])
    && (forall k :: k in before && k !in listed ==> after[k] == before[k])
  }

  // ---------------------------------------------------------------------------
  // The manager
  // ---------------------------------------------------------------------------

  class LuxManager {
    var components: seq<DetectorComponent>
    var outputDir: Bytes
    var outputName: Bytes
    var runEndedCleanly: bool
    var alwaysRecordPrimary: bool
    /** The open output file, `LUXSimOut`; null once it has been closed. */
    var output: Output.OutputFile?

    // Sources and the event tree.
    var sourceVolumes: seq<VolumeSource>
    var totalSimulationActivity: real
    var hasSources: bool
    var hasDecayChainSources: bool
    var g4Decay: bool
    var numEvents: int
    var recordTree: EventTree

    // The events-file queues, filled in lockstep by `LoadEventsFile`, and
    // the entries of the event being generated.
    var qEvtN: seq<int>
    var qParticleId: seq<int>
    var qEnergyDep: seq<real>
    var qX: seq<real>
    var qY: seq<real>
    var qZ: seq<real>
    var currentEvtN: int
    var currentParticleId: seq<int>
    var currentEnergyDep: seq<real>
    var currentX: seq<real>
    var currentY: seq<real>
    var currentZ: seq<real>

    // Per-event bookkeeping.
    var useRealPmtNumbering: bool
    var primaryParticles: seq<Primary>
    var radioIsotopeList: seq<int>
    var radioIsotopeMap: map<int, bool>
    var eventCount: int
    var liquidXenonTotalEnergy: real
    /** The upper energy cut of `RecordValues`; 0 switches it off. */
    var use100keVHack: real

    /** No component is registered twice: each registers itself once, when it is built. */
    predicate Distinct()
      reads this
    {
      forall i, j :: 0 <= i < j < |components| ==> components[i] != components[j]
    }

    method SetOutputDir(dir: Bytes) returns (r: Result<(), Fault>)
      modifies this`outputDir
      ensures r.Ok? <==> WithTrailingSlash(dir).Ok?
      ensures r.Ok? ==> outputDir == WithTrailingSlash(dir).value
      ensures r.Err? ==> r.error == SourceUnits.OutOfRange && outputDir == old(outputDir)
    {
      var stored := WithTrailingSlash(dir);
      if stored.Err? {
        return Err(stored.error);
      }
      outputDir := stored.value;
      return Ok(());
    }

    // -------------------------------------------------------------------------
    // The registry
    // -------------------------------------------------------------------------

    method Register(c: DetectorComponent)
      modifies this`components
      ensures components == old(components) + [c]
      ensures old(Distinct()) && c !in old(components) ==> Distinct()
    {
      components := components + [c];
    }

    /** Building a component: its constructor's `Initialize` resets it and registers it. */
    method AddComponent(name: Bytes, placement: int, density: Component.PositiveReal) returns (c: DetectorComponent)
      requires Distinct()
      modifies this`components
      ensures fresh(c) && components == old(components) + [c] && Distinct()
      ensures c.name == name && c.placement == placement && c.density == density
      ensures forall k :: c.Level(k) == 0
      ensures c.eventRecord == [] && c.sources == [] && !c.capturePhotons
      ensures c.volume == -1.0 && c.mass == -1.0
    {
      c := new Component.DetectorComponent(name, placement, density);
      Register(c);
    }

    /** Removes the first registration of `c`, if any. */
    method Deregister(c: DetectorComponent)
      modifies this`components
      ensures components == RemoveFirst(old(components), c)
      ensures old(Distinct()) ==> Distinct() && c !in components
    {
      var i := 0;
      while i < |components|
        invariant 0 <= i <= |components| && components == old(components)
        invariant c !in components[..i]
      {
        if components[i] == c {
          IndexOfAt(components, c, i);
          components := components[..i] + components[i + 1..];
          DistinctRemoval(old(components), i);
          return;
        }
        assert components[..i + 1] == components[..i] + [components[i]];
        i := i + 1;
      }
      assert components[..i] == components;
    }

    /** A component being destroyed deregisters itself. */
    method DestroyComponent(c: DetectorComponent)
      modifies this`components
      ensures components == RemoveFirst(old(components), c)
    {
      Deregister(c);
    }

    method GetDetectorComponentLookupTable() returns (table: Bytes)
      ensures table == LookupTable(Entries(components))
    {
      table := [];
      var i := 0;
      while i < |components|
        invariant 0 <= i <= |components|
        invariant table == LookupTable(Entries(components[..i]))
      {
        var c := components[i];
        assert components[..i + 1] == components[..i] + [c];
        assert Entries(components[..i + 1]) == Entries(components[..i]) + [(c.compId, c.name)];
        LookupTableAppend(Entries(components[..i]), (c.compId, c.name));
        table := table + TerminatedLine((c.compId, c.name));
        i := i + 1;
      }
      assert components[..i] == components;
    }

    // -------------------------------------------------------------------------
    // Record levels
    // -------------------------------------------------------------------------

    /**
     * `SetRecordLevel`, `SetRecordLevelOptPhot` and `SetRecordLevelThermElec`:
     * every addressed component takes the level of the given kind and nothing
     * else about any component changes.
     */
    method SetLevels(kind: Component.LevelKind, info: Bytes) returns (r: Result<(), Fault>)
      modifies components
      ensures r.Ok? <==> ParseLevelCommand(info).Ok?
      ensures r.Err? ==> r.error == SourceUnits.OutOfRange
                         && forall j :: 0 <= j < |components| ==> components[j].Snapshot() == old(components[j].Snapshot())
      ensures r.Ok? ==> var (pattern, level) := ParseLevelCommand(info).value;
                        forall j :: 0 <= j < |components| ==>
                          components[j].Snapshot() == LevelSet(old(components[j].Snapshot()), components[j].name, kind, pattern, level)
    {
      var parsed := ParseLevelCommand(info);
      if parsed.Err? {
        return Err(parsed.error);
      }
      ApplyLevel(kind, parsed.value.0, parsed.value.1);
      return Ok(());
    }

    /** The loop of `SetLevels`: each addressed component takes the level, in registry order. */
    method ApplyLevel(kind: Component.LevelKind, pattern: Bytes, level: int)
      modifies components
      ensures forall j :: 0 <= j < |components| ==>
                components[j].Snapshot() == LevelSet(old(components[j].Snapshot()), components[j].name, kind, pattern, level)
    {
      var i := 0;
      while i < |components|
        invariant 0 <= i <= |components|
        invariant forall j :: 0 <= j < i ==>
                    components[j].Snapshot() == LevelSet(old(components[j].Snapshot()), components[j].name, kind, pattern, level)
        invariant forall j :: i <= j < |components| && components[j] !in components[..i] ==>
                    components[j].Snapshot() == old(components[j].Snapshot())
      {
        var c := components[i];
        ghost var before := c.Snapshot();
        SetAddressed(c, kind, pattern, level);
        assert c.Snapshot() == LevelSet(before, c.name, kind, pattern, level);
        LevelSetTwice(old(c.Snapshot()), c.name, kind, pattern, level);
        assert components[..i + 1] == components[..i] + [c];
        i := i + 1;
      }
    }

    /** One step of `SetLevels`. */
    method SetAddressed(c: DetectorComponent, kind: Component.LevelKind, pattern: Bytes, level: int)
      modifies c
      ensures c.Snapshot() == LevelSet(old(c.Snapshot()), c.name, kind, pattern, level)
    {
      if Addressed(pattern, c.name) {
        c.SetLevel(kind, level);
      }
    }

    /** `GetRecordLevels*`: the levels of the components whose name contains `volName` ("***" is not special here). */
    method GetLevels(kind: Component.LevelKind, volName: Bytes) returns (levels: seq<int>)
      ensures levels == LevelsOf(Matching(components, volName), kind)
    {
      levels := [];
      var i := 0;
      while i < |components|
        invariant 0 <= i <= |components|
        invariant levels == LevelsOf(Matching(components[..i], volName), kind)
      {
        var c := components[i];
        LevelsStep(components, i, volName, kind);
        if Contains(c.name, volName) {
          levels := levels + [c.Level(kind)];
        }
        i := i + 1;
      }
      assert components[..i] == components;
    }

    /** `GetComponentRecordLevel*`: the component's level when it is registered, else 0. */
    method GetComponentLevel(kind: Component.LevelKind, c: DetectorComponent) returns (level: int)
      ensures level == if c in components then c.Level(kind) else 0
    {
      var i := 0;
      while i < |components|
        invariant 0 <= i <= |components|
        invariant c !in components[..i]
      {
        if components[i] == c {
          return c.Level(kind);
        }
        assert components[..i + 1] == components[..i] + [components[i]];
        i := i + 1;
      }
      assert components[..i] == components;
      return 0;
    }

    method GetComponentByName(volName: Bytes) returns (r: Option<DetectorComponent>)
      ensures r == FirstNamed(components, volName)
    {
      var i := 0;
      while i < |components|
        invariant 0 <= i <= |components|
        invariant FirstNamed(components, volName) == FirstNamed(components[i..], volName)
      {
        if components[i].name == volName {
          return Some(components[i]);
        }
        assert components[i..][1..] == components[i + 1..];
        i := i + 1;
      }
      return None;
    }

    // -------------------------------------------------------------------------
    // Mass and volume commands
    // -------------------------------------------------------------------------

    /**
     * `SetComponentMass("name amount unit")`: every component whose name
     * contains the name takes the mass; `atof` is a parameter.
     */
    method SetComponentMass(parameters: Bytes, atof: Bytes -> real)
      modifies components
      ensures var (pattern, amount, unit) := ThreeWords(parameters);
              forall j :: 0 <= j < |components| ==>
                components[j].Snapshot()
                == MassCommandSet(old(components[j].Snapshot()), components[j].name, components[j].density as real,
                                  pattern, CommandMass(atof(amount), unit))
    {
      var (pattern, amount, unit) := ThreeWords(parameters);
      ApplyMass(pattern, CommandMass(atof(amount), unit));
    }

    /** The loop of `SetComponentMass`. */
    method ApplyMass(pattern: Bytes, m: real)
      modifies components
      ensures forall j :: 0 <= j < |components| ==>
                components[j].Snapshot()
                == MassCommandSet(old(components[j].Snapshot()), components[j].name, components[j].density as real, pattern, m)
    {
      var i := 0;
      while i < |components|
        invariant 0 <= i <= |components|
        invariant forall j :: 0 <= j < i ==>
                    components[j].Snapshot()
                    == MassCommandSet(old(components[j].Snapshot()), components[j].name, components[j].density as real,
                                      pattern, m)
        invariant forall j :: i <= j < |components| && components[j] !in components[..i] ==>
                    components[j].Snapshot() == old(components[j].Snapshot())
      {
        var c := components[i];
        if Contains(c.name, pattern) {
          c.SetMass(m);
        }
        assert components[..i + 1] == components[..i] + [c];
        i := i + 1;
      }
    }

    /**
     * `SetComponentVolume("name amount unit")`: every component whose name
     * contains the name takes the volume; `sampled(c)` is the Monte Carlo
     * volume estimate of `c`, used when its mass has to be computed.
     */
    method SetComponentVolume(parameters: Bytes, atof: Bytes -> real, sampled: DetectorComponent -> real)
      requires Distinct()
      modifies components
      ensures var (pattern, amount, unit) := ThreeWords(parameters);
              forall j :: 0 <= j < |components| ==>
                components[j].Snapshot()
                == VolumeCommandSet(old(components[j].Snapshot()), components[j].name, components[j].density as real,
                                    pattern, CommandVolume(atof(amount), unit), sampled(components[j]))
    {
      var (pattern, amount, unit) := ThreeWords(parameters);
      ApplyVolume(pattern, CommandVolume(atof(amount), unit), sampled);
    }

    /** The loop of `SetComponentVolume`. */
    method ApplyVolume(pattern: Bytes, v: real, sampled: DetectorComponent -> real)
      requires Distinct()
      modifies components
      ensures forall j :: 0 <= j < |components| ==>
                components[j].Snapshot()
                == VolumeCommandSet(old(components[j].Snapshot()), components[j].name, components[j].density as real,
                                    pattern, v, sampled(components[j]))
    {
      var i := 0;
      while i < |components|
        invariant 0 <= i <= |components|
        invariant forall j :: 0 <= j < i ==>
                    components[j].Snapshot()
                    == VolumeCommandSet(old(components[j].Snapshot()), components[j].name, components[j].density as real,
                                        pattern, v, sampled(components[j]))
        invariant forall j :: i <= j < |components| ==> components[j].Snapshot() == old(components[j].Snapshot())
      {
        var c := components[i];
        if Contains(c.name, pattern) {
          c.SetVolume(v, sampled(c));
        }
        i := i + 1;
      }
    }

    // -------------------------------------------------------------------------
    // Sources
    // -------------------------------------------------------------------------

    /**
     * The end of `SetSource`: every component whose name contains the volume
     * name gets the parsed source; a command that fails to parse, or that no
     * component matches, ends the program.  `sampled(c)` is the Monte Carlo
     * volume estimate used when an activity per mass needs the mass of `c`.
     */
    method SetSource(command: SourceUnits.Command, catalog: seq<Component.SourceType>,
                     sampled: DetectorComponent -> real)
      returns (r: Result<SourceUnits.Parsed, Fault>)
      requires Distinct()
      modifies components, this`hasSources, this`hasDecayChainSources, this`g4Decay
      ensures var parsed := SourceUnits.ParseSource(command, catalog);
              && (parsed.Err? ==> r == parsed)
              && (parsed.Ok? ==> (r.Ok? <==> exists k :: 0 <= k < |components| && Contains(components[k].name, parsed.value.volName)))
              && (parsed.Ok? && r.Err? ==> r.error == SourceUnits.Exit)
              && (r.Ok? ==> r == parsed)
      ensures r.Ok? ==> hasSources && (r.value.decayChain ==> hasDecayChainSources) && (r.value.g4Decay ==> g4Decay)
      ensures r.Ok? ==> forall j :: 0 <= j < |components| ==>
                components[j].Snapshot()
                == SourceSet(old(components[j].Snapshot()), components[j].name, components[j].density as real,
                             r.value, sampled(components[j]))
    {
      var parsed := SourceUnits.ParseSource(command, catalog);
      if parsed.Err? {
        return Err(parsed.error);
      }
      var p := parsed.value;
      var found := ApplySource(p, sampled);
      if !found {
        return Err(SourceUnits.Exit);
      }
      NoteSource(p);
      return Ok(p);
    }

    /** A matched source command marks the run as having sources, of the kinds it names. */
    method NoteSource(p: SourceUnits.Parsed)
      modifies this`hasSources, this`hasDecayChainSources, this`g4Decay
      ensures hasSources
      ensures hasDecayChainSources == (old(hasDecayChainSources) || p.decayChain)
      ensures g4Decay == (old(g4Decay) || p.g4Decay)
    {
      hasSources := true;
      if p.decayChain {
        hasDecayChainSources := true;
      }
      if p.g4Decay {
        g4Decay := true;
      }
    }

    /** The loop of `SetSource`: whether some component matched. */
    method ApplySource(p: SourceUnits.Parsed, sampled: DetectorComponent -> real) returns (found: bool)
      requires Distinct()
      modifies components
      ensures found <==> exists k :: 0 <= k < |components| && Contains(components[k].name, p.volName)
      ensures forall j :: 0 <= j < |components| ==>
                components[j].Snapshot()
                == SourceSet(old(components[j].Snapshot()), components[j].name, components[j].density as real,
                             p, sampled(components[j]))
    {
      var cs := components;
      ghost var olds := Snapshots(cs);
      found := false;
      AnyNamedExists(cs, p.volName);
      var i := 0;
      while i < |cs|
        invariant 0 <= i <= |cs|
        invariant found <==> AnyNamed(cs[..i], p.volName)
        invariant forall j :: 0 <= j < |cs| ==>
                    cs[j].Snapshot()
                    == if j < i then SourceSet(olds[j], cs[j].name, cs[j].density as real, p, sampled(cs[j])) else olds[j]
      {
        var c := cs[i];
        AddParsedSource(c, p, sampled(c));
        AnyNamedStep(cs, i, p.volName);
        found := found || Contains(c.name, p.volName);
        i := i + 1;
      }
      assert cs[..i] == cs;
    }

    /** One step of `SetSource`: `GetMass` when the activity is per mass, then `AddSource`. */
    method AddParsedSource(c: DetectorComponent, p: SourceUnits.Parsed, sampled: real)
      modifies c
      ensures c.Snapshot() == SourceSet(old(c.Snapshot()), c.name, c.density as real, p, sampled)
    {
      if Contains(c.name, p.volName) {
        var activity := p.activity;
        if p.perMass {
          var m := c.GetMass(sampled);
          activity := SourceUnits.InUnit(p.activity, m);
        }
        c.AddSource(p.kind, activity, p.massNumber, p.atomicNumber, p.parentIsotope, p.sourceAge,
                    p.particleName, p.particleEnergy, p.pointSource, p.position);
      }
    }

    /**
     * Before a run: every component's ratios are computed, then the volumes
     * with activity are collected with their total.
     */
    method CollectSources()
      requires Distinct()
      modifies components, this`sourceVolumes, this`totalSimulationActivity
      ensures forall j :: 0 <= j < |components| ==>
                components[j].sources == Component.WithRatios(old(components[j].sources))
                && components[j].totalActivity == Component.TotalWeight(old(components[j].sources))
      ensures sourceVolumes == Active(components, Totals(components))
      ensures totalSimulationActivity == Sum(Totals(components)) == VolumeSum(sourceVolumes)
    {
      CalculateAllRatios();
      var vols, total := VolumesWithActivity();
      ghost var totals := Totals(components);
      sourceVolumes, totalSimulationActivity := vols, total;
      TotalsOf(components, totals);
    }

    /** `CalculateRatios` on every component. */
    method CalculateAllRatios()
      requires Distinct()
      modifies components
      ensures forall j :: 0 <= j < |components| ==>
                components[j].sources == Component.WithRatios(old(components[j].sources))
                && components[j].totalActivity == Component.TotalWeight(old(components[j].sources))
    {
      var i := 0;
      while i < |components|
        invariant 0 <= i <= |components|
        invariant forall j :: 0 <= j < i ==>
                    components[j].sources == Component.WithRatios(old(components[j].sources))
                    && components[j].totalActivity == Component.TotalWeight(old(components[j].sources))
        invariant forall j :: i <= j < |components| ==> components[j].sources == old(components[j].sources)
      {
        components[i].CalculateRatios();
        i := i + 1;
      }
    }

    /** The entries of `sourceByVolume` and the total activity of the simulation. */
    method VolumesWithActivity() returns (vols: seq<VolumeSource>, total: real)
      ensures vols == Active(components, Totals(components))
      ensures total == Sum(Totals(components)) == VolumeSum(vols)
    {
      var cs := components;
      ghost var totals := Totals(cs);
      vols, total := [], 0.0;
      var i := 0;
      while i < |cs|
        invariant 0 <= i <= |cs|
        invariant vols == ActivePrefix(cs, totals, i) && total == SumPrefix(totals, i)
      {
        var t := cs[i].totalActivity;
        if t != 0.0 {
          vols := vols + [VolumeSource(cs[i], t)];
        }
        total := total + t;
        i := i + 1;
      }
      ActiveSum(cs, totals, |cs|);
    }

    /** Every volume with sources loses them, and the manager forgets them. */
    method ResetSources()
      modifies ComponentsOf(sourceVolumes), this`sourceVolumes, this`totalSimulationActivity, this`hasSources
      ensures sourceVolumes == [] && totalSimulationActivity == 0.0 && !hasSources
      ensures forall c :: c in old(ComponentsOf(sourceVolumes)) ==>
                c.Snapshot() == old(c.Snapshot()).(sources := [], totalActivity := 0.0)
    {
      var i := 0;
      while i < |sourceVolumes|
        invariant 0 <= i <= |sourceVolumes| && sourceVolumes == old(sourceVolumes)
        invariant forall c :: c in ComponentsOf(sourceVolumes[..i]) ==>
                    c.Snapshot() == old(c.Snapshot()).(sources := [], totalActivity := 0.0)
        invariant forall c :: c in ComponentsOf(sourceVolumes) && c !in ComponentsOf(sourceVolumes[..i]) ==>
                    c.Snapshot() == old(c.Snapshot())
      {
        var c := sourceVolumes[i].component;
        c.ResetSources();
        assert sourceVolumes[..i + 1] == sourceVolumes[..i] + [sourceVolumes[i]];
        assert ComponentsOf(sourceVolumes[..i + 1]) == ComponentsOf(sourceVolumes[..i]) + {c};
        i := i + 1;
      }
      assert sourceVolumes[..i] == sourceVolumes;
      sourceVolumes, totalSimulationActivity, hasSources := [], 0.0, false;
    }

    // -------------------------------------------------------------------------
    // The event tree
    // -------------------------------------------------------------------------

    /** The tree for this run: the depth for the number of events, the window, and no entries yet. */
    method BuildEventList()
      modifies this`recordTree
      ensures var k := recordTree.depth - BaseDepth - (if hasDecayChainSources then 1 else 0);
              k >= 0 && DepthFits(numEvents, k)
      ensures recordTree.windowStart == 0.0
      ensures recordTree.windowEnd == WindowEnd(numEvents, |sourceVolumes|, totalSimulationActivity)
      ensures recordTree.capacity == numEvents && recordTree.entries == []
    {
      var depth := TreeDepth(numEvents, hasDecayChainSources);
      recordTree := EventTree(depth, 0.0, WindowEnd(numEvents, |sourceVolumes|, totalSimulationActivity), numEvents, []);
    }

    /** Drops the latest entries until at most `numEvents` remain. */
    method TrimEventList()
      requires numEvents >= 0
      modifies this`recordTree
      ensures recordTree == old(recordTree).(entries := recordTree.entries)
      ensures |recordTree.entries| == Min(numEvents, |old(recordTree.entries)|)
      ensures recordTree.entries == old(recordTree.entries)[..|recordTree.entries|]
    {
      while |recordTree.entries| > numEvents
        invariant recordTree == old(recordTree).(entries := recordTree.entries)
        invariant numEvents <= |recordTree.entries| <= |old(recordTree.entries)|
                  || recordTree.entries == old(recordTree.entries)
        invariant recordTree.entries == old(recordTree.entries)[..|recordTree.entries|]
        decreases |recordTree.entries|
      {
        var es := recordTree.entries;
        recordTree := recordTree.(entries := es[..|es| - 1]);
      }
    }

    /** An event is added to the tree only when its time (ns) is inside the window (s). */
    method RecordTreeInsert(decay: Decay, t: real, position: Component.Point3, volumeIndex: int, sourceIndex: int)
      modifies this`recordTree
      ensures var e := TreeEntry(decay, t, position, volumeIndex, sourceIndex);
              recordTree == if t < old(recordTree.windowEnd) * NsPerSecond
                            then old(recordTree).(entries := InsertByTime(old(recordTree.entries), e))
                            else old(recordTree)
      ensures TimeOrdered(old(recordTree.entries)) ==> TimeOrdered(recordTree.entries)
    {
      if t < recordTree.windowEnd * NsPerSecond {
        var e := TreeEntry(decay, t, position, volumeIndex, sourceIndex);
        if TimeOrdered(recordTree.entries) {
          InsertKeepsOrder(recordTree.entries, e);
        }
        recordTree := recordTree.(entries := InsertByTime(recordTree.entries, e));
      }
    }

    // -------------------------------------------------------------------------
    // The events-file queues
    // -------------------------------------------------------------------------

    /** The six input queues hold one entry per events-file line. */
    predicate Aligned()
      reads this
    {
      |qParticleId| == |qEvtN| && |qEnergyDep| == |qEvtN| && |qX| == |qEvtN| && |qY| == |qEvtN| && |qZ| == |qEvtN|
    }

    /**
     * Moves the leading entries that share the front event number from the
     * six input queues to the current queues and returns how many current
     * entries there are.  The run test is made with the queue known to be
     * nonempty (see `RunAsWritten` for the loop as written).
     */
    method NextEventToGenerate() returns (n: int)
      requires Aligned() && |qEvtN| > 0
      modifies this`qEvtN, this`qParticleId, this`qEnergyDep, this`qX, this`qY, this`qZ, this`currentEvtN,
               this`currentParticleId, this`currentEnergyDep, this`currentX, this`currentY, this`currentZ
      ensures Aligned()
      ensures var k := RunOf(old(qEvtN), old(qEvtN[0]));
              currentEvtN == old(qEvtN[0])
              && qEvtN == old(qEvtN)[k..] && qParticleId == old(qParticleId)[k..]
              && qEnergyDep == old(qEnergyDep)[k..] && qX == old(qX)[k..] && qY == old(qY)[k..] && qZ == old(qZ)[k..]
              && currentParticleId == old(currentParticleId) + old(qParticleId)[..k]
              && currentEnergyDep == old(currentEnergyDep) + old(qEnergyDep)[..k]
              && currentX == old(currentX) + old(qX)[..k]
              && currentY == old(currentY) + old(qY)[..k]
              && currentZ == old(currentZ) + old(qZ)[..k]
      ensures n == |currentParticleId|
    {
      var v := qEvtN[0];
      var moved := RunLength(qEvtN, v);
      var rest := qEvtN[moved..];
      currentEvtN := v;
      currentParticleId := currentParticleId + qParticleId[..moved];
      currentEnergyDep := currentEnergyDep + qEnergyDep[..moved];
      currentX := currentX + qX[..moved];
      currentY := currentY + qY[..moved];
      currentZ := currentZ + qZ[..moved];
      qEvtN, qParticleId, qEnergyDep := rest, qParticleId[moved..], qEnergyDep[moved..];
      qX, qY, qZ := qX[moved..], qY[moved..], qZ[moved..];
      n := |currentParticleId|;
    }

    /** The length of the run of `v` at the front of `q`, counted by walking it. */
    static method RunLength(q: seq<int>, v: int) returns (moved: nat)
      ensures moved == RunOf(q, v)
    {
      var rest := q;
      moved := 0;
      while rest != [] && rest[0] == v
        invariant moved <= RunOf(q, v) && rest == q[moved..]
        decreases |rest|
      {
        rest := rest[1..];
        moved := moved + 1;
      }
    }

    /** The next particle id of the current event, taken off its queue. */
    method NextParticleIdToGenerate() returns (id: int)
      requires |currentParticleId| > 0
      modifies this`currentParticleId
      ensures [id] + currentParticleId == old(currentParticleId)
    {
      id := currentParticleId[0];
      currentParticleId := currentParticleId[1..];
    }

    /** The next energy deposit of the current event, taken off its queue. */
    method NextEnergyDepToGenerate() returns (e: real)
      requires |currentEnergyDep| > 0
      modifies this`currentEnergyDep
      ensures [e] + currentEnergyDep == old(currentEnergyDep)
    {
      e := currentEnergyDep[0];
      currentEnergyDep := currentEnergyDep[1..];
    }

    /** The next position of the current event, each coordinate taken off its own queue. */
    method NextPositionToGenerate() returns (pos: Component.Point3)
      requires |currentX| > 0 && |currentY| > 0 && |currentZ| > 0
      modifies this`currentX, this`currentY, this`currentZ
      ensures [pos.x] + currentX == old(currentX) && [pos.y] + currentY == old(currentY)
              && [pos.z] + currentZ == old(currentZ)
    {
      pos := Component.Point3(currentX[0], currentY[0], currentZ[0]);
      currentX, currentY, currentZ := currentX[1..], currentY[1..], currentZ[1..];
    }

    // -------------------------------------------------------------------------
    // Steps, photons and recording
    // -------------------------------------------------------------------------

    /** The step goes to the component when it is registered; otherwise it is dropped. */
    method AddDeposition(c: DetectorComponent, step: Step)
      modifies c
      ensures c.Snapshot() == if c in old(components) then old(c.Snapshot()).(eventRecord := old(c.eventRecord) + [step])
                              else old(c.Snapshot())
    {
      var i := 0;
      while i < |components|
        invariant 0 <= i <= |components|
        invariant c !in components[..i]
      {
        if components[i] == c {
          c.AddDeposition(step);
          return;
        }
        assert components[..i + 1] == components[..i] + [components[i]];
        i := i + 1;
      }
      assert components[..i] == components;
    }

    /** "real" selects the real PMT numbering, "linear" the simulation's own; other words change nothing. */
    method SetPmtNumberingScheme(sel: Bytes)
      modifies this`useRealPmtNumbering
      ensures useRealPmtNumbering == if sel == RealText then true else if sel == LinearText then false
                                     else old(useRealPmtNumbering)
    {
      if sel == RealText {
        useRealPmtNumbering := true;
      }
      if sel == LinearText {
        useRealPmtNumbering := false;
      }
    }

    /** Whether an optical photon in `c` is killed: only a registered component that captures photons says so. */
    method CapturePhotons(c: DetectorComponent) returns (response: bool)
      ensures response <==> c in components && c.capturePhotons
    {
      response := false;
      var i := 0;
      while i < |components|
        invariant 0 <= i <= |components|
        invariant c !in components[..i] && !response
      {
        if components[i] == c {
          return c.capturePhotons;
        }
        assert components[..i + 1] == components[..i] + [components[i]];
        i := i + 1;
      }
      assert components[..i] == components;
    }

    /**
     * At the end of an event: when the energy window is open, every
     * recordable component is handed to the writer, in registry order; the
     * liquid-xenon energy total is reset either way.
     */
    method RecordValues(eventNum: int, fadd: (F64, F64) -> F64)
      requires output != null && output.Valid()
      modifies output, this`liquidXenonTotalEnergy
      ensures output.Valid() && output.header == old(output.header) && output.history == old(output.history)
      ensures output.records
              == old(output.records)
                 + if EnergyWindowOpen(use100keVHack, old(liquidXenonTotalEnergy))
                   then Recorded(old(Snapshots(components)), eventNum, primaryParticles, alwaysRecordPrimary, fadd)
                   else []
      ensures liquidXenonTotalEnergy == 0.0
    {
      var open := EnergyWindowOpen(use100keVHack, liquidXenonTotalEnergy);
      liquidXenonTotalEnergy := 0.0;
      if open {
        RecordEach(output, components, Snapshots(components), eventNum, primaryParticles, alwaysRecordPrimary, fadd);
      }
    }

    /** The loop of `RecordValues`: every component, in registry order. */
    static method RecordEach(out: Output.OutputFile, cs: seq<DetectorComponent>, ghost states: seq<Component.State>,
                             eventNum: int, primaries: seq<Primary>, always: bool, fadd: (F64, F64) -> F64)
      requires |states| == |cs| && forall j :: 0 <= j < |cs| ==> cs[j].Snapshot() == states[j]
      requires out.Valid()
      modifies out
      ensures out.Valid() && out.header == old(out.header) && out.history == old(out.history)
      ensures out.records == old(out.records) + Recorded(states, eventNum, primaries, always, fadd)
    {
      var i := 0;
      while i < |cs|
        invariant 0 <= i <= |cs|
        invariant forall j :: 0 <= j < |cs| ==> cs[j].Snapshot() == states[j]
        invariant out.Valid() && out.header == old(out.header) && out.history == old(out.history)
        invariant out.records == old(out.records) + Recorded(states[..i], eventNum, primaries, always, fadd)
      {
        ghost var before := out.records;
        RecordComponent(out, cs[i], eventNum, primaries, always, fadd);
        RecordStep(old(out.records), before, out.records, states, i, eventNum, primaries, always, fadd);
        i := i + 1;
      }
      assert states[..i] == states;
    }

    /** One component of `RecordValues`: handed to the writer when it is recordable. */
    static method RecordComponent(out: Output.OutputFile, c: DetectorComponent, eventNum: int,
                                  primaries: seq<Primary>, always: bool, fadd: (F64, F64) -> F64)
      requires out.Valid()
      modifies out
      ensures out.Valid() && out.header == old(out.header) && out.history == old(out.history)
      ensures out.records == old(out.records) + RecordOf(c.Snapshot(), eventNum, primaries, always, fadd)
    {
      if (c.recordLevel != 0 || c.recordLevelOptPhot != 0 || c.recordLevelThermElec != 0) && |c.eventRecord| > 0 {
        out.RecordEventByVolume(c, eventNum, primaries, always, fadd);
      }
    }

    /**
     * After an event: every component's steps and the primaries are cleared;
     * after a clean end of run the output file is closed, which patches its
     * record count.
     */
    method ClearRecords()
      requires output != null ==> output.Valid()
      modifies components, this`primaryParticles, this`output, output
      ensures primaryParticles == []
      ensures forall j :: 0 <= j < |components| ==>
                components[j].Snapshot() == old(components[j].Snapshot()).(eventRecord := [])
      ensures !runEndedCleanly ==> output == old(output) && (output != null ==> output.stream == old(output.stream))
      ensures runEndedCleanly ==> output == null
      ensures runEndedCleanly && old(output) != null ==>
                var o := old(output);
                o.records == old(o.records) && o.stream == EncodeFile(|o.records|, o.header, o.history, o.records)
    {
      ClearComponentRecords();
      primaryParticles := [];
      if runEndedCleanly {
        if output != null {
          output.Close();
        }
        output := null;
      }
    }

    /** The loop of `ClearRecords` over the components. */
    method ClearComponentRecords()
      modifies components
      ensures forall j :: 0 <= j < |components| ==>
                components[j].Snapshot() == old(components[j].Snapshot()).(eventRecord := [])
    {
      var i := 0;
      while i < |components|
        invariant 0 <= i <= |components|
        invariant forall j :: 0 <= j < i ==>
                    components[j].Snapshot() == old(components[j].Snapshot()).(eventRecord := [])
        invariant forall j :: i <= j < |components| && components[j] !in components[..i] ==>
                    components[j].Snapshot() == old(components[j].Snapshot())
      {
        var c := components[i];
        c.ClearRecord();
        assert components[..i + 1] == components[..i] + [c];
        i := i + 1;
      }
    }

    // -------------------------------------------------------------------------
    // Restoring the levels after a geometry update
    // -------------------------------------------------------------------------

    /**
     * The level commands `UpdateGeometry` builds before the components are
     * rebuilt, one per component and kind; each reads back as the
     * component's name and level when the name has no space.
     */
    method LevelRestoreCommands(kind: Component.LevelKind) returns (commands: seq<Bytes>)
      ensures |commands| == |components|
      ensures forall i :: 0 <= i < |components| ==>
                commands[i] == LevelCommand(components[i].name, components[i].Level(kind))
      ensures forall i :: 0 <= i < |components| && Space !in components[i].name ==>
                ParseLevelCommand(commands[i]) == Ok((components[i].name, components[i].Level(kind)))
    {
      commands := [];
      var i := 0;
      while i < |components|
        invariant 0 <= i <= |components| && |commands| == i
        invariant forall j :: 0 <= j < i ==>
                    commands[j] == LevelCommand(components[j].name, components[j].Level(kind))
      {
        var c := components[i];
        commands := commands + [LevelCommand(c.name, c.Level(kind))];
        i := i + 1;
      }
      forall j | 0 <= j < |components| && Space !in components[j].name
        ensures ParseLevelCommand(commands[j]) == Ok((components[j].name, components[j].Level(kind)))
      {
        LevelCommandRoundTrip(components[j].name, components[j].Level(kind));
      }
    }

    // -------------------------------------------------------------------------
    // Inline members of the class declaration
    // -------------------------------------------------------------------------

    method AddPrimaryParticle(p: Primary)
      modifies this`primaryParticles
      ensures primaryParticles == old(primaryParticles) + [p]
    {
      primaryParticles := primaryParticles + [p];
    }

    /** Stores the list and marks each listed isotope as not yet seen. */
    method SetRadioIsotopeList(listed: seq<int>)
      modifies this`radioIsotopeList, this`radioIsotopeMap
      ensures radioIsotopeList == listed
      ensures IsotopesCleared(old(radioIsotopeMap), listed, radioIsotopeMap)
    {
      radioIsotopeList := listed;
      SetRadioIsotopeMap(listed);
    }

    method SetRadioIsotopeMap(listed: seq<int>)
      modifies this`radioIsotopeMap
      ensures IsotopesCleared(old(radioIsotopeMap), listed, radioIsotopeMap)
    {
      var i := 0;
      while i < |listed|
        invariant 0 <= i <= |listed|
        invariant IsotopesCleared(old(radioIsotopeMap), listed[..i], radioIsotopeMap)
      {
        assert listed[..i + 1] == listed[..i] + [listed[i]];
        radioIsotopeMap := radioIsotopeMap[listed[i] := false];
        i := i + 1;
      }
      assert listed[..i] == listed;
    }

    method InitialiseEventCount()
      modifies this`eventCount
      ensures eventCount == 0
    {
      eventCount := 0;
    }

    method IterateEventCount()
      modifies this`eventCount
      ensures eventCount == old(eventCount) + 1
    {
      eventCount := eventCount + 1;
    }

    method GetEventCount() returns (n: int)
      ensures n == eventCount
    {
      n := eventCount;
    }

    method AddLiquidXenonEnergy(en: real)
      modifies this`liquidXenonTotalEnergy
      ensures liquidXenonTotalEnergy == old(liquidXenonTotalEnergy) + en
    {
      liquidXenonTotalEnergy := liquidXenonTotalEnergy + en;
    }

    method SetRunEndedCleanly(val: bool)
      modifies this`runEndedCleanly
      ensures runEndedCleanly == val
    {
      runEndedCleanly := val;
    }

    method GetRunEndedCleanly() returns (val: bool)
      ensures val == runEndedCleanly
    {
      val := runEndedCleanly;
    }

    method SetOutputName(name: Bytes)
      modifies this`outputName
      ensures outputName == name
    {
      outputName := name;
    }

    method GetOutputName() returns (name: Bytes)
      ensures name == outputName
    {
      name := outputName;
    }

    method SetAlwaysRecordPrimary(val: bool)
      modifies this`alwaysRecordPrimary
      ensures alwaysRecordPrimary == val
    {
      alwaysRecordPrimary := val;
    }
  }

  /** Removing one element of a sequence without repeats leaves none and removes that element. */
  lemma DistinctRemoval(s: seq<DetectorComponent>, i: nat)
    requires i < |s|
    ensures var r := s[..i] + s[i + 1..];
            (forall a, b :: 0 <= a < b < |s| ==> s[a] != s[b]) ==>
              (forall a, b :: 0 <= a < b < |r| ==> r[a] != r[b]) && s[i] !in r
  {
    var r := s[..i] + s[i + 1..];
    assert forall a :: 0 <= a < |r| ==> r[a] == if a < i then s[a] else s[a + 1];
  }
}
