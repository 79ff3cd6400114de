/**
 * Distances between consecutive moves (`calculateDistancesMaxVariation`) and
 * their classification into pause tiers (`processWithAccumulator`).
 */
module Classification {
  import opened Wrappers
  import opened Text
  import opened Numbers
  import opened Geometry
  import opened Materials

  // ---------------------------------------------------------------- distances

  datatype Distance = Distance(value: real, from: G01Command, to: G01Command)

  function Abs(r: real): real {
    if r < 0.0 then -r else r
  }

  function Max(a: real, b: real): real {
    if a < b then b else a
  }

  /** `Math.max(|Δx|, |Δy|)`: the Chebyshev distance in the XY plane. */
  function MaxVariation(from: G01Command, to: G01Command): real {
    Max(Abs(to.x - from.x), Abs(to.y - from.y))
  }

  /** The distance the loop pushes for command `i`, measured from command `i - 1`. */
  function DistanceAt(cmds: seq<G01Command>, i: nat): Distance
    requires 1 <= i < |cmds|
  {
    Distance(MaxVariation(cmds[i - 1], cmds[i]), cmds[i - 1], cmds[i])
  }

  /** `calculateDistancesMaxVariation`: one distance per pair of consecutive commands. */
  method CalculateDistancesMaxVariation(g01Commands: seq<G01Command>) returns (distances: seq<Distance>)
    ensures |distances| == if |g01Commands| == 0 then 0 else |g01Commands| - 1
    ensures forall k :: 0 <= k < |distances| ==> distances[k] == DistanceAt(g01Commands, k + 1)
  {
    distances := [];
    var i := 1;
    while i < |g01Commands|
      invariant 1 <= i <= if |g01Commands| == 0 then 1 else |g01Commands|
      invariant |distances| == i - 1
      invariant forall k :: 0 <= k < |distances| ==> distances[k] == DistanceAt(g01Commands, k + 1)
    {
      var from := g01Commands[i - 1];
      var to := g01Commands[i];
      var dx := Abs(to.x - from.x);
      var dy := Abs(to.y - from.y);
      var distance := Max(dx, dy);
      distances := distances + [Distance(distance, from, to)];
      i := i + 1;
    }
  }

  /** The distance is the larger of the two axis displacements, never negative, and Z plays no part. */
  lemma MaxVariationFacts(from: G01Command, to: G01Command, z1: real, z2: real)
    ensures var d := MaxVariation(from, to);
      d >= 0.0 && d >= Abs(to.x - from.x) && d >= Abs(to.y - from.y)
      && (d == Abs(to.x - from.x) || d == Abs(to.y - from.y))
      && d == MaxVariation(from.(z := z1), to.(z := z2))
  {
  }

  /** From (0, 0) to (3, 4) the distance is 4. */
  lemma MaxVariationExample()
    ensures MaxVariation(G01Command(0, "G01 X0 Y0", 0.0, 0.0, 0.0), G01Command(1, "G01 X3 Y4", 3.0, 4.0, 0.0)) == 4.0
  {
  }

  /** Distances built from commands in line order end on strictly increasing lines. */
  lemma DistanceKeysIncrease(cmds: seq<G01Command>, ds: seq<Distance>)
    requires forall j, k :: 0 <= j < k < |cmds| ==> cmds[j].line < cmds[k].line
    requires |ds| == if |cmds| == 0 then 0 else |cmds| - 1
    requires forall k :: 0 <= k < |ds| ==> ds[k] == DistanceAt(cmds, k + 1)
    ensures forall j, k :: 0 <= j < k < |ds| ==> ds[j].to.line < ds[k].to.line
  {
    forall j, k | 0 <= j < k < |ds|
      ensures ds[j].to.line < ds[k].to.line
    {
      assert ds[j].to == cmds[j + 1] && ds[k].to == cmds[k + 1];
    }
  }

  // ---------------------------------------------------------------- tiers

  datatype Tier = Short | Medium | Long

  /** The tier a distance falls in; the long tier's `minDist` is not consulted. */
  function Classify(d: real, m: MaterialConfig): Tier {
    if d < m.pausas.short.maxDist then Short
    else if d < m.pausas.medium.maxDist then Medium
    else Long
  }

  function TierTempo(m: MaterialConfig, t: Tier): real {
    match t
    case Short => m.pausas.short.tempo
    case Medium => m.pausas.medium.tempo
    case Long => m.pausas.long.tempo
  }

  /** The dwell token written for a tier: `P${tempo.toFixed(1)}`. */
  function Token(m: MaterialConfig, t: Tier): string {
    "P" + ToFixed(TierTempo(m, t), 1)
  }

  /** The tiers partition the distances: below the short bound, between the bounds, and the rest. */
  lemma ClassifyBands(d: real, m: MaterialConfig)
    ensures Classify(d, m) == Short <==> d < m.pausas.short.maxDist
    ensures Classify(d, m) == Medium <==> m.pausas.short.maxDist <= d < m.pausas.medium.maxDist
    ensures Classify(d, m) == Long <==> m.pausas.short.maxDist <= d && m.pausas.medium.maxDist <= d
  {
  }

  // ---------------------------------------------------------------- the pause map

  /** One entry of the `Map<number, string>` of pauses: the line it follows and its tier. */
  datatype Pause = Pause(line: nat, tier: Tier)

  /** `map.get(key)` */
  function Lookup(ps: seq<Pause>, key: nat): Option<Tier> {
    if ps == [] then None
    else if ps[0].line == key then Some(ps[0].tier)
    else Lookup(ps[1..], key)
  }

  /** `map.set(key, t)`: the entry for `key` is updated where it stands, or appended. */
  function MapSet(ps: seq<Pause>, key: nat, t: Tier): seq<Pause> {
    if ps == [] then [Pause(key, t)]
    else if ps[0].line == key then [Pause(key, t)] + ps[1..]
    else [ps[0]] + MapSet(ps[1..], key, t)
  }

  /** After `set`, `get` of that key gives the new value and every other key is unaffected. */
  lemma {:induction false} MapSetLookup(ps: seq<Pause>, key: nat, t: Tier, other: nat)
    ensures Lookup(MapSet(ps, key, t), key) == Some(t)
    ensures other != key ==> Lookup(MapSet(ps, key, t), other) == Lookup(ps, other)
  {
    if ps != [] && ps[0].line != key {
      MapSetLookup(ps[1..], key, t, other);
    }
  }

  /** `set` of a key not yet present appends one entry. */
  lemma {:induction false} MapSetNew(ps: seq<Pause>, key: nat, t: Tier)
    requires forall i :: 0 <= i < |ps| ==> ps[i].line != key
    ensures MapSet(ps, key, t) == ps + [Pause(key, t)]
  {
    if ps != [] {
      MapSetNew(ps[1..], key, t);
      assert ps == [ps[0]] + ps[1..];
    }
  }

  /** `get` finds a key exactly when an entry holds it, and what it gives is that entry's tier. */
  lemma {:induction false} LookupFinds(ps: seq<Pause>, key: nat)
    ensures Lookup(ps, key).Some? <==> exists j :: 0 <= j < |ps| && ps[j].line == key
    ensures Lookup(ps, key).Some? ==> exists j :: 0 <= j < |ps| && ps[j] == Pause(key, Lookup(ps, key).value)
  {
    if ps != [] && ps[0].line != key {
      LookupFinds(ps[1..], key);
      if exists j :: 0 <= j < |ps| && ps[j].line == key {
        var j :| 0 <= j < |ps| && ps[j].line == key;
        assert ps[1..][j - 1] == ps[j];
      }
      if Lookup(ps, key).Some? {
        var j :| 0 <= j < |ps[1..]| && ps[1..][j] == Pause(key, Lookup(ps, key).value);
        assert ps[j + 1] == ps[1..][j];
      }
    }
  }

  /** With keys in strictly increasing order, `get` of an entry's key gives that entry's tier. */
  lemma {:induction false} LookupIncreasing(ps: seq<Pause>, j: nat)
    requires forall a, b :: 0 <= a < b < |ps| ==> ps[a].line < ps[b].line
    requires j < |ps|
    ensures Lookup(ps, ps[j].line) == Some(ps[j].tier)
  {
    if j > 0 {
      assert ps[0].line < ps[j].line;
      LookupIncreasing(ps[1..], j - 1);
    }
  }

  // ---------------------------------------------------------------- the accumulator pass

  /** `AccumulatorState`: how many distances fell in each tier. */
  datatype AccumulatorState = AccumulatorState(shortAccumulator: nat, mediumAccumulator: nat, longAccumulator: nat)

  datatype Classified = Classified(pausePositions: seq<Pause>, stats: AccumulatorState, accumulator: real)

  /** The state after classifying `ds` in order. */
  function ProcessRun(ds: seq<Distance>, m: MaterialConfig): Classified {
    if ds == [] then Classified([], AccumulatorState(0, 0, 0), 0.0)
    else
      var prev := ProcessRun(ds[..|ds| - 1], m);
      var d := ds[|ds| - 1];
      var s := prev.stats;
      match Classify(d.value, m)
      case Short =>
        Classified(MapSet(prev.pausePositions, d.to.line, Short),
                   s.(shortAccumulator := s.shortAccumulator + 1), prev.accumulator + d.value)
      case Medium =>
        Classified(MapSet(prev.pausePositions, d.to.line, Medium),
                   s.(mediumAccumulator := s.mediumAccumulator + 1), 0.0)
      case Long =>
        Classified(MapSet(prev.pausePositions, d.to.line, Long),
                   s.(longAccumulator := s.longAccumulator + 1), 0.0)
  }

  lemma ProcessStep(ds: seq<Distance>, i: nat, m: MaterialConfig)
    requires i < |ds|
    ensures ProcessRun(ds[..i + 1], m) ==
      var prev := ProcessRun(ds[..i], m);
      var d := ds[i];
      var s := prev.stats;
      match Classify(d.value, m)
      case Short =>
        Classified(MapSet(prev.pausePositions, d.to.line, Short),
                   s.(shortAccumulator := s.shortAccumulator + 1), prev.accumulator + d.value)
      case Medium =>
        Classified(MapSet(prev.pausePositions, d.to.line, Medium),
                   s.(mediumAccumulator := s.mediumAccumulator + 1), 0.0)
      case Long =>
        Classified(MapSet(prev.pausePositions, d.to.line, Long),
                   s.(longAccumulator := s.longAccumulator + 1), 0.0)
  {
    assert ds[..i + 1][..i] == ds[..i];
  }

  /** `processWithAccumulator`: one pass setting a pause per distance and keeping the running accumulator. */
  method ProcessWithAccumulator(distances: seq<Distance>, material: MaterialConfig)
    returns (pausePositions: seq<Pause>, stats: AccumulatorState, accumulator: real)
    ensures Classified(pausePositions, stats, accumulator) == ProcessRun(distances, material)
  {
    pausePositions := [];
    stats := AccumulatorState(0, 0, 0);
    accumulator := 0.0;
    for i := 0 to |distances|
      invariant Classified(pausePositions, stats, accumulator) == ProcessRun(distances[..i], material)
    {
      ProcessStep(distances, i, material);
      var distance := distances[i];
      var d := distance.value;
      if d < material.pausas.short.maxDist {
        pausePositions := MapSet(pausePositions, distance.to.line, Short);
        stats := stats.(shortAccumulator := stats.shortAccumulator + 1);
        accumulator := accumulator + d;
      } else if d < material.pausas.medium.maxDist {
        pausePositions := MapSet(pausePositions, distance.to.line, Medium);
        stats := stats.(mediumAccumulator := stats.mediumAccumulator + 1);
        accumulator := 0.0;
      } else {
        pausePositions := MapSet(pausePositions, distance.to.line, Long);
        stats := stats.(longAccumulator := stats.longAccumulator + 1);
        accumulator := 0.0;
      }
    }
    assert distances[..|distances|] == distances;
  }

  // ---------------------------------------------------------------- properties

  /** Distances ending on strictly increasing lines give exactly one pause each, in order, with the distance's tier. */
  lemma {:induction false} OnePausePerDistance(ds: seq<Distance>, m: MaterialConfig)
    requires forall j, k :: 0 <= j < k < |ds| ==> ds[j].to.line < ds[k].to.line
    ensures var ps := ProcessRun(ds, m).pausePositions;
      |ps| == |ds| && forall k :: 0 <= k < |ds| ==> ps[k] == Pause(ds[k].to.line, Classify(ds[k].value, m))
  {
    if ds != [] {
      var n := |ds| - 1;
      var init := ds[..n];
      OnePausePerDistance(init, m);
      var prev := ProcessRun(init, m).pausePositions;
      MapSetNew(prev, ds[n].to.line, Classify(ds[n].value, m));
    }
  }

  /** Every distance is counted in exactly one tier. */
  lemma {:induction false} TierCountsTotal(ds: seq<Distance>, m: MaterialConfig)
    ensures var s := ProcessRun(ds, m).stats;
      s.shortAccumulator + s.mediumAccumulator + s.longAccumulator == |ds|
  {
    if ds != [] {
      TierCountsTotal(ds[..|ds| - 1], m);
    }
  }

  function SumValues(ds: seq<Distance>): real {
    if ds == [] then 0.0 else SumValues(ds[..|ds| - 1]) + ds[|ds| - 1].value
  }

  /** `ds[j..]` is the final run of short distances: all short, and not preceded by a short one. */
  predicate FinalShortRun(ds: seq<Distance>, m: MaterialConfig, j: nat) {
    && j <= |ds|
    && (forall k :: j <= k < |ds| ==> Classify(ds[k].value, m) == Short)
    && (j > 0 ==> Classify(ds[j - 1].value, m) != Short)
  }

  /**
   * The accumulator is the sum of the final run of short distances: it grows
   * on every short one and restarts at 0 on a medium or long one.
   */
  lemma {:induction false} AccumulatorIsShortRun(ds: seq<Distance>, m: MaterialConfig)
    ensures exists j: nat :: FinalShortRun(ds, m, j) && ProcessRun(ds, m).accumulator == SumValues(ds[j..])
  {
    if ds == [] {
      assert FinalShortRun(ds, m, 0) && ds[0..] == [];
    } else {
      var n := |ds| - 1;
      var init := ds[..n];
      AccumulatorIsShortRun(init, m);
      if Classify(ds[n].value, m) == Short {
        var j: nat :| FinalShortRun(init, m, j) && ProcessRun(init, m).accumulator == SumValues(init[j..]);
        assert ds[j..][..|ds[j..]| - 1] == init[j..];
        assert forall k :: j <= k < n ==> ds[k] == init[k];
        assert FinalShortRun(ds, m, j);
        assert SumValues(ds[j..]) == SumValues(init[j..]) + ds[n].value;
      } else {
        assert FinalShortRun(ds, m, |ds|) && ds[|ds|..] == [];
      }
    }
  }

  // ---------------------------------------------------------------- the default profile

  /** With T1's tiers, 2 mm is short, 10 mm medium and 60 mm long. */
  lemma DefaultTiers()
    ensures Classify(2.0, DEFAULT_MATERIAL) == Short
    ensures Classify(10.0, DEFAULT_MATERIAL) == Medium
    ensures Classify(60.0, DEFAULT_MATERIAL) == Long
  {
  }

  lemma TokenShortDefault()
    ensures Token(DEFAULT_MATERIAL, Short) == "P0.0"
  {
    assert RoundHalfUp(0.0) == 0;
    assert PadStart("0", 2, '0') == "00";
  }

  lemma TokenMediumDefault()
    ensures Token(DEFAULT_MATERIAL, Medium) == "P0.3"
  {
    assert RoundHalfUp(0.3 * 10.0) == 3;
    assert PadStart("3", 2, '0') == "03";
  }

  lemma TokenLongDefault()
    ensures Token(DEFAULT_MATERIAL, Long) == "P0.5"
  {
    assert RoundHalfUp(0.5 * 10.0) == 5;
    assert PadStart("5", 2, '0') == "05";
  }
}
