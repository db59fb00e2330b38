/**
 * The path-selection logic of the navigator: the guard on the two addresses,
 * the ranking of the elevation-optimal paths by physical length, and the
 * tolerance filter that compares the best of them with the shortest path by
 * distance.
 *
 * The geocoder is a parameter, and the graph searches are replaced by their
 * outputs: the elevation-optimal paths and the shortest path by distance,
 * each a `Route` carrying its per-edge attributes.
 */
module Navigator {
  import opened Wrappers
  import opened Routes
  import opened Ranking

  /** A (latitude, longitude) pair. */
  datatype Coordinate = Coordinate(latitude: real, longitude: real)

  /** An address argument: a string, or Python's `None`. */
  type Address = Option<string>

  /** The address values the navigator refuses: the empty string and `None`. */
  const InvalidValues: seq<Address> := [Some(""), None]

  // ---------------------------------------------------------------------------
  // Address guard

  /**
   * `get_navigation_coordinates`: `None` when either address is invalid,
   * otherwise the coordinates of the origin and of the destination, in that
   * order, as the geocoder resolves them.
   */
  function NavigationCoordinates(fromAddress: Address, toAddress: Address,
                                 geocode: string -> Coordinate): (r: Option<(Coordinate, Coordinate)>)
    ensures r.None? <==> fromAddress == None || fromAddress == Some("") ||
                         toAddress == None || toAddress == Some("")
    ensures r.Some? ==> r.value == (geocode(fromAddress.value), geocode(toAddress.value))
  {
    if fromAddress in InvalidValues || toAddress in InvalidValues then None
    else Some((geocode(fromAddress.value), geocode(toAddress.value)))
  }

  /**
   * An invalid address short-circuits before any lookup: the result is `None`
   * whatever the geocoder would have answered.
   */
  lemma GuardSkipsGeocoding(fromAddress: Address, toAddress: Address,
                            geocode: string -> Coordinate, other: string -> Coordinate)
    requires fromAddress in InvalidValues || toAddress in InvalidValues
    ensures NavigationCoordinates(fromAddress, toAddress, geocode) == None
    ensures NavigationCoordinates(fromAddress, toAddress, geocode) ==
            NavigationCoordinates(fromAddress, toAddress, other)
  {
  }

  // ---------------------------------------------------------------------------
  // Candidate construction and ranking

  /** What `get_all_shortest_paths` returns and `filter_paths_by_tolerance` consumes. */
  datatype PathData = PathData(candidates: seq<Candidate>, shortestPath: Route,
                               locationOrig: Coordinate, locationDest: Coordinate)

  /**
   * `get_all_shortest_paths`. `pathsByElevation` and `pathByDistance` stand
   * for what the graph searches return between the nodes nearest to the two
   * coordinates. `None` stands for the failure of unpacking the guard's `None`.
   * Otherwise the candidate list has one entry per elevation-optimal path,
   * each entry's length is the sum of its path's edge lengths, and the list
   * is the stable sort of those entries by length.
   */
  method GetAllShortestPaths(fromAddress: Address, toAddress: Address, geocode: string -> Coordinate,
                             pathsByElevation: seq<Route>, pathByDistance: Route)
    returns (r: Option<PathData>)
    ensures r.None? <==> NavigationCoordinates(fromAddress, toAddress, geocode).None?
    ensures r.Some? ==>
      var coordinates := NavigationCoordinates(fromAddress, toAddress, geocode).value;
      && r.value.locationOrig == coordinates.0
      && r.value.locationDest == coordinates.1
      && r.value.shortestPath == pathByDistance
      && r.value.candidates == SortByLength(MeasureAll(pathsByElevation))
    ensures r.Some? ==>
      && |r.value.candidates| == |pathsByElevation|
      && multiset(r.value.candidates) == multiset(MeasureAll(pathsByElevation))
      && Sorted(r.value.candidates)
      && forall i :: 0 <= i < |r.value.candidates| ==>
           r.value.candidates[i].length == Sum(r.value.candidates[i].route.lengths)
  {
    var coordinates := NavigationCoordinates(fromAddress, toAddress, geocode);
    if coordinates.None? {
      return None;
    }
    var (locationOrig, locationDest) := coordinates.value;
    var candidates: seq<Candidate> := [];
    var i := 0;
    while i < |pathsByElevation|
      invariant 0 <= i <= |pathsByElevation|
      invariant |candidates| == i
      invariant forall k :: 0 <= k < i ==> candidates[k] == Measure(pathsByElevation[k])
    {
      var length := Sum(pathsByElevation[i].lengths);
      candidates := candidates + [Candidate(length, pathsByElevation[i])];
      i := i + 1;
    }
    assert candidates == MeasureAll(pathsByElevation);
    var sorted := SortByLength(candidates);
    SortIsSorted(candidates);
    SortIsPermutation(candidates);
    forall c | c in sorted
      ensures c.length == Sum(c.route.lengths)
    {
      assert c in multiset(sorted);
      assert c in candidates;
    }
    r := Some(PathData(sorted, pathByDistance, locationOrig, locationDest));
  }

  // ---------------------------------------------------------------------------
  // Tolerance filter

  /**
   * The ways `filter_paths_by_tolerance` fails: indexing an empty candidate
   * list (Python's `IndexError`), and dividing by a zero baseline elevation
   * gain or a zero baseline length (Python's `ZeroDivisionError`).
   */
  datatype FilterError = NoCandidates | ZeroBaselineElevationGain | ZeroBaselineLength

  /** The dictionary `filter_paths_by_tolerance` returns. */
  datatype RoutingResult = RoutingResult(
    found: bool,
    path: seq<NodeId>,
    originalElevationGain: real,
    elevationReduction: real,
    originalPathLength: real,
    pathLengthIncrease: real,
    locationOrig: Coordinate,
    locationDest: Coordinate)

  /** The climb left after reducing `baselineGain` by `pct` percent. */
  function GainAfterReduction(baselineGain: real, pct: real): real
  {
    baselineGain * (1.0 - pct / 100.0)
  }

  /** The length reached after increasing `baselineLength` by `pct` percent. */
  function LengthAfterIncrease(baselineLength: real, pct: real): real
  {
    baselineLength * (1.0 + pct / 100.0)
  }

  /**
   * The candidate's climb as a percentage saved against the baseline's. The
   * candidate's climb is the baseline's reduced by that percentage.
   */
  function ElevationReduction(baselineGain: real, candidateGain: real): (pct: real)
    requires baselineGain != 0.0
    ensures GainAfterReduction(baselineGain, pct) == candidateGain
  {
    100.0 * ((baselineGain - candidateGain) / baselineGain)
  }

  /**
   * The candidate's length as a percentage added to the baseline's. The
   * candidate's length is the baseline's increased by that percentage.
   */
  function PathLengthIncrease(baselineLength: real, candidateLength: real): (pct: real)
    requires baselineLength != 0.0
    ensures LengthAfterIncrease(baselineLength, pct) == candidateLength
  {
    100.0 * ((candidateLength - baselineLength) / baselineLength)
  }

  /**
   * The two percentages determine the chosen candidate's figures: its climb is
   * the baseline's reduced by `elevationReduction` percent, and its length is
   * the baseline's increased by `pathLengthIncrease` percent.
   */
  lemma PercentagesRecoverCandidate(data: PathData, tolerance: real)
    requires ToleranceFilter(data, tolerance).Success?
    ensures var res := ToleranceFilter(data, tolerance).value;
      && ElevationGain(data.candidates[0].route.gains) ==
           GainAfterReduction(res.originalElevationGain, res.elevationReduction)
      && data.candidates[0].length == LengthAfterIncrease(res.originalPathLength, res.pathLengthIncrease)
  {
  }

  /**
   * What `filter_paths_by_tolerance` computes from the path data and the
   * tolerance multiplier, with its failures in the order the source meets them.
   */
  function ToleranceFilter(data: PathData, tolerance: real): (r: Result<RoutingResult, FilterError>)
    ensures r.Success? ==> data.candidates != [] && r.value.path == data.candidates[0].route.nodes
  {
    var baselineLength := Sum(data.shortestPath.lengths);
    var baselineGain := ElevationGain(data.shortestPath.gains);
    if data.candidates == [] then Failure(NoCandidates)
    else
      var best := data.candidates[0];
      var found := best.length <= tolerance * baselineLength;
      var bestGain := ElevationGain(best.route.gains);
      if baselineGain == 0.0 then Failure(ZeroBaselineElevationGain)
      else if baselineLength == 0.0 then Failure(ZeroBaselineLength)
      else Success(RoutingResult(
        found, best.route.nodes,
        baselineGain, ElevationReduction(baselineGain, bestGain),
        baselineLength, PathLengthIncrease(baselineLength, best.length),
        data.locationOrig, data.locationDest))
  }

  /** The accumulation loop of `filter_paths_by_tolerance`: adds up the strictly positive gains. */
  method AccumulateGain(gains: seq<real>) returns (total: real)
    ensures total == ElevationGain(gains)
  {
    total := 0.0;
    var i := 0;
    while i < |gains|
      invariant 0 <= i <= |gains|
      invariant total == ElevationGain(gains[..i])
    {
      assert gains[..i + 1][..i] == gains[..i];
      if gains[i] > 0.0 {
        total := total + gains[i];
      }
      i := i + 1;
    }
    assert gains[..i] == gains;
  }

  /** `filter_paths_by_tolerance`, step by step as the source does it. */
  method FilterPathsByTolerance(data: PathData, tolerance: real)
    returns (r: Result<RoutingResult, FilterError>)
    ensures r == ToleranceFilter(data, tolerance)
  {
    var shortestPath := data.shortestPath;
    var elevationBasedPaths := data.candidates;
    var shortestPathLength := Sum(shortestPath.lengths);
    var shortestPathElevationGain := AccumulateGain(shortestPath.gains);
    var maxPathLength := tolerance * shortestPathLength;
    if |elevationBasedPaths| == 0 {
      return Failure(NoCandidates);
    }
    var pathFound := elevationBasedPaths[0].length <= maxPathLength;
    var best := elevationBasedPaths[0].route;
    var bestElevationGain := AccumulateGain(best.gains);
    if shortestPathElevationGain == 0.0 {
      return Failure(ZeroBaselineElevationGain);
    }
    var elevationReduction := ElevationReduction(shortestPathElevationGain, bestElevationGain);
    if shortestPathLength == 0.0 {
      return Failure(ZeroBaselineLength);
    }
    var pathLengthIncrease := PathLengthIncrease(shortestPathLength, elevationBasedPaths[0].length);
    r := Success(RoutingResult(
      pathFound, best.nodes,
      shortestPathElevationGain, elevationReduction,
      shortestPathLength, pathLengthIncrease,
      data.locationOrig, data.locationDest));
  }

  // ---------------------------------------------------------------------------
  // Properties of the tolerance filter

  /**
   * The filter fails exactly on an empty candidate list, a flat baseline or a
   * zero-length baseline, and reports the first of these the source meets.
   */
  lemma FilterFailsExactly(data: PathData, tolerance: real)
    ensures var r := ToleranceFilter(data, tolerance);
      && (r.Failure? <==> data.candidates == [] ||
                          ElevationGain(data.shortestPath.gains) == 0.0 ||
                          Sum(data.shortestPath.lengths) == 0.0)
      && (data.candidates == [] ==> r == Failure(NoCandidates))
      && (data.candidates != [] && ElevationGain(data.shortestPath.gains) == 0.0 ==>
            r == Failure(ZeroBaselineElevationGain))
      && (data.candidates != [] && ElevationGain(data.shortestPath.gains) != 0.0 &&
          Sum(data.shortestPath.lengths) == 0.0 ==>
            r == Failure(ZeroBaselineLength))
  {
  }

  /**
   * On success: `found` holds iff the first candidate's length is at most
   * `tolerance` times the baseline length, boundary included; the path is the
   * first candidate's whether or not it was found; the baseline figures and
   * both locations are reported unchanged.
   */
  lemma FilterReportsFirstCandidate(data: PathData, tolerance: real)
    requires ToleranceFilter(data, tolerance).Success?
    ensures var res := ToleranceFilter(data, tolerance).value;
      && (res.found <==> data.candidates[0].length <= tolerance * Sum(data.shortestPath.lengths))
      && res.path == data.candidates[0].route.nodes
      && res.originalElevationGain == ElevationGain(data.shortestPath.gains)
      && res.originalPathLength == Sum(data.shortestPath.lengths)
      && res.locationOrig == data.locationOrig
      && res.locationDest == data.locationDest
  {
  }

  /**
   * The reduction never exceeds 100 percent, since no path climbs less than
   * nothing, and it is positive exactly when the candidate climbs less than
   * the baseline.
   */
  lemma ReductionBounds(data: PathData, tolerance: real)
    requires ToleranceFilter(data, tolerance).Success?
    ensures var res := ToleranceFilter(data, tolerance).value;
      && res.elevationReduction <= 100.0
      && (res.elevationReduction > 0.0 <==>
            ElevationGain(data.candidates[0].route.gains) < ElevationGain(data.shortestPath.gains))
  {
    var b := ElevationGain(data.shortestPath.gains);
    var c := ElevationGain(data.candidates[0].route.gains);
    assert ToleranceFilter(data, tolerance).value.elevationReduction == ElevationReduction(b, c);
    ReductionFacts(b, c);
  }

  /**
   * For a baseline that climbs and a candidate that does not descend below
   * zero gain, the reduction is at most 100 percent and is positive exactly
   * when the candidate climbs less.
   */
  lemma ReductionFacts(b: real, c: real)
    requires b > 0.0 && c >= 0.0
    ensures ElevationReduction(b, c) <= 100.0
    ensures ElevationReduction(b, c) > 0.0 <==> c < b
  {
    var q := (b - c) / b;
    assert b * q == b - c;
    MultiplyPositiveMonotone(b, q, 1.0);
    MultiplyPositiveMonotone(b, q, 0.0);
    assert ElevationReduction(b, c) == 100.0 * q;
  }

  /**
   * With a positive baseline length, `found` says exactly that the detour
   * stays within budget: the length increase is at most `100 * (tolerance - 1)`
   * percent.
   */
  lemma FoundIffIncreaseWithinBudget(data: PathData, tolerance: real)
    requires ToleranceFilter(data, tolerance).Success?
    requires Sum(data.shortestPath.lengths) > 0.0
    ensures var res := ToleranceFilter(data, tolerance).value;
      res.found <==> res.pathLengthIncrease <= 100.0 * (tolerance - 1.0)
  {
    var res := ToleranceFilter(data, tolerance).value;
    var b := Sum(data.shortestPath.lengths);
    var c := data.candidates[0].length;
    assert res.found == (c <= tolerance * b);
    assert res.pathLengthIncrease == PathLengthIncrease(b, c);
    IncreaseFacts(b, c, tolerance);
  }

  /**
   * Over a positive baseline length, a candidate fits within `tolerance` times
   * the baseline exactly when its length increase is at most
   * `100 * (tolerance - 1)` percent.
   */
  lemma IncreaseFacts(b: real, c: real, tolerance: real)
    requires b > 0.0
    ensures c <= tolerance * b <==> PathLengthIncrease(b, c) <= 100.0 * (tolerance - 1.0)
  {
    var p := PathLengthIncrease(b, c);
    assert c == b * (1.0 + p / 100.0) by { assert LengthAfterIncrease(b, p) == c; }
    assert tolerance * b == b * tolerance;
    MultiplyPositiveMonotone(b, 1.0 + p / 100.0, tolerance);
  }

  /** Multiplying by a positive factor preserves and reflects the order. */
  lemma MultiplyPositiveMonotone(b: real, x: real, y: real)
    requires b > 0.0
    ensures b * x <= b * y <==> x <= y
  {
  }

  // ---------------------------------------------------------------------------
  // The ranking and the filter together

  /**
   * The head of the ranked candidate list is built from the earliest generated
   * among the shortest elevation-optimal paths.
   */
  lemma RankingHeadIsEarliestShortest(paths: seq<Route>) returns (j: nat)
    requires paths != []
    ensures j < |paths| && SortByLength(MeasureAll(paths))[0] == Measure(paths[j])
    ensures forall k :: 0 <= k < |paths| ==> Sum(paths[j].lengths) <= Sum(paths[k].lengths)
    ensures forall k :: 0 <= k < j ==> Sum(paths[k].lengths) > Sum(paths[j].lengths)
  {
    var measured := MeasureAll(paths);
    SortHeadIsShortest(measured);
    j := SortHeadIsEarliestShortest(measured);
    assert forall k :: 0 <= k < |paths| ==> measured[k] == Measure(paths[k]);
  }

  /**
   * When the first candidate is built from a shortest path `paths[j]`,
   * `found` holds iff some path of `paths` fits within the tolerance.
   */
  lemma FoundIffSomePathFits(paths: seq<Route>, j: nat, data: PathData, tolerance: real)
    requires j < |paths| && data.candidates != [] && data.candidates[0] == Measure(paths[j])
    requires forall k :: 0 <= k < |paths| ==> Sum(paths[j].lengths) <= Sum(paths[k].lengths)
    requires ToleranceFilter(data, tolerance).Success?
    ensures var res := ToleranceFilter(data, tolerance).value;
      && res.path == paths[j].nodes
      && (res.found <==> exists i :: 0 <= i < |paths| &&
                           Sum(paths[i].lengths) <= tolerance * Sum(data.shortestPath.lengths))
  {
  }

  /**
   * When the path data comes from the ranking of `paths`, the selected path is
   * the earliest generated among the shortest elevation-optimal paths, and
   * `found` holds iff some elevation-optimal path fits within the tolerance.
   */
  lemma SelectionIsEarliestShortest(paths: seq<Route>, data: PathData, tolerance: real)
    requires data.candidates == SortByLength(MeasureAll(paths))
    requires ToleranceFilter(data, tolerance).Success?
    ensures var res := ToleranceFilter(data, tolerance).value;
      && (res.found <==> exists i :: 0 <= i < |paths| &&
                           Sum(paths[i].lengths) <= tolerance * Sum(data.shortestPath.lengths))
      && exists j :: 0 <= j < |paths| && res.path == paths[j].nodes &&
           (forall k :: 0 <= k < |paths| ==> Sum(paths[j].lengths) <= Sum(paths[k].lengths)) &&
           (forall k :: 0 <= k < j ==> Sum(paths[k].lengths) > Sum(paths[j].lengths))
  {
    assert |MeasureAll(paths)| == |paths|;
    var j := RankingHeadIsEarliestShortest(paths);
    FoundIffSomePathFits(paths, j, data, tolerance);
  }

  // ---------------------------------------------------------------------------
  // Scenarios

  /** A baseline of one edge: 1000 m long and climbing 50 m. */
  function ScenarioBaseline(): Route
  {
    Route([1, 2], [1000.0], [50.0])
  }

  /** A candidate of two equal edges, climbing 20 m and then descending 5 m, with the given length. */
  function ScenarioCandidate(length: real): Candidate
  {
    Candidate(length, Route([1, 3, 2], [length / 2.0, length / 2.0], [20.0, -5.0]))
  }

  /** A 1100 m candidate under tolerance 1.2 is found, saving 60 percent of the climb for 10 percent more distance. */
  lemma ScenarioWithinTolerance(orig: Coordinate, dest: Coordinate)
    ensures ToleranceFilter(PathData([ScenarioCandidate(1100.0)], ScenarioBaseline(), orig, dest), 1.2) ==
            Success(RoutingResult(true, [1, 3, 2], 50.0, 60.0, 1000.0, 10.0, orig, dest))
  {
  }

  /**
   * A 1300 m candidate under tolerance 1.2 is not found, yet the path and both
   * percentages are still reported.
   */
  lemma ScenarioBeyondTolerance(orig: Coordinate, dest: Coordinate)
    ensures ToleranceFilter(PathData([ScenarioCandidate(1300.0)], ScenarioBaseline(), orig, dest), 1.2) ==
            Success(RoutingResult(false, [1, 3, 2], 50.0, 60.0, 1000.0, 30.0, orig, dest))
  {
  }

  /** A candidate of exactly `tolerance` times the baseline length is found: the bound is inclusive. */
  lemma ScenarioAtBoundary(orig: Coordinate, dest: Coordinate)
    ensures var r := ToleranceFilter(PathData([ScenarioCandidate(1200.0)], ScenarioBaseline(), orig, dest), 1.2);
      r.Success? && r.value.found
  {
  }
}
