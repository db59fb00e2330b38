# Navigator path selection, modelled in Dafny

The navigator of the EleNA map worker finds walking routes between two
addresses on a street graph. It can also prefer routes with less climbing. Its
own logic has three parts, and this project models all three:

1. **Address guard** (`get_navigation_coordinates`). If either address is the
   empty string or `None`, the result is `None` and nothing is geocoded.
   Otherwise each address is geocoded, origin first.
2. **Candidate ranking** (`get_all_shortest_paths`). Each elevation-optimal
   path is paired with its physical length, the sum of its edges' `length`
   attributes. The pairs are then sorted by that length with Python's stable
   `sorted`.
3. **Tolerance filter** (`filter_paths_by_tolerance`). It computes the
   baseline's length and climb-only elevation gain. It then takes the first
   candidate and sets `found` when that candidate's length is at most
   `tolerance` times the baseline length. It returns that candidate's path
   together with the percentage of climb saved and the percentage of
   distance added.

Module layout:

- `wrappers.dfy`, module `Wrappers`: `Option` and `Result`.
- `routes.dfy`, module `Routes`: a `Route` is a node path together with its
  per-edge `length` and `elevation_gain` values. This module defines `Sum`
  (Python's `sum`) and `ElevationGain` (the sum of strictly positive gains),
  with their lemmas.
- `ranking.dfy`, module `Ranking`: the `(length, path)` candidate entry.
  `SortByLength` is a stable insertion sort that stands for Python's `sorted`
  with a length key. Lemmas prove it sorted, a permutation and stable.
- `navigator.dfy`, module `Navigator`: the guard, the two methods with the
  source's loops (`GetAllShortestPaths`, and `AccumulateGain` called by
  `FilterPathsByTolerance`), the specification function `ToleranceFilter`
  that `FilterPathsByTolerance` is proved equal to, and lemmas that connect
  the ranking to the filter.

The external collaborators become inputs:

- The geocoder is a function parameter `geocode: string -> Coordinate`.
- The results of the graph searches (`ox.nearest_nodes`, `nx.shortest_path`,
  `nx.all_shortest_paths`) are method arguments: the elevation-optimal paths
  and the shortest path by distance.
- The attribute lookups (`ox.utils_graph.get_route_edge_attributes`) become
  the `lengths` and `gains` fields of each `Route`.
- Python floats are modelled as Dafny `real`.

What the code does in the corner cases, and how the model states it:

- The code has no branch for a zero baseline gain or a zero baseline length.
  It divides by zero there and raises `ZeroDivisionError`.
- An empty candidate list raises `IndexError` at
  `worker/navigator/navigator.py:117`.
- The model turns these three exceptions into `Failure` results of
  `ToleranceFilter`, in the order the source reaches them: the index error
  first, then the elevation-gain division, then the length division.
- The code has no separate "invalid input" outcome. The guard returns `None`,
  and `get_all_shortest_paths` then fails while unpacking it.
  `GetAllShortestPaths` returns `None` in that case.

## Model

| member | source | states |
|---|---|---|
| `Navigator.NavigationCoordinates` | worker/navigator/navigator.py:46-52 | The result is `None` exactly when either address is `None` or `""`. Otherwise it is the geocoded origin and destination, in that order. |
| `Navigator.GuardSkipsGeocoding` | worker/navigator/navigator.py:46-47 | For an invalid address the result is `None` and does not depend on the geocoder, so no lookup affects it. |
| `Routes.Sum` | worker/navigator/navigator.py:108 | Python's `sum` over edge values, as used for the baseline length here and for each candidate at line 89. A sum of non-negative edge lengths is never negative. |
| `Ranking.Measure` | worker/navigator/navigator.py:89-90 | The entry for one path holds that path and the sum of its edge lengths. |
| `Ranking.MeasureAll` | worker/navigator/navigator.py:88-90 | There is one entry per elevation path, in generation order. Entry `i` holds path `i` and the sum of its edge lengths. |
| `Ranking.SortByLength` | worker/navigator/navigator.py:92 | The sorted list has as many entries as the input. Its order, permutation and stability facts are the `SortIs*` lemmas below. |
| `Navigator.GetAllShortestPaths` | worker/navigator/navigator.py:81-93 | Fails exactly when the guard does. Otherwise the result passes through both locations and the distance-shortest path. It has one entry per elevation path, and each entry's length is the sum of its path's edge lengths. The list is sorted by length, is a permutation of the entries in generation order, and equals their stable sort. |
| `Ranking.SortIsSorted` | worker/navigator/navigator.py:92 | The sorted candidate list is non-decreasing in length. |
| `Ranking.SortIsPermutation` | worker/navigator/navigator.py:92 | The sorted list has the same entries as the input, with the same multiplicities. |
| `Ranking.SortIsStable` | worker/navigator/navigator.py:92 | For every length value, the entries of that length keep their generation order. |
| `Ranking.SortOfSortedIsIdentity` | worker/navigator/navigator.py:92 | Sorting a list already in length order returns it unchanged. So ranking is idempotent: re-ranking a ranked candidate list would not move the chosen head. |
| `Ranking.SortHeadIsShortest` | worker/navigator/navigator.py:92 | No entry is shorter than the first entry of the sorted list. |
| `Ranking.SortHeadIsEarliestShortest` | worker/navigator/navigator.py:92 | The first sorted entry is an input entry, and every entry generated before it is strictly longer. |
| `Routes.ElevationGain` | worker/navigator/navigator.py:109-113 | The elevation gain is never negative and never below the plain sum of the per-edge gains. |
| `Routes.ElevationGainIsSumOfClimbs` | worker/navigator/navigator.py:119-124 | The elevation gain equals the sum of the strictly positive gains alone. |
| `Routes.ElevationGainAppend` | worker/navigator/navigator.py:111-113 | The gain of a concatenated edge sequence is the sum of the gains of its parts. So the gain reported for a route is the sum of the gains of its legs, however the route is split. |
| `Routes.ElevationGainOfAscent` | worker/navigator/navigator.py:121-124 | When no edge descends, the elevation gain is the plain sum of the gains. So the `> 0` test only matters on routes that go downhill somewhere. |
| `Routes.ElevationGainExample` | worker/navigator/navigator.py:112-113 | Gains 5, -3, 2, -10 give an elevation gain of 7. |
| `Navigator.AccumulateGain` | worker/navigator/navigator.py:109-113 | The `+=` loop over strictly positive gains computes `ElevationGain`. |
| `Navigator.ElevationReduction` | worker/navigator/navigator.py:126-127 | The candidate's climb is the baseline's climb reduced by the returned percentage. |
| `Navigator.PathLengthIncrease` | worker/navigator/navigator.py:128 | The candidate's length is the baseline's length increased by the returned percentage. |
| `Navigator.FilterPathsByTolerance` | worker/navigator/navigator.py:104-141 | The step-by-step filter, with its two accumulation loops, returns exactly `ToleranceFilter` of its inputs. |
| `Navigator.FilterFailsExactly` | worker/navigator/navigator.py:117-128 | The filter fails exactly on an empty candidate list, a zero baseline gain or a zero baseline length. An empty list is reported before a zero baseline gain, and a zero baseline length is reported only when the list is non-empty and the baseline gain is not zero. |
| `Navigator.FilterReportsFirstCandidate` | worker/navigator/navigator.py:115-139 | On success, `found` holds iff the first candidate's length is at most `tolerance` times the baseline length (boundary included). The path is the first candidate's whether `found` is true or false. The baseline gain, baseline length and both locations are reported unchanged. |
| `Navigator.ToleranceFilter` | worker/navigator/navigator.py:104-141 | On success there is a first candidate, and the reported path is that candidate's node path. The failure cases and the other fields are stated by the lemmas below. |
| `Navigator.PercentagesRecoverCandidate` | worker/navigator/navigator.py:126-128 | The chosen candidate's climb is the reported baseline climb reduced by `elevation_reduction` percent. Its length is the reported baseline length increased by `path_length_increase` percent. |
| `Navigator.ReductionBounds` | worker/navigator/navigator.py:126-127 | The elevation reduction is at most 100 %. It is positive exactly when the candidate climbs less than the baseline. |
| `Navigator.ReductionFacts` | worker/navigator/navigator.py:126-127 | For a positive baseline climb and a non-negative candidate climb, the reduction formula is at most 100, and it is positive exactly when the candidate climbs less. |
| `Navigator.FoundIffIncreaseWithinBudget` | worker/navigator/navigator.py:115-128 | With a positive baseline length, `found` holds iff the length increase is at most `100 * (tolerance - 1)` percent. |
| `Navigator.IncreaseFacts` | worker/navigator/navigator.py:115-128 | For a positive baseline length, a length is within `tolerance` times the baseline iff the increase formula gives at most `100 * (tolerance - 1)` percent. |
| `Navigator.RankingHeadIsEarliestShortest` | worker/navigator/navigator.py:86-92 | The head of the ranked list is built from the earliest-generated shortest elevation path. |
| `Navigator.FoundIffSomePathFits` | worker/navigator/navigator.py:115-118 | When the first candidate comes from a shortest path, `found` holds iff some elevation path fits the tolerance. |
| `Navigator.SelectionIsEarliestShortest` | worker/navigator/navigator.py:86-118 | For data produced by the ranking, the returned path is the earliest-generated shortest elevation path. `found` holds iff any elevation path is within `tolerance` times the baseline length. |
| `Navigator.ScenarioWithinTolerance` | worker/navigator/navigator.py:115-139 | Baseline 1000 m with a 50 m climb, candidate 1100 m with a 20 m climb, tolerance 1.2: `found` is true, with a 60 % reduction and a 10 % increase. |
| `Navigator.ScenarioBeyondTolerance` | worker/navigator/navigator.py:115-139 | With a 1300 m candidate, `found` is false, and the path and both percentages (60 % and 30 %) are still reported. |
| `Navigator.ScenarioAtBoundary` | worker/navigator/navigator.py:115-117 | A candidate of exactly `tolerance` times the baseline length is found. |

## Left out

- Geocoding through Nominatim (`get_address_coordinates`) is a network call. It is a function parameter here that always returns a coordinate. The crash when the service finds no match (a `None` dereference) is not modelled.
- The graph searches (`ox.nearest_nodes`, `nx.shortest_path`, `nx.all_shortest_paths`) and the graph itself are foreign library calls. Their results are inputs. Their failures, such as no path between the nodes, are not modelled.
- `get_shortest_path` is a pipeline of library calls with no logic of its own.
- Edge attributes come from `get_route_edge_attributes` in the source. Here each `Route` carries its own per-edge lengths and gains, and the model does not check that they match the node path.
- Floating-point rounding is not modelled: `real` arithmetic is exact, so the sums and percentages are the ideal values.
- The unused imports and the `Navigator` constructor are left out. The constructor only sets the constant `InvalidValues`.
