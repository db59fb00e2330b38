/**
 * Paths through the street graph together with the per-edge attributes the
 * navigator reads off the graph, and the two sums it forms over them: the
 * physical length and the climb-only elevation gain.
 */
module Routes {

  /** An identifier of a node of the street graph. */
  type NodeId = int

  /**
   * A path returned by the graph search. `lengths[i]` and `gains[i]` are the
   * `length` and `elevation_gain` attributes of its i-th edge, as the graph
   * library reports them for this path.
   */
  datatype Route = Route(nodes: seq<NodeId>, lengths: seq<real>, gains: seq<real>)

  /** Python's `sum` over a sequence of edge values, added left to right from 0. */
  function Sum(xs: seq<real>): (total: real)
    ensures (forall i :: 0 <= i < |xs| ==> xs[i] >= 0.0) ==> total >= 0.0
  {
    if xs == [] then 0.0 else Sum(xs[..|xs| - 1]) + xs[|xs| - 1]
  }

  /** What one edge contributes to the elevation gain: its gain if that is a climb, else nothing. */
  function Climb(gain: real): (c: real)
    ensures c >= 0.0 && c >= gain
  {
    if gain > 0.0 then gain else 0.0
  }

  /**
   * The elevation gain of a path: the sum of its strictly positive per-edge
   * gains, accumulated left to right. Descents never reduce it, so it is
   * never negative and never below the plain sum of the gains.
   */
  function ElevationGain(gains: seq<real>): (g: real)
    ensures g >= 0.0
    ensures g >= Sum(gains)
  {
    if gains == [] then 0.0 else ElevationGain(gains[..|gains| - 1]) + Climb(gains[|gains| - 1])
  }

  /** The climbing edges of a path, in order: every gain that is strictly positive. */
  function Climbs(gains: seq<real>): (cs: seq<real>)
    ensures forall i :: 0 <= i < |cs| ==> cs[i] > 0.0
    ensures |cs| <= |gains|
  {
    if gains == [] then []
    else Climbs(gains[..|gains| - 1]) + (if gains[|gains| - 1] > 0.0 then [gains[|gains| - 1]] else [])
  }

  /** Summing a concatenation is summing the parts. */
  lemma {:induction false} SumAppend(a: seq<real>, b: seq<real>)
    ensures Sum(a + b) == Sum(a) + Sum(b)
  {
    if b != [] {
      assert (a + b)[..|a + b| - 1] == a + b[..|b| - 1];
      SumAppend(a, b[..|b| - 1]);
    } else {
      assert a + b == a;
    }
  }

  /**
   * Reference definition: the elevation gain is exactly the sum of the
   * climbing edges, with every descent and every flat edge dropped.
   */
  lemma {:induction false} ElevationGainIsSumOfClimbs(gains: seq<real>)
    ensures ElevationGain(gains) == Sum(Climbs(gains))
  {
    if gains != [] {
      var init, last := gains[..|gains| - 1], gains[|gains| - 1];
      ElevationGainIsSumOfClimbs(init);
      var tail := if last > 0.0 then [last] else [];
      SumAppend(Climbs(init), tail);
      assert Sum(tail) == Climb(last) by {
        if last > 0.0 { assert tail[..0] == []; }
      }
    }
  }

  /** The elevation gain of a walk split in two is the sum of the gains of its halves. */
  lemma {:induction false} ElevationGainAppend(a: seq<real>, b: seq<real>)
    ensures ElevationGain(a + b) == ElevationGain(a) + ElevationGain(b)
  {
    if b != [] {
      assert (a + b)[..|a + b| - 1] == a + b[..|b| - 1];
      ElevationGainAppend(a, b[..|b| - 1]);
    } else {
      assert a + b == a;
    }
  }

  /** On a path that never descends, the elevation gain is the plain sum of its gains. */
  lemma {:induction false} ElevationGainOfAscent(gains: seq<real>)
    requires forall i :: 0 <= i < |gains| ==> gains[i] >= 0.0
    ensures ElevationGain(gains) == Sum(gains)
  {
    if gains != [] {
      ElevationGainOfAscent(gains[..|gains| - 1]);
    }
  }

  /** Gains 5, -3, 2, -10 give an elevation gain of 7: only the two climbs count. */
  lemma ElevationGainExample()
    ensures ElevationGain([5.0, -3.0, 2.0, -10.0]) == 7.0
  {
    var g := [5.0, -3.0, 2.0, -10.0];
    assert ElevationGain(g[..1]) == 5.0 by { assert g[..1][..0] == []; }
    assert ElevationGain(g[..2]) == 5.0 by { assert g[..2][..1] == g[..1]; }
    assert ElevationGain(g[..3]) == 7.0 by { assert g[..3][..2] == g[..2]; }
    assert g[..4] == g;
  }
}
