/**
 * The candidate list of the multi-path query: every elevation-optimal path
 * paired with its physical length, ordered by that length with Python's
 * stable `sorted(..., key=lambda x: x[0])`.
 */
module Ranking {
  import opened Routes

  /** One `(length, path)` entry of the candidate list. */
  datatype Candidate = Candidate(length: real, route: Route)

  /** The entry built for one elevation-optimal path: the path with the sum of its edge lengths. */
  function Measure(p: Route): (c: Candidate)
    ensures c.route == p && c.length == Sum(p.lengths)
  {
    Candidate(Sum(p.lengths), p)
  }

  /** The entries built for the paths, one per path, in generation order. */
  function MeasureAll(paths: seq<Route>): (cs: seq<Candidate>)
    ensures |cs| == |paths|
    ensures forall i :: 0 <= i < |cs| ==> cs[i].route == paths[i] && cs[i].length == Sum(paths[i].lengths)
  {
    seq(|paths|, i requires 0 <= i < |paths| => Measure(paths[i]))
  }

  /** Non-decreasing in length. */
  ghost predicate Sorted(cs: seq<Candidate>)
  {
    forall i, j :: 0 <= i < j < |cs| ==> cs[i].length <= cs[j].length
  }

  /** The entries of `cs` whose length is exactly `k`, in their order in `cs`. */
  function WithLength(cs: seq<Candidate>, k: real): seq<Candidate>
  {
    if cs == [] then []
    else (if cs[0].length == k then [cs[0]] else []) + WithLength(cs[1..], k)
  }

  /**
   * Places `c` in front of the first entry of `cs` that is at least as long,
   * so that `c` stays ahead of the entries of equal length that follow it.
   */
  function Insert(c: Candidate, cs: seq<Candidate>): (r: seq<Candidate>)
    ensures |r| == |cs| + 1
    ensures r[0] == if cs == [] || c.length <= cs[0].length then c else cs[0]
  {
    if cs == [] then [c]
    else if c.length <= cs[0].length then [c] + cs
    else [cs[0]] + Insert(c, cs[1..])
  }

  /** Inserting into a sorted list gives a sorted list. */
  lemma {:induction false} InsertKeepsSorted(c: Candidate, cs: seq<Candidate>)
    requires Sorted(cs)
    ensures Sorted(Insert(c, cs))
  {
    if cs != [] && c.length > cs[0].length {
      var rest := Insert(c, cs[1..]);
      InsertKeepsSorted(c, cs[1..]);
      assert rest[0].length >= cs[0].length;
      assert Insert(c, cs) == [cs[0]] + rest;
    }
  }

  /** Inserting adds exactly `c` to the entries. */
  lemma {:induction false} InsertAddsOne(c: Candidate, cs: seq<Candidate>)
    ensures multiset(Insert(c, cs)) == multiset(cs) + multiset{c}
  {
    if cs != [] && c.length > cs[0].length {
      InsertAddsOne(c, cs[1..]);
      assert cs == [cs[0]] + cs[1..];
      assert Insert(c, cs) == [cs[0]] + Insert(c, cs[1..]);
    }
  }

  /** Python's stable `sorted` on the candidate list, keyed by length. */
  function SortByLength(cs: seq<Candidate>): (r: seq<Candidate>)
    ensures |r| == |cs|
  {
    if cs == [] then [] else Insert(cs[0], SortByLength(cs[1..]))
  }

  /** The sorted list is non-decreasing in length. */
  lemma {:induction false} SortIsSorted(cs: seq<Candidate>)
    ensures Sorted(SortByLength(cs))
  {
    if cs != [] {
      SortIsSorted(cs[1..]);
      InsertKeepsSorted(cs[0], SortByLength(cs[1..]));
    }
  }

  /** The sorted list is a permutation of the input: every entry is kept, none is added. */
  lemma {:induction false} SortIsPermutation(cs: seq<Candidate>)
    ensures multiset(SortByLength(cs)) == multiset(cs)
  {
    if cs != [] {
      SortIsPermutation(cs[1..]);
      InsertAddsOne(cs[0], SortByLength(cs[1..]));
      assert cs == [cs[0]] + cs[1..];
    }
  }

  /** Inserting into a sorted list keeps, for each length, the relative order of the entries of that length. */
  lemma {:induction false} InsertWithLength(c: Candidate, cs: seq<Candidate>, k: real)
    requires Sorted(cs)
    ensures WithLength(Insert(c, cs), k) == if c.length == k then [c] + WithLength(cs, k) else WithLength(cs, k)
  {
    if cs == [] {
      assert [c][1..] == [];
    } else if c.length <= cs[0].length {
      assert ([c] + cs)[1..] == cs;
    } else {
      var rest := Insert(c, cs[1..]);
      assert ([cs[0]] + rest)[1..] == rest;
      InsertWithLength(c, cs[1..], k);
    }
  }

  /**
   * The sort is stable: for every length, the entries of exactly that length
   * appear in the sorted list in the order they were generated.
   */
  lemma {:induction false} SortIsStable(cs: seq<Candidate>, k: real)
    ensures WithLength(SortByLength(cs), k) == WithLength(cs, k)
  {
    if cs != [] {
      SortIsStable(cs[1..], k);
      SortIsSorted(cs[1..]);
      InsertWithLength(cs[0], SortByLength(cs[1..]), k);
    }
  }

  /** A list that is already in order is returned unchanged. */
  lemma {:induction false} SortOfSortedIsIdentity(cs: seq<Candidate>)
    requires Sorted(cs)
    ensures SortByLength(cs) == cs
  {
    if cs != [] {
      SortOfSortedIsIdentity(cs[1..]);
    }
  }

  /** The head of the sorted list is a shortest entry: no entry is shorter. */
  lemma {:induction false} SortHeadIsShortest(cs: seq<Candidate>)
    requires cs != []
    ensures forall k :: 0 <= k < |cs| ==> SortByLength(cs)[0].length <= cs[k].length
  {
    var t := SortByLength(cs[1..]);
    if t != [] {
      SortHeadIsShortest(cs[1..]);
      var h := SortByLength(cs)[0];
      assert h.length <= cs[0].length && h.length <= t[0].length;
      forall k | 1 <= k < |cs|
        ensures h.length <= cs[k].length
      {
        assert cs[k] == cs[1..][k - 1];
      }
    }
  }

  /**
   * The head of the sorted list is the earliest generated among the shortest
   * entries: it stands at some position `j` of the unsorted list, and every
   * entry generated before it is strictly longer.
   */
  lemma {:induction false} SortHeadIsEarliestShortest(cs: seq<Candidate>) returns (j: nat)
    requires cs != []
    ensures j < |cs| && cs[j] == SortByLength(cs)[0]
    ensures forall k :: 0 <= k < j ==> cs[k].length > cs[j].length
  {
    var t := SortByLength(cs[1..]);
    if t == [] || cs[0].length <= t[0].length {
      j := 0;
    } else {
      var j' := SortHeadIsEarliestShortest(cs[1..]);
      j := j' + 1;
      forall k | 1 <= k < j
        ensures cs[k].length > cs[j].length
      {
        assert cs[k] == cs[1..][k - 1];
      }
    }
  }
}
