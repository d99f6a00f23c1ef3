/** The gap helpers of the wizard scripts: `find_largest_gaps`,
    `calculate_mid_value` and the negative-TOF filter
    (create_shutter_value_file_step1.py, lines 58-64 and 75-78; the same
    `find_largest_gaps` appears in preview_bragg_peak_requested.py, lines 79-86). */
module Gaps {
  import opened ScriptConversion

  /** `np.diff`: the differences of consecutive elements. */
  function Diff(data: seq<real>): (gaps: seq<real>)
    ensures |gaps| == if |data| == 0 then 0 else |data| - 1
  {
    if |data| <= 1 then []
    else seq(|data| - 1, i requires 0 <= i < |data| - 1 => data[i + 1] - data[i])
  }

  predicate NonIncreasing(s: seq<real>)
  {
    forall i, j | 0 <= i < j < |s| :: s[i] >= s[j]
  }

  predicate Ascending(s: seq<real>)
  {
    forall i, j | 0 <= i < j < |s| :: s[i] <= s[j]
  }

  /** Inserts `x` into a non-increasing list, keeping it non-increasing. */
  function Insert(x: real, s: seq<real>): (r: seq<real>)
    requires NonIncreasing(s)
    ensures NonIncreasing(r)
    ensures multiset(r) == multiset(s) + multiset{x}
  {
    if |s| == 0 then [x]
    else if x >= s[0] then [x] + s
    else
      var rest := Insert(x, s[1..]);
      assert s == [s[0]] + s[1..];
      assert forall i | 0 <= i < |rest| :: rest[i] <= s[0] by {
        forall i | 0 <= i < |rest|
          ensures rest[i] <= s[0]
        {
          assert rest[i] in multiset(rest);
          if rest[i] != x {
            assert rest[i] in multiset(s[1..]);
            var j :| 0 <= j < |s[1..]| && s[1..][j] == rest[i];
            assert s[j + 1] == rest[i];
          }
        }
      }
      assert multiset([s[0]] + rest) == multiset{s[0]} + multiset(rest);
      [s[0]] + rest
  }

  /** `sorted(s, reverse=True)`. */
  function SortDescending(s: seq<real>): (r: seq<real>)
    ensures NonIncreasing(r)
    ensures multiset(r) == multiset(s)
  {
    if |s| == 0 then []
    else
      assert s == [s[0]] + s[1..];
      Insert(s[0], SortDescending(s[1..]))
  }

  /** Python's `s[:k]`: a negative k drops |k| elements from the end. */
  function PrefixSlice(s: seq<real>, k: int): (r: seq<real>)
    ensures k >= 0 ==> |r| == if k < |s| then k else |s|
    ensures k < 0 ==> |r| == if |s| + k > 0 then |s| + k else 0
    ensures r == s[..|r|]
  {
    if k >= 0 then (if k < |s| then s[..k] else s)
    else if |s| + k > 0 then s[..|s| + k] else []
  }

  /** `find_largest_gaps(data, k)`: the k largest consecutive differences, largest first. */
  function FindLargestGaps(data: seq<real>, k: int): (largest: seq<real>)
    ensures k >= 0 ==> |largest| == if k < |Diff(data)| then k else |Diff(data)|
    ensures k < 0 ==> |largest| == if |Diff(data)| + k > 0 then |Diff(data)| + k else 0
    ensures NonIncreasing(largest)
    ensures multiset(largest) <= multiset(Diff(data))
    ensures forall i | 0 <= i < |largest| :: largest[i] in Diff(data)
    ensures forall g | g in multiset(Diff(data)) - multiset(largest) ::
              forall i | 0 <= i < |largest| :: g <= largest[i]
  {
    var sorted := SortDescending(Diff(data));
    SlicedRanking(Diff(data), sorted, k);
    PrefixSlice(sorted, k)
  }

  /** Python's `[:k]` of a descending ranking of `values` keeps the largest of
      them, largest first; its length follows from the slice. */
  lemma SlicedRanking(values: seq<real>, sorted: seq<real>, k: int)
    requires NonIncreasing(sorted) && multiset(sorted) == multiset(values)
    ensures var largest := PrefixSlice(sorted, k);
            && (k >= 0 ==> |largest| == if k < |values| then k else |values|)
            && (k < 0 ==> |largest| == if |values| + k > 0 then |values| + k else 0)
            && NonIncreasing(largest)
            && multiset(largest) <= multiset(values)
            && (forall i | 0 <= i < |largest| :: largest[i] in values)
            && (forall g | g in multiset(values) - multiset(largest) ::
                  forall i | 0 <= i < |largest| :: g <= largest[i])
  {
    assert |sorted| == |multiset(sorted)| == |multiset(values)| == |values|;
    var largest := PrefixSlice(sorted, k);
    TopOfSorted(sorted, |largest|);
    assert largest == sorted[..|largest|];
    forall i | 0 <= i < |largest|
      ensures largest[i] in values
    {
      assert largest[i] in multiset(sorted);
    }
  }

  /** The first m elements of a non-increasing list are its m largest: every
      other element is at most each of them. */
  lemma TopOfSorted(sorted: seq<real>, m: nat)
    requires NonIncreasing(sorted) && m <= |sorted|
    ensures multiset(sorted[..m]) <= multiset(sorted)
    ensures forall g | g in multiset(sorted) - multiset(sorted[..m]) :: forall i | 0 <= i < m :: g <= sorted[i]
  {
    assert sorted == sorted[..m] + sorted[m..];
    assert multiset(sorted) == multiset(sorted[..m]) + multiset(sorted[m..]);
    assert multiset(sorted) - multiset(sorted[..m]) == multiset(sorted[m..]);
    forall g | g in multiset(sorted) - multiset(sorted[..m])
      ensures forall i | 0 <= i < m :: g <= sorted[i]
    {
      assert g in sorted[m..];
      var j :| m <= j < |sorted| && sorted[j] == g;
    }
  }

  /** `calculate_mid_value`: half a gap. */
  function CalculateMidValue(gap: real): real
  {
    gap / 2.0
  }

  /** The centre of a gap, `left + calculate_mid_value(right - left)`, lies
      between its two ends, strictly when the gap is not empty. */
  lemma GapCentreInside(left: real, right: real)
    requires left <= right
    ensures left <= left + CalculateMidValue(right - left) <= right
    ensures left < right ==> left < left + CalculateMidValue(right - left) < right
  {
  }

  /** The differences of an ascending list are never negative. */
  lemma AscendingGapsNonNegative(data: seq<real>)
    requires Ascending(data)
    ensures forall i | 0 <= i < |Diff(data)| :: Diff(data)[i] >= 0.0
  {
  }

  /** On an ascending list every reported gap is non-negative, at most k are
      reported, and each gap's centre lies between its two ends. */
  lemma LargestGapsOfAscending(data: seq<real>, k: int)
    requires Ascending(data)
    ensures forall i | 0 <= i < |FindLargestGaps(data, k)| :: FindLargestGaps(data, k)[i] >= 0.0
    ensures forall i | 0 <= i < |data| - 1 ::
              data[i] <= data[i] + CalculateMidValue(data[i + 1] - data[i]) <= data[i + 1]
  {
    var largest := FindLargestGaps(data, k);
    AscendingGapsNonNegative(data);
    forall i | 0 <= i < |largest|
      ensures largest[i] >= 0.0
    {
      var j :| 0 <= j < |Diff(data)| && Diff(data)[j] == largest[i];
    }
  }

  /** Indices whose TOF is not negative, in increasing order: the indices
      `np.delete` keeps after removing those where `tof < 0`. */
  function KeptIndices(tofs: seq<real>): (kept: seq<nat>)
    ensures forall j | 0 <= j < |kept| :: kept[j] < |tofs| && tofs[kept[j]] >= 0.0
    ensures forall j, l | 0 <= j < l < |kept| :: kept[j] < kept[l]
    ensures forall i | 0 <= i < |tofs| :: i in kept <==> tofs[i] >= 0.0
  {
    if |tofs| == 0 then []
    else
      var n := |tofs| - 1;
      var prev := KeptIndices(tofs[..n]);
      assert forall j | 0 <= j < |prev| :: tofs[..n][prev[j]] == tofs[prev[j]];
      if tofs[n] >= 0.0 then prev + [n] else prev
  }

  /** The negative-TOF filter: removes the same indices from both lists. */
  function FilterNegativeTofs(tofs: seq<real>, lambdas: seq<real>): (kept: (seq<real>, seq<real>))
    requires |tofs| == |lambdas|
    ensures |kept.0| == |kept.1| == |KeptIndices(tofs)|
    ensures forall j | 0 <= j < |kept.0| :: kept.0[j] >= 0.0
    ensures forall j | 0 <= j < |kept.0| ::
              kept.0[j] == tofs[KeptIndices(tofs)[j]] && kept.1[j] == lambdas[KeptIndices(tofs)[j]]
  {
    var idx := KeptIndices(tofs);
    (seq(|idx|, j requires 0 <= j < |idx| => tofs[idx[j]]),
     seq(|idx|, j requires 0 <= j < |idx| => lambdas[idx[j]]))
  }

  /** The TOFs of a list of wavelengths, as the wizard computes them. */
  function ScriptTofs(lambdas: seq<real>, offset: real, distanceMetres: real): (tofs: seq<real>)
    ensures |tofs| == |lambdas|
    ensures forall i | 0 <= i < |lambdas| :: tofs[i] == FromLambdaToTof(lambdas[i], offset, distanceMetres)
  {
    seq(|lambdas|, i requires 0 <= i < |lambdas| => FromLambdaToTof(lambdas[i], offset, distanceMetres))
  }

  /** With the offset derived from the minimum wavelength, the filter keeps
      exactly the requested wavelengths not below that minimum. */
  lemma FilterKeepsReachableWavelengths(lambdas: seq<real>, lambdaMin: real, distanceMetres: real)
    requires distanceMetres > 0.0
    ensures var tofs := ScriptTofs(lambdas, ConvertLambdaIntoOffset(lambdaMin, distanceMetres), distanceMetres);
            var kept := FilterNegativeTofs(tofs, lambdas);
            && (forall j | 0 <= j < |kept.1| :: kept.1[j] >= lambdaMin)
            && (forall i | 0 <= i < |lambdas| && lambdas[i] >= lambdaMin :: lambdas[i] in kept.1)
  {
    var offset := ConvertLambdaIntoOffset(lambdaMin, distanceMetres);
    var tofs := ScriptTofs(lambdas, offset, distanceMetres);
    var kept := FilterNegativeTofs(tofs, lambdas);
    var idx := KeptIndices(tofs);
    forall j | 0 <= j < |kept.1|
      ensures kept.1[j] >= lambdaMin
    {
      OffsetSign(lambdas[idx[j]], lambdaMin, distanceMetres);
    }
    forall i | 0 <= i < |lambdas| && lambdas[i] >= lambdaMin
      ensures lambdas[i] in kept.1
    {
      OffsetSign(lambdas[i], lambdaMin, distanceMetres);
      assert i in idx;
      var j :| 0 <= j < |idx| && idx[j] == i;
      assert kept.1[j] == lambdas[i];
    }
  }

  /** For a positive distance the TOFs of an ascending wavelength list are
      ascending, so all their gaps are non-negative. */
  lemma AscendingWavelengthsGiveAscendingTofs(lambdas: seq<real>, offset: real, distanceMetres: real)
    requires distanceMetres > 0.0 && Ascending(lambdas)
    ensures Ascending(ScriptTofs(lambdas, offset, distanceMetres))
  {
    var tofs := ScriptTofs(lambdas, offset, distanceMetres);
    forall i, j | 0 <= i < j < |tofs|
      ensures tofs[i] <= tofs[j]
    {
      ScriptTofMonotonic(lambdas[i], lambdas[j], offset, distanceMetres);
    }
  }
}
