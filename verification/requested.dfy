/** Helpers on requested wavelengths: the chopper-range check, the band
    dictionary and its conversion to TOF
    (shutter_value_generator/make_shutter_value_file.py, lines 227-240 and 293-310).
    An `OrderedDict` is a sequence of entries with distinct keys, in insertion order. */
module Requested {
  import opened Results
  import opened ShutterConstants
  import opened Conversion

  /** An OrderedDict from float keys to float lists: the keys in insertion
      order and the key/value mapping. */
  datatype OrderedDict = OrderedDict(keys: seq<real>, values: map<real, seq<real>>)

  predicate Distinct(s: seq<real>)
  {
    forall i, j | 0 <= i < j < |s| :: s[i] != s[j]
  }

  /** Keys are listed once each, and exactly the mapped keys are listed. */
  ghost predicate Valid(d: OrderedDict)
  {
    Distinct(d.keys) && forall k :: k in d.values <==> k in d.keys
  }

  const Empty: OrderedDict := OrderedDict([], map[])

  /** `d[k] = v`: an existing key keeps its place, a new key goes last. */
  function Put(d: OrderedDict, k: real, v: seq<real>): (r: OrderedDict)
    requires Valid(d)
    ensures Valid(r)
  {
    if k in d.values then OrderedDict(d.keys, d.values[k := v])
    else OrderedDict(d.keys + [k], d.values[k := v])
  }

  /** `d[ks[i]] = vs[i]` for i = 0, 1, ... in turn, starting from an empty dictionary. */
  function InsertAll(ks: seq<real>, vs: seq<seq<real>>): (r: OrderedDict)
    requires |ks| == |vs|
    ensures Valid(r)
    ensures forall k :: k in r.values <==> k in ks
  {
    if |ks| == 0 then Empty
    else
      var n := |ks| - 1;
      assert forall k | k in ks :: k in ks[..n] || k == ks[n];
      Put(InsertAll(ks[..n], vs[..n]), ks[n], vs[n])
  }

  /** A key that is not assigned again later keeps the value assigned at i. */
  lemma {:induction false} InsertAllLastWins(ks: seq<real>, vs: seq<seq<real>>, i: nat)
    requires |ks| == |vs| && i < |ks|
    requires forall j | i < j < |ks| :: ks[j] != ks[i]
    ensures InsertAll(ks, vs).values[ks[i]] == vs[i]
  {
    var n := |ks| - 1;
    var prev := InsertAll(ks[..n], vs[..n]);
    assert InsertAll(ks, vs) == Put(prev, ks[n], vs[n]);
    assert InsertAll(ks, vs).values == prev.values[ks[n] := vs[n]];
    if i < n {
      assert ks[..n][i] == ks[i] && vs[..n][i] == vs[i];
      InsertAllLastWins(ks[..n], vs[..n], i);
    }
  }

  /** Every key's value is one of the values assigned to it. */
  lemma {:induction false} InsertAllValueFromSomePair(ks: seq<real>, vs: seq<seq<real>>, k: real)
    requires |ks| == |vs| && k in ks
    ensures exists j | 0 <= j < |ks| :: ks[j] == k && InsertAll(ks, vs).values[k] == vs[j]
  {
    var n := |ks| - 1;
    if ks[n] != k {
      assert k in ks[..n];
      InsertAllValueFromSomePair(ks[..n], vs[..n], k);
      var j :| 0 <= j < n && ks[..n][j] == k && InsertAll(ks[..n], vs[..n]).values[k] == vs[..n][j];
      assert ks[j] == k && vs[j] == vs[..n][j];
    }
  }

  /** Assigning distinct keys lists them in assignment order. */
  lemma {:induction false} InsertAllKeysInOrder(ks: seq<real>, vs: seq<seq<real>>)
    requires |ks| == |vs| && Distinct(ks)
    ensures InsertAll(ks, vs).keys == ks
  {
    if |ks| > 0 {
      var n := |ks| - 1;
      InsertAllKeysInOrder(ks[..n], vs[..n]);
      assert ks[n] !in ks[..n];
      assert ks[..n] + [ks[n]] == ks;
    }
  }

  /** The band [wavelength - 0.3, wavelength + 0.3] measured around a requested wavelength. */
  function Band(wavelength: real): seq<real>
  {
    [wavelength - MinLambdaPeakValueFromEdgeOfFrame, wavelength + MinLambdaPeakValueFromEdgeOfFrame]
  }

  /** `initialize_list_of_wavelength_requested_dictionary`: every requested
      wavelength mapped to its band; a repeated wavelength keeps one entry. */
  function InitializeRequestedDictionary(lambdas: seq<real>): (d: OrderedDict)
    ensures Valid(d)
    ensures forall k :: k in d.values <==> k in lambdas
    ensures forall k | k in d.values :: d.values[k] == Band(k)
    ensures Distinct(lambdas) ==> d.keys == lambdas
  {
    var bands := seq(|lambdas|, i requires 0 <= i < |lambdas| => Band(lambdas[i]));
    var d := InsertAll(lambdas, bands);
    assert forall k | k in d.values :: d.values[k] == Band(k) by {
      forall k | k in d.values
        ensures d.values[k] == Band(k)
      {
        InsertAllValueFromSomePair(lambdas, bands, k);
      }
    }
    assert Distinct(lambdas) ==> d.keys == lambdas by {
      if Distinct(lambdas) {
        InsertAllKeysInOrder(lambdas, bands);
      }
    }
    d
  }

  /** `convert_lambda_dict_to_tof`: each key becomes its TOF and its band the
      list of the band's TOFs, inserted in the dictionary's key order. Keys whose
      TOFs coincide (possible only with a zero distance) share one entry. */
  function ConvertLambdaDictToTof(d: OrderedDict, offset: real, distance: real, units: Units): (r: OrderedDict)
    requires Valid(d)
    ensures Valid(r)
    ensures forall k | k in d.values :: LambdaToTof(k, offset, distance, units) in r.values
    ensures forall t | t in r.values :: exists i | 0 <= i < |d.keys| ::
              && t == LambdaToTof(d.keys[i], offset, distance, units)
              && r.values[t] == ConvertLambdaToTof(d.values[d.keys[i]], offset, distance, units)
  {
    var tofKeys := ConvertLambdaToTof(d.keys, offset, distance, units);
    var tofBands := ConvertedBands(d, offset, distance, units);
    var r := InsertAll(tofKeys, tofBands);
    assert forall k | k in d.values :: LambdaToTof(k, offset, distance, units) in r.values by {
      forall k | k in d.values
        ensures LambdaToTof(k, offset, distance, units) in r.values
      {
        var i :| 0 <= i < |d.keys| && d.keys[i] == k;
        assert tofKeys[i] in tofKeys;
      }
    }
    assert forall t | t in r.values :: exists i | 0 <= i < |d.keys| ::
              && t == LambdaToTof(d.keys[i], offset, distance, units)
              && r.values[t] == ConvertLambdaToTof(d.values[d.keys[i]], offset, distance, units) by {
      forall t | t in r.values
        ensures exists i | 0 <= i < |d.keys| ::
                  && t == LambdaToTof(d.keys[i], offset, distance, units)
                  && r.values[t] == ConvertLambdaToTof(d.values[d.keys[i]], offset, distance, units)
      {
        assert t in tofKeys;
        InsertAllValueFromSomePair(tofKeys, tofBands, t);
        var j :| 0 <= j < |tofKeys| && tofKeys[j] == t && r.values[t] == tofBands[j];
        assert t == LambdaToTof(d.keys[j], offset, distance, units);
      }
    }
    r
  }

  lemma KeysAreMapped(d: OrderedDict)
    requires Valid(d)
    ensures forall i | 0 <= i < |d.keys| :: d.keys[i] in d.values
  {
    forall i | 0 <= i < |d.keys|
      ensures d.keys[i] in d.values
    {
      assert d.keys[i] in d.keys;
    }
  }

  /** The converted band of every key, in key order. */
  function ConvertedBands(d: OrderedDict, offset: real, distance: real, units: Units): (bands: seq<seq<real>>)
    requires Valid(d)
    ensures |bands| == |d.keys|
  {
    KeysAreMapped(d);
    seq(|d.keys|, i requires 0 <= i < |d.keys| =>
          ConvertLambdaToTof(d.values[d.keys[i]], offset, distance, units))
  }

  /** For a non-zero distance the conversion goes entry by entry: the keys are
      the converted keys in the same order, each with its converted band. */
  lemma ConvertLambdaDictEntrywise(d: OrderedDict, offset: real, distance: real, units: Units)
    requires Valid(d) && distance != 0.0
    ensures var r := ConvertLambdaDictToTof(d, offset, distance, units);
            && r.keys == ConvertLambdaToTof(d.keys, offset, distance, units)
            && forall k | k in d.values ::
                 r.values[LambdaToTof(k, offset, distance, units)]
                 == ConvertLambdaToTof(d.values[k], offset, distance, units)
  {
    var tofKeys := ConvertLambdaToTof(d.keys, offset, distance, units);
    forall i, j | 0 <= i < j < |tofKeys|
      ensures tofKeys[i] != tofKeys[j]
    {
      if tofKeys[i] == tofKeys[j] {
        LambdaToTofInjective(d.keys[i], d.keys[j], offset, distance, units);
      }
    }
    InsertAllKeysInOrder(tofKeys, ConvertedBands(d, offset, distance, units));
    var r := ConvertLambdaDictToTof(d, offset, distance, units);
    forall k | k in d.values
      ensures r.values[LambdaToTof(k, offset, distance, units)]
              == ConvertLambdaToTof(d.values[k], offset, distance, units)
    {
      var t := LambdaToTof(k, offset, distance, units);
      var i :| 0 <= i < |d.keys| && t == LambdaToTof(d.keys[i], offset, distance, units)
               && r.values[t] == ConvertLambdaToTof(d.values[d.keys[i]], offset, distance, units);
      LambdaToTofInjective(k, d.keys[i], offset, distance, units);
    }
  }

  /** `check_overlap_wavelength_requested_with_chopper_settings`: the band of
      every requested wavelength must lie inside the chopper range
      [range[0], range[1]]; the first one that does not is reported. */
  method CheckOverlapWithChopperSettings(lambdas: seq<real>, range: seq<real>) returns (r: Outcome<int>)
    requires |range| >= 2
    ensures r.Pass? <==> forall i | 0 <= i < |lambdas| :: BandInsideRange(lambdas[i], range)
    ensures r.Fail? ==> 0 <= r.error < |lambdas| && !BandInsideRange(lambdas[r.error], range)
                        && forall i | 0 <= i < r.error :: BandInsideRange(lambdas[i], range)
  {
    var i := 0;
    while i < |lambdas|
      invariant 0 <= i <= |lambdas|
      invariant forall j | 0 <= j < i :: BandInsideRange(lambdas[j], range)
    {
      var wavelength := lambdas[i];
      if wavelength - MinLambdaPeakValueFromEdgeOfFrame < range[0]
         || wavelength + MinLambdaPeakValueFromEdgeOfFrame > range[1] {
        return Fail(i);
      }
      i := i + 1;
    }
    return Pass;
  }

  /** The band [wavelength - 0.3, wavelength + 0.3] fits inside [range[0], range[1]]. */
  predicate BandInsideRange(wavelength: real, range: seq<real>)
    requires |range| >= 2
  {
    range[0] <= wavelength - MinLambdaPeakValueFromEdgeOfFrame && wavelength + MinLambdaPeakValueFromEdgeOfFrame <= range[1]
  }
}
