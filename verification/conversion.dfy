/** Wavelength <-> time-of-flight conversion of the MakeShutterValueFile class
    (shutter_value_generator/make_shutter_value_file.py). The distance is used
    exactly as given (the docstrings call it cm); wavelength is in Angstrom, the
    offset and the TOF in microseconds unless seconds are asked for. */
module Conversion {
  import opened Results
  import opened ShutterConstants

  /** The `output_units` argument: 's' selects seconds, anything else microseconds. */
  datatype Units = Micros | Seconds

  /** Factor from microseconds to seconds (the source's `1e-6`). */
  const MicrosToSeconds: real := 0.000001

  /** TOF of one wavelength: wavelength * distance / COEFF - offset, scaled to seconds on request. */
  function LambdaToTof(wavelength: real, offset: real, distance: real, units: Units): real
  {
    var tof := wavelength * distance / Coeff - offset;
    if units == Seconds then tof * MicrosToSeconds else tof
  }

  /** `convert_lambda_to_tof`: the conversion applied element by element. */
  function ConvertLambdaToTof(lambdas: seq<real>, offset: real, distance: real, units: Units): (tofs: seq<real>)
    ensures |tofs| == |lambdas|
    ensures forall i | 0 <= i < |lambdas| :: tofs[i] == LambdaToTof(lambdas[i], offset, distance, units)
  {
    if |lambdas| == 0 then []
    else ConvertLambdaToTof(lambdas[..|lambdas| - 1], offset, distance, units)
         + [LambdaToTof(lambdas[|lambdas| - 1], offset, distance, units)]
  }

  /** `convert_tof_to_lambda`: (offset + tof) * COEFF / distance, in Angstrom.
      A zero distance is Python's ZeroDivisionError, modelled as None. */
  function TofToLambda(tof: real, offset: real, distance: real): (wavelength: Option<real>)
    ensures wavelength.Some? <==> distance != 0.0
  {
    if distance == 0.0 then None else Some((offset + tof) * Coeff / distance)
  }

  /** `calculate_minimum_measurable_lambda`: defined only when both the distance
      and the offset are set and non-zero (Python truthiness); otherwise None. */
  function MinimumMeasurableLambda(distance: Option<real>, offset: Option<real>): (wavelength: Option<real>)
    ensures wavelength.Some? <==> distance.Some? && distance.value != 0.0 && offset.Some? && offset.value != 0.0
    ensures wavelength.Some? ==> Some(wavelength.value) == TofToLambda(0.0, offset.value, distance.value)
  {
    if distance.Some? && distance.value != 0.0 && offset.Some? && offset.value != 0.0
    then Some(offset.value * Coeff / distance.value)
    else None
  }

  /** Converting a wavelength to microseconds and back gives the wavelength. */
  lemma RoundTrip(wavelength: real, offset: real, distance: real)
    requires distance != 0.0
    ensures TofToLambda(LambdaToTof(wavelength, offset, distance, Micros), offset, distance) == Some(wavelength)
  {
    var t := wavelength * distance / Coeff;
    assert LambdaToTof(wavelength, offset, distance, Micros) == t - offset;
    assert t * Coeff == wavelength * distance;
    assert (offset + (t - offset)) * Coeff / distance == wavelength;
  }

  /** Converting a TOF (microseconds) to a wavelength and back gives the TOF. */
  lemma InverseRoundTrip(tof: real, offset: real, distance: real)
    requires distance != 0.0
    ensures LambdaToTof(TofToLambda(tof, offset, distance).value, offset, distance, Micros) == tof
  {
    var l := (offset + tof) * Coeff / distance;
    assert l * distance == (offset + tof) * Coeff;
    assert l * distance / Coeff == offset + tof;
  }

  /** The seconds output is the microseconds output times 1e-6. */
  lemma SecondsAreScaledMicros(lambdas: seq<real>, offset: real, distance: real)
    ensures forall i | 0 <= i < |lambdas| ::
              ConvertLambdaToTof(lambdas, offset, distance, Seconds)[i]
              == ConvertLambdaToTof(lambdas, offset, distance, Micros)[i] * MicrosToSeconds
  {
  }

  /** For a positive distance the TOF strictly increases with the wavelength. */
  lemma LambdaToTofStrictlyIncreasing(l1: real, l2: real, offset: real, distance: real, units: Units)
    requires distance > 0.0 && l1 < l2
    ensures LambdaToTof(l1, offset, distance, units) < LambdaToTof(l2, offset, distance, units)
  {
    assert l1 * distance < l2 * distance;
    assert l1 * distance / Coeff < l2 * distance / Coeff;
  }

  /** Time-of-flight differences scale the wavelength differences by distance / COEFF. */
  lemma TofDifference(l1: real, l2: real, offset: real, distance: real, units: Units)
    ensures LambdaToTof(l2, offset, distance, units) - LambdaToTof(l1, offset, distance, units)
            == (l2 - l1) * distance / Coeff * (if units == Seconds then MicrosToSeconds else 1.0)
  {
  }

  /** A list in strictly ascending order. */
  predicate StrictlyAscending(s: seq<real>)
  {
    forall i, j | 0 <= i < j < |s| :: s[i] < s[j]
  }

  /** For a positive distance the converted list keeps a strictly ascending order. */
  lemma ConvertKeepsStrictOrder(lambdas: seq<real>, offset: real, distance: real, units: Units)
    requires distance > 0.0 && StrictlyAscending(lambdas)
    ensures StrictlyAscending(ConvertLambdaToTof(lambdas, offset, distance, units))
  {
    var tofs := ConvertLambdaToTof(lambdas, offset, distance, units);
    forall i, j | 0 <= i < j < |tofs|
      ensures tofs[i] < tofs[j]
    {
      LambdaToTofStrictlyIncreasing(lambdas[i], lambdas[j], offset, distance, units);
    }
  }

  /** Every converted TOF (microseconds) converts back to its wavelength. */
  lemma ConvertedListRoundTrip(lambdas: seq<real>, offset: real, distance: real)
    requires distance != 0.0
    ensures forall i | 0 <= i < |lambdas| ::
              TofToLambda(ConvertLambdaToTof(lambdas, offset, distance, Micros)[i], offset, distance)
              == Some(lambdas[i])
  {
    forall i | 0 <= i < |lambdas|
      ensures TofToLambda(ConvertLambdaToTof(lambdas, offset, distance, Micros)[i], offset, distance)
              == Some(lambdas[i])
    {
      RoundTrip(lambdas[i], offset, distance);
    }
  }

  /** For a non-zero distance two wavelengths with the same TOF are equal. */
  lemma LambdaToTofInjective(l1: real, l2: real, offset: real, distance: real, units: Units)
    requires distance != 0.0
    requires LambdaToTof(l1, offset, distance, units) == LambdaToTof(l2, offset, distance, units)
    ensures l1 == l2
  {
    if units == Seconds {
      assert LambdaToTof(l1, offset, distance, Micros) == LambdaToTof(l2, offset, distance, Micros);
    }
    RoundTrip(l1, offset, distance);
    RoundTrip(l2, offset, distance);
  }
}
