/** The conversion helpers of the wizard scripts (create_shutter_value_file_step1.py,
    lines 27-55, and preview_bragg_peak_requested.py, lines 54-76). Unlike the
    class, they take the distance in metres, scale it by 100 to cm, and use the
    rounded coefficient 0.3956. The script globals are parameters. */
module ScriptConversion {
  import opened Results

  const ScriptCoeff: real := 0.3956

  /** TOF per Angstrom, in microseconds, for a distance in metres. */
  function MicrosPerAngstrom(distanceMetres: real): real
  {
    distanceMetres * 100.0 / ScriptCoeff
  }

  /** `from_lambda_to_tof`: wavelength * (d * 100 / 0.3956) - offset. */
  function FromLambdaToTof(wavelength: real, offset: real, distanceMetres: real): real
  {
    wavelength * MicrosPerAngstrom(distanceMetres) - offset
  }

  /** `convert_lambda_into_offset`: the TOF of wavelength with no offset, used as the
      offset that puts wavelength at time zero. */
  function ConvertLambdaIntoOffset(wavelength: real, distanceMetres: real): real
  {
    wavelength * MicrosPerAngstrom(distanceMetres)
  }

  /** `from_tof_to_lambda`: (tof + offset) / (d * 100 / 0.3956); a zero distance
      is Python's ZeroDivisionError, modelled as None. */
  function FromTofToLambda(tof: real, offset: real, distanceMetres: real): (wavelength: Option<real>)
    ensures wavelength.Some? <==> distanceMetres != 0.0
  {
    var coeff := MicrosPerAngstrom(distanceMetres);
    if coeff == 0.0 then None else Some((tof + offset) / coeff)
  }

  /** Converting to TOF and back gives the wavelength. */
  lemma ScriptRoundTrip(wavelength: real, offset: real, distanceMetres: real)
    requires distanceMetres != 0.0
    ensures FromTofToLambda(FromLambdaToTof(wavelength, offset, distanceMetres), offset, distanceMetres) == Some(wavelength)
  {
    var c := MicrosPerAngstrom(distanceMetres);
    assert c != 0.0;
    var tof := FromLambdaToTof(wavelength, offset, distanceMetres);
    assert tof + offset == wavelength * c;
    assert (wavelength * c) / c == wavelength;
    assert FromTofToLambda(tof, offset, distanceMetres) == Some((tof + offset) / c);
  }

  /** Converting a TOF to a wavelength and back gives the TOF. */
  lemma ScriptInverseRoundTrip(tof: real, offset: real, distanceMetres: real)
    requires distanceMetres != 0.0
    ensures FromLambdaToTof(FromTofToLambda(tof, offset, distanceMetres).value, offset, distanceMetres) == tof
  {
    var c := MicrosPerAngstrom(distanceMetres);
    assert c != 0.0;
    assert (tof + offset) / c * c == tof + offset;
  }

  /** The offset derived from the minimum wavelength puts that wavelength at TOF 0. */
  lemma OffsetZeroesMinimum(lambdaMin: real, distanceMetres: real)
    ensures FromLambdaToTof(lambdaMin, ConvertLambdaIntoOffset(lambdaMin, distanceMetres), distanceMetres) == 0.0
  {
  }

  /** With that offset and a positive distance, the TOF has the sign of
      wavelength - lambdaMin: shorter wavelengths land before time zero. */
  lemma OffsetSign(wavelength: real, lambdaMin: real, distanceMetres: real)
    requires distanceMetres > 0.0
    ensures var tof := FromLambdaToTof(wavelength, ConvertLambdaIntoOffset(lambdaMin, distanceMetres), distanceMetres);
            && (tof < 0.0 <==> wavelength < lambdaMin)
            && (tof > 0.0 <==> wavelength > lambdaMin)
            && (tof == 0.0 <==> wavelength == lambdaMin)
  {
    var c := MicrosPerAngstrom(distanceMetres);
    assert c > 0.0;
    assert FromLambdaToTof(wavelength, ConvertLambdaIntoOffset(lambdaMin, distanceMetres), distanceMetres)
           == (wavelength - lambdaMin) * c;
  }

  /** For a positive distance the TOF is strictly increasing in the wavelength. */
  lemma ScriptTofMonotonic(l1: real, l2: real, offset: real, distanceMetres: real)
    requires distanceMetres > 0.0 && l1 <= l2
    ensures FromLambdaToTof(l1, offset, distanceMetres) <= FromLambdaToTof(l2, offset, distanceMetres)
    ensures l1 < l2 ==> FromLambdaToTof(l1, offset, distanceMetres) < FromLambdaToTof(l2, offset, distanceMetres)
  {
    var c := MicrosPerAngstrom(distanceMetres);
    assert c > 0.0;
    assert l1 * c <= l2 * c;
    assert l1 < l2 ==> l1 * c < l2 * c;
  }
}
