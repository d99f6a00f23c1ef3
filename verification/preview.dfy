/** The helpers of preview_bragg_peak_requested.py (lines 44-86), with the
    module globals as parameters: the forward conversion uses the distance the
    user gave, while `from_tof_to_lambda` hard-codes 25 m. */
module Preview {
  import opened ScriptConversion
  import opened Gaps

  /** The distance `from_tof_to_lambda` uses whatever the user entered, and the
      default of `--detector_sample_distance`. */
  const PreviewDistance: real := 25.0

  /** Default of `--number_of_gaps_to_display`. */
  const DefaultGapsToDisplay: int := 6

  /** `from_tof_to_lambda` of the preview script. */
  function PreviewTofToLambda(tof: real, offset: real): real
  {
    (tof + offset) / MicrosPerAngstrom(PreviewDistance)
  }

  /** The preview round trip scales the wavelength by d / 25, so it returns the
      wavelength only for the default distance (or a zero wavelength). */
  lemma PreviewRoundTrip(wavelength: real, offset: real, distanceMetres: real)
    ensures PreviewTofToLambda(FromLambdaToTof(wavelength, offset, distanceMetres), offset)
            == wavelength * distanceMetres / PreviewDistance
    ensures PreviewTofToLambda(FromLambdaToTof(wavelength, offset, distanceMetres), offset) == wavelength
            <==> distanceMetres == PreviewDistance || wavelength == 0.0
  {
    var c := MicrosPerAngstrom(distanceMetres);
    var c25 := MicrosPerAngstrom(PreviewDistance);
    assert c25 == 2500.0 / ScriptCoeff;
    assert FromLambdaToTof(wavelength, offset, distanceMetres) + offset == wavelength * c;
    assert wavelength * c / c25 == wavelength * distanceMetres / PreviewDistance;
    if wavelength * distanceMetres / PreviewDistance == wavelength && wavelength != 0.0 {
      assert wavelength * distanceMetres == wavelength * PreviewDistance;
      assert wavelength * (distanceMetres - PreviewDistance) == 0.0;
    }
  }

  /** The preview's `find_largest_gaps` on the TOFs of the sorted requested
      wavelengths: with a positive distance the gaps reported are none negative,
      largest first, each a consecutive TOF gap; a non-negative `numberOfGaps`
      bounds their number, and the default of 6 reports the 6 largest gaps
      (or all of them when there are fewer). */
  lemma PreviewLargestGaps(lambdas: seq<real>, offset: real, distanceMetres: real, numberOfGaps: int)
    requires distanceMetres > 0.0 && Ascending(lambdas)
    ensures var tofs := ScriptTofs(lambdas, offset, distanceMetres);
            var largest := FindLargestGaps(tofs, numberOfGaps);
            && (numberOfGaps >= 0 ==> |largest| <= numberOfGaps)
            && (numberOfGaps == DefaultGapsToDisplay ==>
                  |largest| == if |Diff(tofs)| < DefaultGapsToDisplay then |Diff(tofs)| else DefaultGapsToDisplay)
            && NonIncreasing(largest)
            && forall i | 0 <= i < |largest| :: largest[i] >= 0.0 && largest[i] in Diff(tofs)
  {
    var tofs := ScriptTofs(lambdas, offset, distanceMetres);
    AscendingWavelengthsGiveAscendingTofs(lambdas, offset, distanceMetres);
    LargestGapsOfAscending(tofs, numberOfGaps);
  }
}
