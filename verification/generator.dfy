/** The MakeShutterValueFile object: constructor validation and the `run`
    dispatch (shutter_value_generator/make_shutter_value_file.py, lines 41-134
    and 182-188). Writing the file is left to the caller: `run` returns the
    preset text, or the dead-time TOFs and frames it stores on the object. */
module Generator {
  import opened Results
  import opened ShutterConstants
  import opened Conversion
  import opened Frames

  /** The `epics_chopper_wavelength_range` argument. */
  datatype ChopperArg = NoChopperRange | ChopperNotAList | ChopperList(values: seq<real>)

  /** The `list_lambda_dead_time` argument of `run`. */
  datatype DeadTimeArg = NoDeadTimes | DeadTimesNotAList | DeadTimes(lambdas: seq<real>)

  /** The AttributeErrors of the constructor, in the order they are checked. */
  datatype ConfigError = MissingOutputFolder | MissingDistance | MissingOffset | BadChopperRange

  /** The ValueErrors of `run`. */
  datatype RunError = DeadTimesNotList | TooFewDeadTimes | DeadTimesTooClose

  /** A constructed MakeShutterValueFile. */
  datatype ShutterValueFile = ShutterValueFile(
    resonanceMode: bool,
    defaultValues: bool,
    outputFolder: string,
    distance: Option<real>,
    offset: Option<real>,
    chopperRange: ChopperArg)
  {
    /** What the constructor guarantees: outside the two preset modes the
        distance and the offset are set. */
    predicate Valid()
    {
      resonanceMode || defaultValues || (distance.Some? && offset.Some?)
    }
  }

  /** What `run` produces: a preset file text, or the computed TOFs and frames. */
  datatype RunOutput = PresetFile(text: string) | ComputedFrames(deadTimeTofs: seq<real>, frames: seq<Frame>)

  /** The constructor. The output folder is always required; the distance, the
      offset and a two-element chopper range only outside the preset modes. */
  function NewShutterValueFile(
    outputFolder: Option<string>,
    distance: Option<real>,
    offset: Option<real>,
    resonanceMode: bool,
    defaultValues: bool,
    chopperRange: ChopperArg): (r: Result<ShutterValueFile, ConfigError>)
    ensures r.Success? <==>
              && outputFolder.Some?
              && (|| resonanceMode || defaultValues
                  || (&& distance.Some? && offset.Some?
                      && chopperRange.ChopperList? && |chopperRange.values| == 2))
    ensures outputFolder.None? ==> r == Failure(MissingOutputFolder)
    ensures outputFolder.Some? && !resonanceMode && !defaultValues ==>
              (distance.None? ==> r == Failure(MissingDistance))
              && (distance.Some? && offset.None? ==> r == Failure(MissingOffset))
    ensures && outputFolder.Some? && !resonanceMode && !defaultValues && distance.Some? && offset.Some?
            && !(chopperRange.ChopperList? && |chopperRange.values| == 2)
            ==> r == Failure(BadChopperRange)
    ensures r.Success? ==> && r.value.Valid()
                           && r.value == ShutterValueFile(resonanceMode, defaultValues, outputFolder.value,
                                                          distance, offset, chopperRange)
  {
    if outputFolder.None? then Failure(MissingOutputFolder)
    else if !(resonanceMode || defaultValues) && distance.None? then Failure(MissingDistance)
    else if !(resonanceMode || defaultValues) && offset.None? then Failure(MissingOffset)
    else if !(resonanceMode || defaultValues)
            && !(chopperRange.ChopperList? && |chopperRange.values| == 2) then Failure(BadChopperRange)
    else Success(ShutterValueFile(resonanceMode, defaultValues, outputFolder.value, distance, offset, chopperRange))
  }

  /** Every consecutive pair of dead-time wavelengths is more than 0.3 Angstrom apart. */
  predicate WellSpaced(lambdas: seq<real>)
  {
    forall i | 0 <= i < |lambdas| - 1 :: lambdas[i + 1] - lambdas[i] > MinLambdaPeakValueInterval
  }

  /** `list_lambda_dead_time_too_close`: the first consecutive difference of at
      most 0.3 Angstrom (an exact 0.3 included) makes the list too close. */
  method ListLambdaDeadTimeTooClose(lambdas: seq<real>) returns (tooClose: bool)
    ensures tooClose <==> exists i | 0 <= i < |lambdas| - 1 :: lambdas[i + 1] - lambdas[i] <= MinLambdaPeakValueInterval
    ensures !tooClose <==> WellSpaced(lambdas)
  {
    var i := 0;
    while i < |lambdas| - 1
      invariant 0 <= i <= if |lambdas| == 0 then 0 else |lambdas| - 1
      invariant forall j | 0 <= j < i :: lambdas[j + 1] - lambdas[j] > MinLambdaPeakValueInterval
    {
      if lambdas[i + 1] - lambdas[i] <= MinLambdaPeakValueInterval {
        return true;
      }
      i := i + 1;
    }
    return false;
  }

  /** A well-spaced list is strictly ascending, and more: wavelengths k places
      apart differ by more than 0.3 k. So any list that is not strictly
      ascending is rejected as too close. */
  lemma {:induction false} WellSpacedIsStrictlyAscending(lambdas: seq<real>, i: nat, j: nat)
    requires WellSpaced(lambdas) && i < j < |lambdas|
    ensures lambdas[j] - lambdas[i] > MinLambdaPeakValueInterval * (j - i) as real
    ensures lambdas[i] < lambdas[j]
  {
    if j > i + 1 {
      WellSpacedIsStrictlyAscending(lambdas, i, j - 1);
    }
  }

  /** `run`: resonance mode wins, then default mode or a missing list gives the
      default preset; otherwise the list is validated (a list, at least two
      wavelengths, well spaced), converted to TOF in seconds, and split into frames. */
  method Run(g: ShutterValueFile, deadTimes: DeadTimeArg) returns (r: Result<RunOutput, RunError>)
    requires g.Valid()
    ensures g.resonanceMode ==> r == Success(PresetFile(ResonanceShutterValues))
    ensures !g.resonanceMode && (g.defaultValues || deadTimes.NoDeadTimes?) ==>
              r == Success(PresetFile(DefaultShutterValues))
    ensures !g.resonanceMode && !g.defaultValues && deadTimes.DeadTimesNotAList? ==>
              r == Failure(DeadTimesNotList)
    ensures !g.resonanceMode && !g.defaultValues && deadTimes.DeadTimes? ==>
              && (|deadTimes.lambdas| < 2 ==> r == Failure(TooFewDeadTimes))
              && (|deadTimes.lambdas| >= 2 && !WellSpaced(deadTimes.lambdas) ==> r == Failure(DeadTimesTooClose))
              && (|deadTimes.lambdas| >= 2 && WellSpaced(deadTimes.lambdas) ==>
                    && r.Success? && r.value.ComputedFrames?
                    && r.value.deadTimeTofs
                       == ConvertLambdaToTof(deadTimes.lambdas, g.offset.value, g.distance.value, Seconds)
                    && IsPartition(r.value.deadTimeTofs, r.value.frames))
  {
    if g.resonanceMode {
      return Success(PresetFile(ResonanceShutterValues));
    } else if g.defaultValues || deadTimes.NoDeadTimes? {
      return Success(PresetFile(DefaultShutterValues));
    }
    if deadTimes.DeadTimesNotAList? {
      return Failure(DeadTimesNotList);
    }
    var lambdas := deadTimes.lambdas;
    if |lambdas| < 2 {
      return Failure(TooFewDeadTimes);
    }
    var tooClose := ListLambdaDeadTimeTooClose(lambdas);
    if tooClose {
      return Failure(DeadTimesTooClose);
    }
    var tofs := ConvertLambdaToTof(lambdas, g.offset.value, g.distance.value, Seconds);
    var frames := MakeListTofFrames(tofs);
    return Success(ComputedFrames(tofs, frames));
  }

  /** With a positive distance large enough that 0.3 Angstrom spans at least
      2G of TOF, every frame between two accepted dead-time markers is open. */
  lemma InteriorFramesOpen(lambdas: seq<real>, offset: real, distance: real, frames: seq<Frame>)
    requires |lambdas| >= 2 && WellSpaced(lambdas)
    requires distance > 0.0
    requires LambdaToTof(MinLambdaPeakValueInterval, 0.0, distance, Seconds) >= 2.0 * MinTofBetweenFrames
    requires IsPartition(ConvertLambdaToTof(lambdas, offset, distance, Seconds), frames)
    ensures forall k | 1 <= k < |lambdas| :: Open(frames[k])
  {
    var tofs := ConvertLambdaToTof(lambdas, offset, distance, Seconds);
    forall k | 1 <= k < |lambdas|
      ensures Open(frames[k])
    {
      SpacingScales(lambdas[k - 1], lambdas[k], offset, distance);
      assert frames[k].start == tofs[k - 1] + MinTofBetweenFrames && frames[k].end == tofs[k] - MinTofBetweenFrames;
    }
  }

  /** Two wavelengths more than 0.3 Angstrom apart are further apart in TOF
      (seconds) than 0.3 Angstrom converts to. */
  lemma SpacingScales(l1: real, l2: real, offset: real, distance: real)
    requires distance > 0.0 && l2 - l1 > MinLambdaPeakValueInterval
    ensures LambdaToTof(l2, offset, distance, Seconds) - LambdaToTof(l1, offset, distance, Seconds)
            > LambdaToTof(MinLambdaPeakValueInterval, 0.0, distance, Seconds)
  {
    var s := distance / Coeff * MicrosToSeconds;
    assert s > 0.0;
    TofDifference(l1, l2, offset, distance, Seconds);
    assert LambdaToTof(l2, offset, distance, Seconds) - LambdaToTof(l1, offset, distance, Seconds) == (l2 - l1) * s;
    assert LambdaToTof(MinLambdaPeakValueInterval, 0.0, distance, Seconds) == MinLambdaPeakValueInterval * s;
    assert (l2 - l1) * s > MinLambdaPeakValueInterval * s;
  }

  /** Given a distance of 25 (the preview script's metres) instead of cm, the
      class accepts a list such as [3.0, 3.5] and yields a middle frame that
      ends before it starts. */
  lemma MetreDistanceInvertsFrame(frames: seq<Frame>)
    requires IsPartition(ConvertLambdaToTof([3.0, 3.5], 0.0, 25.0, Seconds), frames)
    ensures WellSpaced([3.0, 3.5])
    ensures frames[1].end < frames[1].start
  {
    var tofs := ConvertLambdaToTof([3.0, 3.5], 0.0, 25.0, Seconds);
    TofDifference(3.0, 3.5, 0.0, 25.0, Seconds);
    assert tofs[1] - tofs[0] == 0.5 * 25.0 / Coeff * MicrosToSeconds;
    assert tofs[1] - tofs[0] < 2.0 * MinTofBetweenFrames;
  }
}
