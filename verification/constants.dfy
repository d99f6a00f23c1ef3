/** The module-level constants of the shutter value generator
    (shutter_value_generator/make_shutter_value_file.py, lines 10-25). */
module ShutterConstants {

  /** A time-of-flight window [start, end], in seconds. */
  datatype Frame = Frame(start: real, end: real)

  /** (H / MN) * 1e6 with H = 6.62607004e-34 J s and MN = 1.674927471e-27 kg,
      written as the exact quotient of the two mantissas (the powers of ten
      cancel). It converts Angstrom * cm into microseconds. */
  const Coeff: real := 662607004.0 / 1674927471.0

  /** The three measurable windows of one source pulse, in seconds. */
  const TofFrames: seq<Frame> :=
    [Frame(0.000001, 0.0025), Frame(0.0029, 0.0058), Frame(0.0062, 0.0159)]

  /** Start of the first and end of the last baseline window. */
  const FirstStart: real := TofFrames[0].start
  const LastEnd: real := TofFrames[|TofFrames| - 1].end

  /** Dead time reserved on each side of a dead-time marker, in seconds:
      the gap between the first two baseline windows. */
  const MinTofBetweenFrames: real := TofFrames[1].start - TofFrames[0].end

  /** Centres of the two gaps between the baseline windows (in seconds,
      although the source names them as wavelengths; nothing uses them). */
  const DefaultDeadTimes: seq<real> :=
    [(TofFrames[0].end + TofFrames[1].start) / 2.0,
     (TofFrames[1].end + TofFrames[2].start) / 2.0]

  /** Half-width in Angstrom of the band measured around a requested wavelength. */
  const MinLambdaPeakValueFromEdgeOfFrame: real := 0.3

  /** Consecutive dead-time wavelengths must be more than this far apart (Angstrom). */
  const MinLambdaPeakValueInterval: real := 0.3

  /** The two preset files, kept as opaque text. */
  const ResonanceShutterValues: string := "1e-6\t320e-6\t3\t0.16"
  const DefaultShutterValues: string :=
    "1e-6\t2.5e-3\t5\t10.24" + "\n" + "2.9e-3\t5.8e-3\t6\t10.24" + "\n" + "6.2e-3\t15.9e-3\t7\t10.24"

  /** Time bin written in every computed row, in microseconds. */
  const TimeBinMicros: real := 10.24

  /** The baseline windows are ordered and separated, the reserved gap is
      0.4 ms, and the default dead times sit strictly inside the two gaps. */
  lemma BaselineFacts()
    ensures MinTofBetweenFrames == 0.0004
    ensures forall k | 0 <= k < |TofFrames| :: TofFrames[k].start < TofFrames[k].end
    ensures forall k | 0 <= k < |TofFrames| - 1 :: TofFrames[k].end < TofFrames[k + 1].start
    ensures forall k | 0 <= k < |DefaultDeadTimes| ::
              TofFrames[k].end < DefaultDeadTimes[k] < TofFrames[k + 1].start
    ensures FirstStart == 0.000001 && LastEnd == 0.0159
    ensures 0.3955 < Coeff < 0.3957
  {
  }
}
