/** `make_list_tof_frames`: splitting the baseline TOF window at dead-time
    markers (shutter_value_generator/make_shutter_value_file.py, lines 136-154).
    In the comments below, G is the padding `MinTofBetweenFrames` (0.4 ms). */
module Frames {
  import opened ShutterConstants

  /** `frames` splits [FirstStart, LastEnd] at the markers `tofs`: one frame more
      than markers, and marker k sits at the centre of the 2G gap separating
      frame k from frame k + 1. */
  predicate IsPartition(tofs: seq<real>, frames: seq<Frame>)
    requires |tofs| >= 1
  {
    && |frames| == |tofs| + 1
    && frames[0].start == FirstStart
    && frames[|tofs|].end == LastEnd
    && (forall k | 0 <= k < |tofs| :: frames[k].end == tofs[k] - MinTofBetweenFrames)
    && (forall k | 0 <= k < |tofs| :: frames[k + 1].start == tofs[k] + MinTofBetweenFrames)
  }

  /** The source's loop: marker 0 also opens the first frame, the last marker
      closes the list with the final frame and breaks, and every other marker
      emits the frame running up to the next marker. No frame width is checked. */
  method MakeListTofFrames(tofs: seq<real>) returns (frames: seq<Frame>)
    ensures |tofs| == 0 ==> frames == []
    ensures |tofs| >= 1 ==> IsPartition(tofs, frames)
  {
    frames := [];
    var index := 0;
    while index < |tofs|
      invariant 0 <= index <= |tofs|
      invariant |tofs| > 0 ==> index < |tofs|
      invariant index == 0 ==> frames == []
      invariant index > 0 ==> |frames| == index + 1 && frames[0].start == FirstStart
      invariant index > 0 ==> forall k | 0 <= k <= index :: frames[k].end == tofs[k] - MinTofBetweenFrames
      invariant index > 0 ==> forall k | 0 <= k < index :: frames[k + 1].start == tofs[k] + MinTofBetweenFrames
    {
      if index == 0 {
        frames := frames + [Frame(FirstStart, tofs[index] - MinTofBetweenFrames)];
      }
      if index == |tofs| - 1 {
        frames := frames + [Frame(tofs[index] + MinTofBetweenFrames, LastEnd)];
        break;
      }
      frames := frames + [Frame(tofs[index] + MinTofBetweenFrames, tofs[index + 1] - MinTofBetweenFrames)];
      index := index + 1;
    }
  }

  /** The partition of a marker list is unique: the predicate pins down every frame. */
  lemma PartitionIsUnique(tofs: seq<real>, f1: seq<Frame>, f2: seq<Frame>)
    requires |tofs| >= 1
    requires IsPartition(tofs, f1) && IsPartition(tofs, f2)
    ensures f1 == f2
  {
    forall j | 0 <= j < |f1|
      ensures f1[j] == f2[j]
    {
      if j > 0 {
        assert f1[j].start == tofs[j - 1] + MinTofBetweenFrames == f2[j].start;
      }
      if j < |tofs| {
        assert f1[j].end == tofs[j] - MinTofBetweenFrames == f2[j].end;
      }
    }
  }

  /** Consecutive frames are always 2G = 0.8 ms apart, whatever the markers. */
  lemma FramesSeparatedByTwoG(tofs: seq<real>, frames: seq<Frame>)
    requires |tofs| >= 1 && IsPartition(tofs, frames)
    ensures forall k | 0 <= k < |frames| - 1 :: frames[k + 1].start - frames[k].end == 2.0 * MinTofBetweenFrames
    ensures forall k | 0 <= k < |frames| - 1 :: frames[k].end < frames[k + 1].start
  {
    assert MinTofBetweenFrames == 0.0004;
    forall k | 0 <= k < |frames| - 1
      ensures frames[k + 1].start - frames[k].end == 2.0 * MinTofBetweenFrames
    {
      assert frames[k].end == tofs[k] - MinTofBetweenFrames;
    }
  }

  /** A frame that does not close before it opens. */
  predicate Open(f: Frame)
  {
    f.start < f.end
  }

  /** Every frame has positive width exactly when the first marker lies more than G
      after the baseline start, the last more than G before the baseline end, and
      consecutive markers more than 2G apart. */
  lemma AllFramesOpenIff(tofs: seq<real>, frames: seq<Frame>)
    requires |tofs| >= 1 && IsPartition(tofs, frames)
    ensures (forall k | 0 <= k < |frames| :: Open(frames[k]))
        <==> (&& FirstStart + MinTofBetweenFrames < tofs[0]
              && tofs[|tofs| - 1] + MinTofBetweenFrames < LastEnd
              && forall k | 0 <= k < |tofs| - 1 :: tofs[k] + 2.0 * MinTofBetweenFrames < tofs[k + 1])
  {
    var n := |tofs|;
    if forall k | 0 <= k < |frames| :: Open(frames[k]) {
      assert Open(frames[0]) && Open(frames[n]);
      forall k | 0 <= k < n - 1
        ensures tofs[k] + 2.0 * MinTofBetweenFrames < tofs[k + 1]
      {
        assert Open(frames[k + 1]);
      }
    }
    if && FirstStart + MinTofBetweenFrames < tofs[0]
       && tofs[n - 1] + MinTofBetweenFrames < LastEnd
       && forall k | 0 <= k < n - 1 :: tofs[k] + 2.0 * MinTofBetweenFrames < tofs[k + 1]
    {
      forall k | 0 <= k < |frames|
        ensures Open(frames[k])
      {
        if 0 < k < n {
          assert tofs[k - 1] + 2.0 * MinTofBetweenFrames < tofs[k];
        }
      }
    }
  }

  /** The width is not checked: a marker closer than G to the baseline start
      gives a first frame that ends before it starts. */
  lemma FirstFrameCanBeInverted(frames: seq<Frame>)
    requires IsPartition([0.0003], frames)
    ensures frames[0].end < frames[0].start
  {
  }
}
