/** The video side of branding: where extract_keyframes samples the branded
    video, which frames it keeps, and the overlay layout of brand_video. The
    clip itself is an oracle: its duration (None when moviepy cannot open it),
    whether saving the frame at each index succeeds, and the file names the run
    generates. */
module VideoOps {
  import opened Common

  /** process_incoming_media asks for five analysis frames. */
  const DefaultFrameCount: nat := 5
  const LogoShare: real := 0.15
  /** brand_video's fixed logo margin, in pixels. */
  const LogoPadding: nat := 20

  /** duration * (i + 1) / (num_frames + 1) for i in range(num_frames). */
  function Timestamps(duration: real, numFrames: int): (ts: seq<real>)
    ensures |ts| == if numFrames > 0 then numFrames else 0
  {
    if numFrames <= 0 then []
    else seq(numFrames, i requires 0 <= i < numFrames =>
                          duration * ((i + 1) as real) / ((numFrames + 1) as real))
  }

  /** The i-th timestamp is i + 1 steps of duration / (N + 1). */
  lemma TimestampAt(duration: real, numFrames: int, i: int)
    requires 0 <= i < numFrames
    ensures Timestamps(duration, numFrames)[i] == (duration / ((numFrames + 1) as real)) * ((i + 1) as real)
  {
    var n1 := (numFrames + 1) as real;
    assert Timestamps(duration, numFrames)[i] == duration * ((i + 1) as real) / n1;
  }

  /** For a positive duration the N timestamps cut the clip into N + 1 equal
      segments: each lies strictly inside (0, duration), they strictly
      increase, and consecutive ones are duration / (N + 1) apart. */
  lemma TimestampsInterior(duration: real, numFrames: int)
    requires duration > 0.0
    ensures var ts := Timestamps(duration, numFrames);
      && (forall i :: 0 <= i < |ts| ==> 0.0 < ts[i] < duration)
      && (forall i, j :: 0 <= i < j < |ts| ==> ts[i] < ts[j])
      && (forall i :: 0 <= i < |ts| - 1 ==> ts[i + 1] - ts[i] == duration / ((numFrames + 1) as real))
  {
    var ts := Timestamps(duration, numFrames);
    forall i | 0 <= i < |ts|
      ensures 0.0 < ts[i] < duration
    {
      TimestampInside(duration, numFrames, i);
    }
    forall i, j | 0 <= i < j < |ts|
      ensures ts[i] < ts[j]
    {
      TimestampsIncrease(duration, numFrames, i, j);
    }
    forall i | 0 <= i < |ts| - 1
      ensures ts[i + 1] - ts[i] == duration / ((numFrames + 1) as real)
    {
      TimestampGap(duration, numFrames, i);
    }
  }

  /** Consecutive timestamps are one step of duration / (N + 1) apart. */
  lemma TimestampGap(duration: real, numFrames: int, i: int)
    requires 0 <= i < numFrames - 1
    ensures Timestamps(duration, numFrames)[i + 1] - Timestamps(duration, numFrames)[i]
      == duration / ((numFrames + 1) as real)
  {
    var step := duration / ((numFrames + 1) as real);
    TimestampAt(duration, numFrames, i);
    TimestampAt(duration, numFrames, i + 1);
    assert step * ((i + 2) as real) - step * ((i + 1) as real) == step * (((i + 2) - (i + 1)) as real);
  }

  /** One timestamp lies strictly inside (0, duration). */
  lemma TimestampInside(duration: real, numFrames: int, i: int)
    requires duration > 0.0 && 0 <= i < numFrames
    ensures 0.0 < Timestamps(duration, numFrames)[i] < duration
  {
    var n1 := (numFrames + 1) as real;
    var step := duration / n1;
    TimestampAt(duration, numFrames, i);
    ScaleStrict(step, 0.0, (i + 1) as real);
    ScaleStrict(step, (i + 1) as real, n1);
  }

  /** A later timestamp is a strictly later instant. */
  lemma TimestampsIncrease(duration: real, numFrames: int, i: int, j: int)
    requires duration > 0.0 && 0 <= i < j < numFrames
    ensures Timestamps(duration, numFrames)[i] < Timestamps(duration, numFrames)[j]
  {
    TimestampAt(duration, numFrames, i);
    TimestampAt(duration, numFrames, j);
    ScaleStrict(duration / ((numFrames + 1) as real), (i + 1) as real, (j + 1) as real);
  }

  /** The documented example: 30 seconds, five frames, every five seconds. */
  lemma ThirtySecondsFiveFrames()
    ensures Timestamps(30.0, 5) == [5.0, 10.0, 15.0, 20.0, 25.0]
  {
    var ts := Timestamps(30.0, 5);
    assert ts[0] == 5.0 && ts[1] == 10.0 && ts[2] == 15.0 && ts[3] == 20.0 && ts[4] == 25.0;
  }

  /** The video file extract_keyframes opens. */
  datatype Clip = Clip(duration: Option<real>, frameSaved: nat -> bool, frameName: nat -> string)

  /** The first `count` save_frame calls, at their timestamps. */
  function Shots(clip: Clip, ts: seq<real>, count: nat): (r: seq<Effect>)
    requires count <= |ts|
  {
    seq(count, i requires 0 <= i < count => SaveFrame(clip.frameName(i), ts[i]))
  }

  /** The first `count` frame paths. */
  function FramePaths(clip: Clip, count: nat): seq<string>
  {
    seq(count, i requires 0 <= i < count => clip.frameName(i))
  }

  /** extract_keyframes in closed form: frames are saved in timestamp order
      until the first failure; any failure (opening the clip included) makes
      the result [], else it is one path per timestamp. */
  function KeyframesSpec(clip: Clip, numFrames: int): Traced<seq<string>>
  {
    match clip.duration
    case None => Traced([], [])
    case Some(d) =>
      var ts := Timestamps(d, numFrames);
      var k := FirstFailure(clip.frameSaved, 0, |ts|);
      if k < |ts| then Traced([], Shots(clip, ts, k + 1))
      else Traced(FramePaths(clip, |ts|), Shots(clip, ts, |ts|))
  }

  /** The frame loop of extract_keyframes, appending each saved path. */
  method ExtractKeyframes(clip: Clip, numFrames: int) returns (paths: seq<string>, calls: seq<Effect>)
    ensures Traced(paths, calls) == KeyframesSpec(clip, numFrames)
  {
    if clip.duration.None? {
      return [], [];
    }
    var ts := Timestamps(clip.duration.value, numFrames);
    var keyframePaths: seq<string> := [];
    calls := [];
    var i := 0;
    while i < |ts|
      invariant 0 <= i <= |ts|
      invariant forall j :: 0 <= j < i ==> clip.frameSaved(j)
      invariant keyframePaths == FramePaths(clip, i)
      invariant calls == Shots(clip, ts, i)
    {
      var outputPath := clip.frameName(i);
      calls := calls + [SaveFrame(outputPath, ts[i])];
      if !clip.frameSaved(i) {
        FirstFailureIs(clip.frameSaved, 0, i, |ts|);
        assert calls == Shots(clip, ts, i + 1);
        return [], calls;
      }
      keyframePaths := keyframePaths + [outputPath];
      i := i + 1;
    }
    FirstFailureIs(clip.frameSaved, 0, |ts|, |ts|);
    paths := keyframePaths;
  }

  /** What the caller gets: either nothing at all, or exactly one path per
      timestamp, the i-th saved at the i-th timestamp. */
  lemma KeyframesResult(clip: Clip, numFrames: int)
    ensures var r := KeyframesSpec(clip, numFrames);
      && (r.result == [] || (clip.duration.Some? && |r.result| == numFrames))
      && (clip.duration.Some? && |r.result| > 0 ==>
            |r.calls| == |r.result| &&
            forall i :: 0 <= i < |r.result| ==>
              r.calls[i] == SaveFrame(r.result[i], Timestamps(clip.duration.value, numFrames)[i]))
      && (clip.duration.Some? && (exists i :: 0 <= i < numFrames && !clip.frameSaved(i)) ==> r.result == [])
  {
  }

  /** The video file brand_video opens and the assets it finds. */
  datatype VideoFile = VideoFile(size: Option<Size>, flairAsset: Option<Size>, logoAsset: Option<Size>,
                                 written: bool, outPath: string)

  function VideoFlairPlacement(frame: Size, flair: Size): Placement
    requires flair.width > 0
  {
    var h := Trunc(frame.width as real * (flair.height as real / flair.width as real));
    Placement(0, frame.height - h, Size(frame.width, h))
  }

  function VideoLogoPlacement(frame: Size, logo: Size): Placement
    requires logo.width > 0
  {
    var w := Trunc(frame.width as real * LogoShare);
    var h := Trunc(w as real * (logo.height as real / logo.width as real));
    Placement(frame.width - w - LogoPadding, LogoPadding, Size(w, h))
  }

  /** The clips composited over the video, in the order they are appended. */
  function VideoOverlays(frame: Size, flair: Option<Size>, logo: Option<Size>): Outcome<seq<Placement>>
  {
    if flair.Some? && flair.value.width == 0 then Raised
    else if logo.Some? && logo.value.width == 0 then Raised
    else
      Returned((if flair.Some? then [VideoFlairPlacement(frame, flair.value)] else [])
        + (if logo.Some? then [VideoLogoPlacement(frame, logo.value)] else []))
  }

  /** brand_video: the branded file, or the exception re-raised. */
  function BrandVideo(v: VideoFile): Outcome<string>
  {
    if v.size.None? then Raised
    else match VideoOverlays(v.size.value, v.flairAsset, v.logoAsset)
      case Raised => Raised
      case Returned(_) => if v.written then Returned(v.outPath) else Raised
  }

  /** The logo is int(w * 0.15) wide, 20 pixels from the top and from the
      right edge, and starts inside the frame once the frame is 24 wide. */
  lemma VideoLogoInTopRightCorner(frame: Size, logo: Size)
    requires logo.width > 0
    ensures var p := VideoLogoPlacement(frame, logo);
      && p.size.width == Trunc(frame.width as real * LogoShare)
      && p.y == LogoPadding
      && p.x + p.size.width + LogoPadding == frame.width
      && (frame.width >= 24 ==> 0 <= p.x)
  {
    assert Trunc(frame.width as real * LogoShare) as real <= frame.width as real * LogoShare;
  }

  /** brand_video either returns its one output file or raises; it never
      hands back the unbranded input. */
  lemma BrandVideoResult(v: VideoFile)
    ensures BrandVideo(v).Returned? ==> BrandVideo(v).value == v.outPath
    ensures BrandVideo(v).Raised? <==>
      v.size.None? || !v.written
      || (v.flairAsset.Some? && v.flairAsset.value.width == 0)
      || (v.logoAsset.Some? && v.logoAsset.value.width == 0)
  {
  }
}
