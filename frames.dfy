/** The GIF branch: keep the first 50 frames, normalise each, keep their durations. */
module Frames {
  import opened Wrappers
  import opened Text
  import opened Imaging
  import opened Resize

  const MaxFrames: nat := 50

  /** The delay given to a frame whose `info` has no readable duration. */
  const DefaultDurationMs: int := 100

  /** `loop=0`: repeat forever. */
  const LoopForever: nat := 0

  /** A frame's `info['duration']`: present, absent, or raising when read. */
  datatype Duration = Declared(ms: int) | Missing | Unreadable

  /**
   * What iterating the decoded GIF yields at one position: a frame; a frame
   * whose pixel data raises when loaded; or a seek that raises an error other
   * than end-of-sequence. The sequence ends where seeking reports end-of-sequence.
   */
  datatype SourceFrame = Frame(image: Image, duration: Duration) | Truncated | SeekError

  /**
   * The frames, durations and loop count passed to `frames[0].save(...,
   * save_all=True, append_images=frames[1:], duration=durations, loop=0)`.
   */
  datatype Animation = Animation(frames: seq<Image>, durations: seq<int>, loop: nat)

  predicate FramesWellFormed(source: seq<SourceFrame>) {
    forall i :: 0 <= i < |source| && source[i].Frame? ==> WellFormed(source[i].image)
  }

  function DurationOf(d: Duration): int {
    match d
    case Declared(ms) => ms
    case Missing => DefaultDurationMs
    case Unreadable => DefaultDurationMs
  }

  /** `frame.convert('RGB')`, then the 600-pixel bound. */
  function NormalizeFrame(img: Image): (r: Image) {
    BoundEdges(ConvertRgb(img))
  }

  /**
   * The loop completes without raising: at least one frame, every frame it
   * converts is loadable, and fetching the frame at index 50 (which happens
   * before the cap is checked) does not raise.
   */
  predicate Reducible(source: seq<SourceFrame>) {
    var n := Min(|source|, MaxFrames);
    && n > 0
    && (forall i :: 0 <= i < n ==> source[i].Frame?)
    && (|source| > MaxFrames ==> !source[MaxFrames].SeekError?)
  }

  /** The reference definition of the GIF branch; None means it raised and the handler falls back. */
  function ReducedGif(source: seq<SourceFrame>): Option<Animation>
  {
    if !Reducible(source) then None
    else
      var n := Min(|source|, MaxFrames);
      Some(Animation(
        seq(n, i requires 0 <= i < n => NormalizeFrame(source[i].image)),
        seq(n, i requires 0 <= i < n => DurationOf(source[i].duration)),
        LoopForever))
  }

  /**
   * The frame loop as the handler runs it: fetch frame i, stop at the 50th,
   * convert and bound it, append it and its duration, count it; then refuse
   * an empty result (`frames[0]` raises).
   */
  method ReduceFrames(source: seq<SourceFrame>) returns (r: Option<Animation>)
    ensures r == ReducedGif(source)
  {
    var frames: seq<Image> := [];
    var durations: seq<int> := [];
    var frameCount := 0;
    var i := 0;
    while i < |source|
      invariant 0 <= i <= Min(|source|, MaxFrames)
      invariant frameCount == i == |frames| == |durations|
      invariant forall k :: 0 <= k < i ==> source[k].Frame?
      invariant forall k :: 0 <= k < i ==> frames[k] == NormalizeFrame(source[k].image)
      invariant forall k :: 0 <= k < i ==> durations[k] == DurationOf(source[k].duration)
    {
      var frame := source[i];
      if frame.SeekError? {
        return None;
      }
      if i >= MaxFrames {
        break;
      }
      if frame.Truncated? {
        return None;
      }
      var rgb := ConvertRgb(frame.image);
      if rgb.width > MaxEdge || rgb.height > MaxEdge {
        rgb := Thumbnail(rgb, MaxEdge);
      }
      frames := frames + [rgb];
      durations := durations + [DurationOf(frame.duration)];
      frameCount := frameCount + 1;
      i := i + 1;
    }
    if |frames| == 0 {
      return None;
    }
    ghost var n := Min(|source|, MaxFrames);
    assert i == n;
    assert frames == seq(n, k requires 0 <= k < n => NormalizeFrame(source[k].image));
    assert durations == seq(n, k requires 0 <= k < n => DurationOf(source[k].duration));
    r := Some(Animation(frames, durations, LoopForever));
  }

  /**
   * A reduced animation holds exactly min(n, 50) frames, the first ones in
   * source order, each converted to RGB and bounded, with as many durations,
   * each the declared one or 100 ms, and an endless loop count.
   */
  lemma ReducedGifShape(source: seq<SourceFrame>)
    requires ReducedGif(source).Some?
    ensures var a := ReducedGif(source).value;
      && |a.frames| == |a.durations| == Min(|source|, MaxFrames)
      && a.loop == LoopForever
      && (forall i :: 0 <= i < |a.frames| ==> source[i].Frame? && a.frames[i] == NormalizeFrame(source[i].image))
      && (forall i :: 0 <= i < |a.durations| ==>
            a.durations[i] == (if source[i].duration.Declared? then source[i].duration.ms else DefaultDurationMs))
  {
  }

  /**
   * Every kept frame is a well-formed RGB image within 600×600 and no larger
   * than its source; it has no colour key and every pixel opaque exactly
   * when its source frame had no colour key (a keyed frame keeps its key
   * through `convert('RGB')`).
   */
  lemma {:induction false} ReducedFramesNormalized(source: seq<SourceFrame>)
    requires FramesWellFormed(source) && ReducedGif(source).Some?
    ensures var a := ReducedGif(source).value;
      forall i :: 0 <= i < |a.frames| ==>
        && a.frames[i].mode == "RGB" && WellFormed(a.frames[i])
        && (Flat(a.frames[i]) <==> !source[i].image.keyed)
        && a.frames[i].width <= MaxEdge && a.frames[i].height <= MaxEdge
        && a.frames[i].width <= source[i].image.width && a.frames[i].height <= source[i].image.height
  {
    var a := ReducedGif(source).value;
    forall i | 0 <= i < |a.frames|
      ensures && a.frames[i].mode == "RGB" && WellFormed(a.frames[i])
              && (Flat(a.frames[i]) <==> !source[i].image.keyed)
              && a.frames[i].width <= MaxEdge && a.frames[i].height <= MaxEdge
              && a.frames[i].width <= source[i].image.width && a.frames[i].height <= source[i].image.height
    {
      ConvertRgbWellFormed(source[i].image);
      BoundEdgesWellFormed(ConvertRgb(source[i].image));
      BoundEdgesSpec(ConvertRgb(source[i].image));
    }
  }

  /** The reduction succeeds exactly when the loop neither raises nor ends empty. */
  lemma ReducedGifFails(source: seq<SourceFrame>)
    ensures ReducedGif(source).None? <==>
      || |source| == 0
      || (exists i :: 0 <= i < Min(|source|, MaxFrames) && !source[i].Frame?)
      || (|source| > MaxFrames && source[MaxFrames].SeekError?)
  {
  }

  /** Frames after the 51st play no part: the loop stops once it has fetched frame 50. */
  lemma {:induction false} ReducedGifIgnoresTail(source: seq<SourceFrame>, more: seq<SourceFrame>)
    requires |source| > MaxFrames
    ensures ReducedGif(source + more) == ReducedGif(source)
  {
    var s := source + more;
    assert forall i :: 0 <= i <= MaxFrames ==> s[i] == source[i];
    assert Min(|s|, MaxFrames) == Min(|source|, MaxFrames) == MaxFrames;
    assert Reducible(s) == Reducible(source);
    if Reducible(source) {
      var n := MaxFrames;
      assert seq(n, i requires 0 <= i < n => NormalizeFrame(s[i].image))
          == seq(n, i requires 0 <= i < n => NormalizeFrame(source[i].image));
      assert seq(n, i requires 0 <= i < n => DurationOf(s[i].duration))
          == seq(n, i requires 0 <= i < n => DurationOf(source[i].duration));
    }
  }

  /** Three 200×200 frames of 200 ms are converted to RGB and kept unresized, in order. */
  lemma ThreeSmallFrames(a: Image, b: Image, c: Image)
    requires forall img :: img in [a, b, c] ==> img.width == 200 && img.height == 200
    ensures var source := [Frame(a, Declared(200)), Frame(b, Declared(200)), Frame(c, Declared(200))];
      && ReducedGif(source) == Some(Animation([ConvertRgb(a), ConvertRgb(b), ConvertRgb(c)], [200, 200, 200], 0))
      && ConvertRgb(a).width == 200 && ConvertRgb(a).height == 200
  {
    var source := [Frame(a, Declared(200)), Frame(b, Declared(200)), Frame(c, Declared(200))];
    assert Reducible(source);
    assert NormalizeFrame(a) == ConvertRgb(a) && NormalizeFrame(b) == ConvertRgb(b) && NormalizeFrame(c) == ConvertRgb(c);
    assert seq(3, i requires 0 <= i < 3 => NormalizeFrame(source[i].image)) == [ConvertRgb(a), ConvertRgb(b), ConvertRgb(c)];
    assert seq(3, i requires 0 <= i < 3 => DurationOf(source[i].duration)) == [200, 200, 200];
  }
}
