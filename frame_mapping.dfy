/**
 * From scroll progress to a frame index, and the three notifications that
 * ask for a frame to be drawn: a change of scroll progress, a window resize,
 * and the player becoming ready. Arithmetic is over mathematical reals.
 */
module FrameMapping {

  function Min(a: int, b: int): int {
    if a <= b then a else b
  }

  /**
   * `Math.min(frameCount - 1, Math.floor(progress * (frameCount - 1)))`.
   * Only the upper end is clamped: below the clamp the index is the floor of
   * `progress * (frameCount - 1)`, so a negative progress gives a negative
   * index, and on `[0, 1]` the clamp never changes the floor.
   */
  function ScrollFrameIndex(progress: real, frameCount: int): (index: int)
    ensures index <= frameCount - 1
    ensures index < frameCount - 1 ==>
      index as real <= progress * (frameCount - 1) as real < index as real + 1.0
    ensures frameCount >= 1 && 0.0 <= progress ==> 0 <= index
    ensures frameCount >= 1 && progress <= 1.0 ==>
      index as real <= progress * (frameCount - 1) as real < index as real + 1.0
    ensures frameCount >= 1 && progress == 0.0 ==> index == 0
    ensures frameCount >= 1 && progress >= 1.0 ==> index == frameCount - 1
    ensures frameCount >= 2 && progress < 0.0 ==> index < 0
  {
    ScaleBounds(progress, (frameCount - 1) as real);
    Min(frameCount - 1, (progress * (frameCount - 1) as real).Floor)
  }

  /** How multiplying by a progress value compares with the factor it scales. */
  lemma ScaleBounds(p: real, m: real)
    ensures m >= 0.0 && p <= 1.0 ==> p * m <= m
    ensures m >= 0.0 && p >= 1.0 ==> p * m >= m
    ensures m > 0.0 && p < 0.0 ==> p * m < 0.0
  {
  }

  /** More scroll progress never selects an earlier frame. */
  lemma ScrollFrameIndexMonotone(p: real, q: real, frameCount: int)
    requires frameCount >= 1 && p <= q
    ensures ScrollFrameIndex(p, frameCount) <= ScrollFrameIndex(q, frameCount)
  {
    var m := (frameCount - 1) as real;
    ScaleMonotone(p, q, m);
    FloorMonotone(p * m, q * m);
  }

  lemma ScaleMonotone(p: real, q: real, m: real)
    requires p <= q && m >= 0.0
    ensures p * m <= q * m
  {
    assert q * m - p * m == (q - p) * m;
  }

  lemma FloorMonotone(a: real, b: real)
    requires a <= b
    ensures a.Floor <= b.Floor
  {
  }

  /** Halfway through 240 frames the index is 119. */
  lemma ScrollFrameIndexExample()
    ensures ScrollFrameIndex(0.5, 240) == 119
    ensures ScrollFrameIndex(1.0, 240) == 239
    ensures ScrollFrameIndex(0.0, 240) == 0
  {
    assert 0.5 * 239.0 == 119.5;
  }

  /** What a notification asks for: nothing, a draw on the next animation frame, or a draw now. */
  datatype RenderRequest = NoRender | NextAnimationFrame(index: int) | Immediately(index: int)

  /**
   * The scroll-progress listener: ignored until the player is ready, then
   * schedules the frame for `latest` on the next animation frame.
   */
  function OnScrollChange(isLoaded: bool, frameCount: int, latest: real): (req: RenderRequest)
    ensures req.NoRender? <==> !isLoaded
    ensures isLoaded ==> req == NextAnimationFrame(ScrollFrameIndex(latest, frameCount))
    ensures req.NextAnimationFrame? ==> req.index <= frameCount - 1
    ensures req.NextAnimationFrame? && frameCount >= 1 && 0.0 <= latest <= 1.0 ==>
      0 <= req.index < frameCount
  {
    if !isLoaded then NoRender else NextAnimationFrame(ScrollFrameIndex(latest, frameCount))
  }

  /**
   * The resize listener: ignored until the player is ready, then redraws at
   * once the frame for the current scroll progress.
   */
  function OnResize(isLoaded: bool, frameCount: int, currentProgress: real): (req: RenderRequest)
    ensures req.NoRender? <==> !isLoaded
    ensures isLoaded ==> req == Immediately(ScrollFrameIndex(currentProgress, frameCount))
    ensures req.Immediately? ==> req.index <= frameCount - 1
    ensures req.Immediately? && frameCount >= 1 && 0.0 <= currentProgress <= 1.0 ==>
      0 <= req.index < frameCount
  {
    if isLoaded then Immediately(ScrollFrameIndex(currentProgress, frameCount)) else NoRender
  }

  /** The effect on the readiness flag: draws the first frame once the player is ready. */
  function OnReadyChange(isLoaded: bool): (req: RenderRequest)
    ensures req.NoRender? <==> !isLoaded
    ensures isLoaded ==> req == Immediately(0)
  {
    if isLoaded then Immediately(0) else NoRender
  }

  /**
   * A scroll and a resize seen at the same progress ask for the same frame,
   * and the first frame drawn on becoming ready is the frame for progress 0.
   */
  lemma NotificationsAgree(isLoaded: bool, frameCount: int, progress: real)
    requires frameCount >= 1
    ensures OnScrollChange(isLoaded, frameCount, progress).NoRender? == OnResize(isLoaded, frameCount, progress).NoRender?
    ensures isLoaded ==> OnScrollChange(isLoaded, frameCount, progress).index == OnResize(isLoaded, frameCount, progress).index
    ensures isLoaded ==> OnReadyChange(isLoaded).index == OnScrollChange(isLoaded, frameCount, 0.0).index
  {
  }
}
