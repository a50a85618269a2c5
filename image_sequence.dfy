/**
 * The image-sequence player put together: the preloader's readiness gates
 * the notifications, the mapped index selects a frame, and the renderer
 * draws it or leaves the canvas alone.
 */
module ImageSequence {
  import opened FrameNaming
  import opened Preloading
  import opened FrameMapping
  import opened Rendering

  /**
   * Once every frame has loaded, any progress in `[0, 1]`, and the first
   * frame drawn on becoming ready, select a created handle, and the handle
   * selected is the file of the frame numbered one more than the index.
   */
  lemma ReadyIndexSelectsHandle(p: Preloader, progress: real)
    requires p.Valid() && p.isLoaded
    requires 0.0 <= progress <= 1.0
    ensures 0 <= ScrollFrameIndex(progress, p.frameCount) < |p.images|
    ensures p.images[ScrollFrameIndex(progress, p.frameCount)].src
         == FrameUrl(p.folderPath, p.filePrefix, ScrollFrameIndex(progress, p.frameCount) + 1)
    ensures OnReadyChange(p.isLoaded).index < |p.images|
  {
    p.ReadyIffAllLoaded();
  }

  /**
   * With the player ready and a canvas with a 2D context, a scroll to any
   * progress in `[0, 1]` draws the frame at the mapped index.
   */
  lemma ReadyScrollDrawsMappedFrame(p: Preloader, frames: seq<Bitmap>, latest: real, viewport: Viewport)
    requires p.Valid() && p.isLoaded && |frames| == |p.images|
    requires 0.0 <= latest <= 1.0
    ensures OnScrollChange(p.isLoaded, p.frameCount, latest).NextAnimationFrame?
    ensures
      var index := OnScrollChange(p.isLoaded, p.frameCount, latest).index;
      var d := RenderFrame(Canvas(true), frames, index, viewport);
      d.Drawn? && d.image == frames[index] && index == ScrollFrameIndex(latest, p.frameCount)
  {
    ReadyIndexSelectsHandle(p, latest);
  }

  /**
   * Only the upper end of the index is clamped: with two or more frames, a
   * negative progress maps below zero and the render leaves the canvas alone.
   */
  lemma NegativeProgressDrawsNothing(frameCount: int, frames: seq<Bitmap>, latest: real, canvas: Canvas, viewport: Viewport)
    requires frameCount >= 2 && latest < 0.0
    ensures ScrollFrameIndex(latest, frameCount) < 0
    ensures RenderFrame(canvas, frames, ScrollFrameIndex(latest, frameCount), viewport).Untouched?
  {
  }

  /** Before every frame has loaded, neither a scroll nor a resize asks for a draw. */
  lemma NotReadyRequestsNothing(p: Preloader, progress: real)
    requires p.Valid() && exists j :: 0 <= j < |p.images| && j !in p.loaded
    ensures !p.isLoaded
    ensures OnScrollChange(p.isLoaded, p.frameCount, progress).NoRender?
    ensures OnResize(p.isLoaded, p.frameCount, progress).NoRender?
    ensures OnReadyChange(p.isLoaded).NoRender?
  {
    p.ReadyIffAllLoaded();
  }
}
