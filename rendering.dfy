/**
 * One call of `renderFrame(index)`: the guards that leave the canvas alone,
 * the resize of the canvas to the viewport, and the "cover" placement of the
 * frame (scaled uniformly until it fills the canvas, then centred). Geometry
 * is over mathematical reals.
 */
module Rendering {

  /** A positive length in pixels: the natural width or height of a decoded frame. */
  type Pixels = x: int | x > 0 witness 1

  /** A decoded frame, by its natural size. */
  datatype Bitmap = Bitmap(width: Pixels, height: Pixels)

  /** `window.innerWidth` and `window.innerHeight`. */
  datatype Viewport = Viewport(width: nat, height: nat)

  /** `canvasRef.current`: absent, or present with or without a 2D context. */
  datatype Canvas = NoCanvas | Canvas(hasContext2d: bool)

  /** The destination rectangle of a draw: top-left corner and size. */
  datatype Rect = Rect(x: real, y: real, width: real, height: real)

  /**
   * The visible outcome of one render: the canvas is left as it was, or it
   * is resized and `image` is drawn into `dest`.
   */
  datatype Drawing =
    | Untouched
    | Drawn(canvasWidth: nat, canvasHeight: nat, image: Bitmap, dest: Rect)

  function MaxReal(a: real, b: real): real {
    if a >= b then a else b
  }

  /** A rectangle covers a `cw` by `ch` canvas and touches it on at least one axis. */
  predicate CoversTightly(r: Rect, cw: nat, ch: nat) {
    && r.width >= cw as real && r.height >= ch as real
    && (r.width == cw as real || r.height == ch as real)
  }

  /** A rectangle has the frame's aspect ratio. */
  predicate KeepsAspect(r: Rect, img: Bitmap) {
    r.width * img.height as real == r.height * img.width as real
  }

  /** A rectangle is centred on a `cw` by `ch` canvas. */
  predicate CentredOn(r: Rect, cw: nat, ch: nat) {
    r.x + r.width / 2.0 == cw as real / 2.0 && r.y + r.height / 2.0 == ch as real / 2.0
  }

  /**
   * `Math.max(canvas.width / img.width, canvas.height / img.height)`: the
   * factor that makes the frame cover the canvas, fitting one axis exactly.
   */
  function CoverScale(cw: nat, ch: nat, img: Bitmap): (scale: real)
    ensures scale >= 0.0
    ensures img.width as real * scale >= cw as real
    ensures img.height as real * scale >= ch as real
    ensures img.width as real * scale == cw as real || img.height as real * scale == ch as real
  {
    MaxReal(cw as real / img.width as real, ch as real / img.height as real)
  }

  /** No smaller uniform scale covers the canvas: cover-fit crops as little as possible. */
  lemma CoverScaleIsLeast(cw: nat, ch: nat, img: Bitmap, s: real)
    requires img.width as real * s >= cw as real && img.height as real * s >= ch as real
    ensures s >= CoverScale(cw, ch, img)
  {
    var iw, ih := img.width as real, img.height as real;
    assert s >= cw as real / iw by {
      assert s == (iw * s) / iw;
    }
    assert s >= ch as real / ih by {
      assert s == (ih * s) / ih;
    }
  }

  /**
   * The destination rectangle of the draw: the frame scaled by `CoverScale`,
   * at `x = cw / 2 - (iw / 2) * scale` and `y = ch / 2 - (ih / 2) * scale`.
   * It covers the canvas, fits one axis exactly, keeps the frame's aspect
   * ratio, is centred, and so starts at or above-left of the canvas origin.
   */
  function CoverRect(cw: nat, ch: nat, img: Bitmap): (r: Rect)
    ensures CoversTightly(r, cw, ch)
    ensures KeepsAspect(r, img)
    ensures CentredOn(r, cw, ch)
    ensures r.x <= 0.0 && r.y <= 0.0
    ensures r.x + r.width >= cw as real && r.y + r.height >= ch as real
  {
    var iw, ih := img.width as real, img.height as real;
    var scale := CoverScale(cw, ch, img);
    Rect(cw as real / 2.0 - (iw / 2.0) * scale, ch as real / 2.0 - (ih / 2.0) * scale, iw * scale, ih * scale)
  }

  /**
   * Covering tightly, keeping the aspect ratio and being centred determine
   * the rectangle: `CoverRect` is the only one.
   */
  lemma CoverRectUnique(cw: nat, ch: nat, img: Bitmap, r: Rect)
    requires CoversTightly(r, cw, ch) && KeepsAspect(r, img) && CentredOn(r, cw, ch)
    ensures r == CoverRect(cw, ch, img)
  {
    var iw, ih := img.width as real, img.height as real;
    var t := r.width / iw;
    assert r.width == iw * t;
    assert r.height == ih * t by {
      assert r.height * iw == ih * t * iw;
    }
    var scale := CoverScale(cw, ch, img);
    CoverScaleIsLeast(cw, ch, img, t);
    assert t <= scale by {
      if r.width == cw as real {
        assert t == cw as real / iw;
      } else {
        assert t == ch as real / ih;
      }
    }
    assert t == scale;
  }

  /**
   * `renderFrame(index)`: leaves the canvas alone when there is no canvas,
   * when `images[index]` is absent (an index outside the array, negative ones
   * included), or when the canvas has no 2D context; otherwise resizes the
   * canvas to the viewport and draws that frame into the cover rectangle of
   * the new canvas size.
   */
  function RenderFrame(canvas: Canvas, images: seq<Bitmap>, index: int, viewport: Viewport): (d: Drawing)
    ensures d.Untouched? <==> canvas.NoCanvas? || !(0 <= index < |images|) || !canvas.hasContext2d
    ensures d.Drawn? ==>
      && d.canvasWidth == viewport.width && d.canvasHeight == viewport.height
      && d.image == images[index]
      && CoversTightly(d.dest, d.canvasWidth, d.canvasHeight)
      && KeepsAspect(d.dest, d.image)
      && CentredOn(d.dest, d.canvasWidth, d.canvasHeight)
  {
    if canvas.NoCanvas? || !(0 <= index < |images|) then Untouched
    else if !canvas.hasContext2d then Untouched
    else
      var img := images[index];
      var canvasWidth, canvasHeight := viewport.width, viewport.height;
      Drawn(canvasWidth, canvasHeight, img, CoverRect(canvasWidth, canvasHeight, img))
  }

  /** A full-HD viewport over a 1280 by 720 frame: scale 1.5, drawn from the origin. */
  lemma CoverRectExample()
    ensures CoverScale(1920, 1080, Bitmap(1280, 720)) == 1.5
    ensures CoverRect(1920, 1080, Bitmap(1280, 720)) == Rect(0.0, 0.0, 1920.0, 1080.0)
  {
  }
}
