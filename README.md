# Scroll-driven image-sequence player, modelled in Dafny

This project models the image-sequence player of a scroll-animated landing
page. The player preloads `frameCount` still images named by a zero-padded
frame number. It counts their load callbacks and becomes ready once all of
them have fired. It then maps scroll progress in `[0, 1]` to a frame index and
draws that frame on a canvas with "cover" placement: scaled uniformly until the
frame fills the canvas, then centred.

Modules, one per part of the component:

- `FrameNaming` (`frame_naming.dfy`) builds the frame URLs
  `folderPath + "/" + filePrefix + pad3(i) + ".jpg"`. It includes decimal
  rendering, `padStart` and a decimal parser used as the inverse.
- `Preloading` (`preloader.dfy`) holds the class `Preloader`. Its constructor
  `Preload` runs the preload loop. Its method `OnLoad` is one load callback.
  The source's callbacks run one at a time on the browser's event loop, so
  each callback becomes one sequential method call.
- `FrameMapping` (`frame_mapping.dfy`) maps scroll progress to a frame index.
  It also models the scroll, resize and ready notifications as render
  requests.
- `Rendering` (`rendering.dfy`) models `renderFrame`: its guards, the canvas
  resize and the cover-fit geometry. The result is either "canvas untouched"
  or the canvas size and the destination rectangle of the draw.
- `ImageSequence` (`image_sequence.dfy`) holds lemmas that connect the parts
  end to end.

In three places the code behaves differently from what a reader might expect,
and the model follows the code:

- The index is clamped only from above (`Math.min(frameCount - 1, …)`). A
  negative progress gives a negative index, and the render then does nothing.
  It is not clamped to `[0, frameCount - 1]`.
- A `frameCount` of zero or less does not fail. The loop creates no handles,
  and the player stays "loading" for ever.
- Frame numbers of four or more digits are written unpadded (`1000` gives
  `"1000"`). There is no 999-frame ceiling.

## Model

| member | source | states |
|---|---|---|
| `FrameNaming.NumDigits` | app/components/ImageSequence.tsx:33 | `NumDigits(n)` is the digit count: `n < 10^k`, and `10^(k-1) <= n` for positive `n` |
| `FrameNaming.ToDecimal` | app/components/ImageSequence.tsx:33 | `i.toString()` of a non-negative integer has `NumDigits(i)` characters, all decimal digits, with a leading `'0'` only for zero |
| `FrameNaming.PadStart` | app/components/ImageSequence.tsx:33 | `padStart(width, fill)` gives `max(width, \|s\|)` characters: `s` at the end, preceded only by `fill` |
| `FrameNaming.DecimalRoundTrip` | app/components/ImageSequence.tsx:33 | parsing `i.toString()` gives back `i` |
| `FrameNaming.LeadingZerosIgnored` | app/components/ImageSequence.tsx:33 | zeros added in front of a digit string do not change the number it denotes |
| `FrameNaming.ZeroPaddingKeepsValue` | app/components/ImageSequence.tsx:33 | left-padding a digit string with `"0"` keeps it all digits and keeps the number it denotes |
| `FrameNaming.PadFrameNumber` | app/components/ImageSequence.tsx:33 | `i.toString().padStart(3, "0")` has `max(3, digits(i))` characters, all digits, and parses back to `i` |
| `FrameNaming.PadFrameNumberInjective` | app/components/ImageSequence.tsx:33 | distinct frame numbers get distinct padded names |
| `FrameNaming.FrameUrl` | app/components/ImageSequence.tsx:34 | the URL of frame `i` is five characters longer than the folder, the prefix and the padded number together (the `/` and `.jpg`) |
| `FrameNaming.FrameUrlReadsBack` | app/components/ImageSequence.tsx:34 | the frame number is recovered from every frame URL: it starts with `folderPath + "/" + filePrefix`, ends with `.jpg`, and the digits between parse to `i` |
| `FrameNaming.FrameUrlInjective` | app/components/ImageSequence.tsx:34 | within one folder and prefix, distinct frames are requested from distinct URLs |
| `FrameNaming.PadFrameNumberExamples` | app/components/ImageSequence.tsx:31-33 | 1 becomes `"001"`, 240 becomes `"240"`, 1000 becomes `"1000"` (unpadded) |
| `FrameNaming.FrameUrlExamples` | app/components/ImageSequence.tsx:34 | with folder `/x` and prefix `f-`, the first URL is `/x/f-001.jpg` and frame 240 is `/x/f-240.jpg` |
| `Preloading.FullSubsetOfRange` | app/components/ImageSequence.tsx:36-37 | a set of positions below `n` has `n` members exactly when it holds every one of them, so a count equal to `frameCount` means every handle has loaded |
| `Preloading.Preloader.Preload` | app/components/ImageSequence.tsx:25-43 | creates exactly `frameCount` handles when `frameCount >= 1` and none otherwise; the handle at position `k` has URL `FrameUrl(folderPath, filePrefix, k + 1)`; no load is counted yet and the player is not ready |
| `Preloading.Preloader.OnLoad` | app/components/ImageSequence.tsx:35-40 | one callback raises `loadedCount` by exactly one; `isLoaded` is set on the call that makes `loadedCount == frameCount`, only if it was false before; it is never cleared; afterwards `isLoaded` holds exactly when every handle has loaded |
| `Preloading.Preloader.ReadyIffAllLoaded` | app/components/ImageSequence.tsx:35-40 | in any reachable state, the player is ready exactly when there is at least one handle and every handle's callback has run; then `frameCount` handles exist |
| `Preloading.Preloader.NoFramesNeverReady` | app/components/ImageSequence.tsx:27-40 | with `frameCount <= 0` there are no handles, no callback can run and the player is never ready |
| `FrameMapping.ScrollFrameIndex` | app/components/ImageSequence.tsx:75-78 | the index is at most `frameCount - 1`; for `frameCount >= 1` and progress in `[0, 1]` it lies in `[0, frameCount - 1]` and equals the floor of `progress * (frameCount - 1)`; progress 0 gives 0; progress `>= 1` gives `frameCount - 1`; with two or more frames a negative progress gives a negative index |
| `FrameMapping.ScrollFrameIndexMonotone` | app/components/ImageSequence.tsx:75-78 | the mapped index never decreases as progress increases |
| `FrameMapping.ScrollFrameIndexExample` | app/components/ImageSequence.tsx:75-78 | with 240 frames, progress 0.5 gives 119, progress 1 gives 239 and progress 0 gives 0 |
| `FrameMapping.OnScrollChange` | app/components/ImageSequence.tsx:73-80 | a scroll change asks for nothing exactly while the player is not ready; once ready it asks for a draw on the next animation frame of `ScrollFrameIndex(latest, frameCount)`, an index within the frames for progress in `[0, 1]` |
| `FrameMapping.OnResize` | app/components/ImageSequence.tsx:91-101 | a resize asks for nothing exactly while the player is not ready; once ready it asks for an immediate draw of `ScrollFrameIndex(currentProgress, frameCount)`, an index within the frames for progress in `[0, 1]` |
| `FrameMapping.OnReadyChange` | app/components/ImageSequence.tsx:83-87 | once the player is ready, frame 0 is drawn immediately (`Immediately(0)`); before, nothing is asked for |
| `FrameMapping.NotificationsAgree` | app/components/ImageSequence.tsx:73-101 | scroll and resize at the same progress are ignored together or ask for the same index; the first frame drawn on becoming ready is the frame for progress 0 |
| `Rendering.CoverScale` | app/components/ImageSequence.tsx:62 | the frame scaled by `scale` covers the canvas on both axes and fits it exactly on at least one |
| `Rendering.CoverScaleIsLeast` | app/components/ImageSequence.tsx:62 | no smaller uniform scale covers the canvas |
| `Rendering.CoverRect` | app/components/ImageSequence.tsx:62-69 | the drawn rectangle covers the canvas, fits one axis exactly, keeps the frame's aspect ratio, is centred (`x + w/2 = cw/2`, `y + h/2 = ch/2`), has `x <= 0` and `y <= 0`, and reaches the right and bottom edges |
| `Rendering.CoverRectUnique` | app/components/ImageSequence.tsx:62-69 | any rectangle that covers tightly, keeps the aspect ratio and is centred is the one `renderFrame` draws |
| `Rendering.RenderFrame` | app/components/ImageSequence.tsx:47-70 | the canvas is left alone exactly when there is no canvas, `images[index]` is absent, or there is no 2D context; otherwise the canvas is resized to the viewport and `images[index]` is drawn into a rectangle that covers the new canvas tightly, keeps its aspect and is centred |
| `Rendering.CoverRectExample` | app/components/ImageSequence.tsx:62-64 | a 1920×1080 viewport over a 1280×720 frame gives scale 1.5 and the rectangle (0, 0, 1920, 1080) |
| `ImageSequence.ReadyIndexSelectsHandle` | app/components/ImageSequence.tsx:73-87 | once ready, progress in `[0, 1]` and the initial frame 0 select a created handle; the handle at the mapped index is the URL of frame `index + 1` |
| `ImageSequence.ReadyScrollDrawsMappedFrame` | app/components/ImageSequence.tsx:47-80 | once ready, and with a canvas that has a 2D context, a scroll to progress in `[0, 1]` draws the frame at the mapped index |
| `ImageSequence.NegativeProgressDrawsNothing` | app/components/ImageSequence.tsx:47-80 | with two or more frames, a negative progress maps below zero and the render leaves the canvas alone |
| `ImageSequence.NotReadyRequestsNothing` | app/components/ImageSequence.tsx:73-104 | while some handle has not loaded, scroll, resize and the ready effect ask for no draw |

## Left out

- Browser I/O: creating `Image` elements, fetching the files, dispatching `onload`, `requestAnimationFrame`, the `resize` listener and its removal, and the `clearRect`/`drawImage` calls. The model keeps only the values passed to them. The handles carry their URL. The render result carries the canvas size, the frame and the destination rectangle.
- Image load failures: the source sets no `onerror`. A frame whose load never completes simply never calls `OnLoad`, so the player stays not ready. The model has this behaviour but no operation for the failure itself.
- `Preloading.Preloader.OnLoad`: requires that the callback of the handle at position `k` has not run before. Browsers fire an image's load event at most once for one `src`. The position `k` is a ghost parameter: the source's callback does not know which image it belongs to.
- React lifecycle: `useState`, `useRef`, `useEffect` dependencies and re-runs. In the source, a re-run of the preload effect after a prop change starts a fresh count but does not reset `isLoaded`. The model covers a single run of the effect, from mount.
- Scroll progress comes from framer-motion's `useScroll`. It appears as a plain real parameter (`latest`, `currentProgress`).
- Numbers: progress, the index product and the cover-fit geometry use mathematical reals, not IEEE-754 doubles, so rounding in `progress * (frameCount - 1)` and in the divisions is not modelled. `frameCount` is an integer; a non-integer `frameCount` is not modelled. `ToDecimal` models `toString()` only for integers written without an exponent, which covers every integer below 10^21.
- Frame sizes are positive integers (`Pixels`). An undecoded or empty image with zero width or height would make the source divide by zero. That case is not modelled.
- The canvas backing size is the integer viewport size. Any CSS scaling of the canvas element is presentation.
- The loading placeholder markup and the rest of the page are left out: the hero overlays, navbar, dashboard mock-up, page and layout files. They are framer-motion interpolation and static markup.
