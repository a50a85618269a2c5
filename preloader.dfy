/**
 * The preload effect of the image-sequence player: one image handle per
 * frame, created in frame order, and a load counter that the handles' load
 * callbacks increment until every frame has arrived and the player is ready.
 */
module Preloading {
  import opened FrameNaming

  /** An image element, identified by the URL assigned to its `src`. */
  datatype ImageHandle = ImageHandle(src: string)

  /** How many times `for (let i = 1; i <= frameCount; i++)` runs. */
  function HandleCount(frameCount: int): nat {
    if frameCount > 0 then frameCount else 0
  }

  /**
   * A set of positions below `n` has `n` members exactly when it holds every
   * position below `n`.
   */
  lemma {:induction false} FullSubsetOfRange(s: set<nat>, n: nat)
    requires forall k :: k in s ==> k < n
    ensures |s| <= n
    ensures |s| == n <==> forall k :: 0 <= k < n ==> k in s
    decreases n
  {
    if n > 0 {
      var rest := s - {n - 1};
      FullSubsetOfRange(rest, n - 1);
      if n - 1 in s {
        assert s == rest + {n - 1};
        assert |s| == |rest| + 1;
        assert (forall k :: 0 <= k < n ==> k in s) <==> (forall k :: 0 <= k < n - 1 ==> k in rest);
      } else {
        assert rest == s;
      }
    }
  }

  /** The handles are those of frames 1 to `|handles|`, in order. */
  predicate NamesFrames(handles: seq<ImageHandle>, folderPath: string, filePrefix: string) {
    forall k :: 0 <= k < |handles| ==> handles[k].src == FrameUrl(folderPath, filePrefix, k + 1)
  }

  lemma NamesFramesAppend(handles: seq<ImageHandle>, folderPath: string, filePrefix: string, img: ImageHandle)
    requires NamesFrames(handles, folderPath, filePrefix)
    requires img.src == FrameUrl(folderPath, filePrefix, |handles| + 1)
    ensures NamesFrames(handles + [img], folderPath, filePrefix)
  {
  }

  class Preloader {
    const folderPath: string
    const frameCount: int
    const filePrefix: string
    /** The handles in creation order: position `k` holds frame `k + 1`. */
    var images: seq<ImageHandle>
    /** The number of load callbacks that have run. */
    var loadedCount: nat
    /** The player's readiness flag. */
    var isLoaded: bool
    /** Positions of the handles whose load callback has run. */
    ghost var loaded: set<nat>

    ghost predicate Valid()
      reads this
    {
      && |images| == HandleCount(frameCount)
      && NamesFrames(images, folderPath, filePrefix)
      && (forall k :: k in loaded ==> k < |images|)
      && loadedCount == |loaded|
      && (isLoaded <==> frameCount >= 1 && loadedCount == frameCount)
    }

    /**
     * Runs the preload loop: creates `frameCount` handles in order, frame
     * `i` at `FrameUrl(folderPath, filePrefix, i)`, with no load counted
     * yet and the player not ready.
     */
    constructor Preload(folderPath: string, frameCount: int, filePrefix: string)
      ensures Valid()
      ensures this.folderPath == folderPath && this.frameCount == frameCount && this.filePrefix == filePrefix
      ensures frameCount >= 1 ==> |images| == frameCount
      ensures frameCount < 1 ==> images == []
      ensures forall k :: 0 <= k < |images| ==> images[k].src == FrameUrl(folderPath, filePrefix, k + 1)
      ensures loadedCount == 0 && loaded == {} && !isLoaded
    {
      this.folderPath := folderPath;
      this.frameCount := frameCount;
      this.filePrefix := filePrefix;
      var loadedImages: seq<ImageHandle> := [];
      var i := 1;
      while i <= frameCount
        invariant 1 <= i <= HandleCount(frameCount) + 1
        invariant |loadedImages| == i - 1
        invariant NamesFrames(loadedImages, folderPath, filePrefix)
      {
        var frameIndex := PadFrameNumber(i);
        var img := ImageHandle(folderPath + "/" + filePrefix + frameIndex + ".jpg");
        assert img.src == FrameUrl(folderPath, filePrefix, i);
        NamesFramesAppend(loadedImages, folderPath, filePrefix, img);
        loadedImages := loadedImages + [img];
        i := i + 1;
      }
      images := loadedImages;
      loadedCount := 0;
      isLoaded := false;
      loaded := {};
    }

    /**
     * The load callback of the handle at position `k` (which the browser
     * runs at most once): counts the load, and makes the player ready on the
     * call that brings the count to `frameCount`. `becameReady` tells whether
     * this call is the one that set the flag.
     */
    method OnLoad(ghost k: nat) returns (becameReady: bool)
      requires Valid()
      requires k < |images| && k !in loaded
      modifies this
      ensures Valid()
      ensures images == old(images) && loaded == old(loaded) + {k}
      ensures loadedCount == old(loadedCount) + 1
      ensures becameReady <==> loadedCount == frameCount
      ensures becameReady ==> !old(isLoaded)
      ensures isLoaded <==> old(isLoaded) || becameReady
      ensures isLoaded <==> forall j :: 0 <= j < |images| ==> j in loaded
    {
      FullSubsetOfRange(loaded, |images|);
      assert k !in loaded;
      loadedCount := loadedCount + 1;
      loaded := loaded + {k};
      becameReady := loadedCount == frameCount;
      if becameReady {
        isLoaded := true;
      }
      FullSubsetOfRange(loaded, |images|);
    }

    /** Ready exactly when the load callback of every handle has run, and never with zero frames. */
    lemma ReadyIffAllLoaded()
      requires Valid()
      ensures isLoaded <==> |images| > 0 && forall j :: 0 <= j < |images| ==> j in loaded
      ensures isLoaded ==> frameCount >= 1 && |images| == frameCount
    {
      FullSubsetOfRange(loaded, |images|);
    }

    /** With no frames to load, no handle exists whose callback could run, and the player is never ready. */
    lemma NoFramesNeverReady()
      requires Valid() && frameCount <= 0
      ensures images == [] && loaded == {} && !isLoaded
    {
      FullSubsetOfRange(loaded, |images|);
    }
  }
}
