/**
  The document viewer's state: zoom (in steps of 25 between 25 and 300),
  rotation (a quarter turn at a time), full-screen, and the image's
  loading and error flags, each changed by one handler. Which content the
  viewer renders depends on the file's MIME type.
 */
module DocumentViewer {

  const MinZoom := 25
  const MaxZoom := 300
  const ZoomStep := 25

  /** A zoom level the viewer can reach from its initial 100. */
  predicate ValidZoom(z: int)
  {
    MinZoom <= z <= MaxZoom && z % ZoomStep == 0
  }

  /** A rotation the viewer can reach from its initial 0. */
  predicate ValidRotation(r: int)
  {
    r == 0 || r == 90 || r == 180 || r == 270
  }

  /** `Math.min(prev + 25, 300)` */
  function ZoomedIn(z: int): int
  {
    if z + ZoomStep < MaxZoom then z + ZoomStep else MaxZoom
  }

  /** `Math.max(prev - 25, 25)` */
  function ZoomedOut(z: int): int
  {
    if z - ZoomStep > MinZoom then z - ZoomStep else MinZoom
  }

  /** `(prev + 90) % 360`; the rotation is never negative, so JavaScript's `%` and Dafny's agree. */
  function Rotated(r: int): int
    requires r >= 0
  {
    (r + 90) % 360
  }

  /** Zooming keeps the level valid; it moves one step unless it is already at the bound. */
  lemma ZoomStaysValid(z: int)
    requires ValidZoom(z)
    ensures ValidZoom(ZoomedIn(z)) && ValidZoom(ZoomedOut(z))
    ensures ZoomedIn(z) == (if z == MaxZoom then z else z + ZoomStep)
    ensures ZoomedOut(z) == (if z == MinZoom then z else z - ZoomStep)
  {
  }

  /** Zooming in and then out (or out and then in) returns to the start away from the bounds. */
  lemma ZoomInOutInverse(z: int)
    requires ValidZoom(z)
    ensures z < MaxZoom ==> ZoomedOut(ZoomedIn(z)) == z
    ensures z > MinZoom ==> ZoomedIn(ZoomedOut(z)) == z
  {
  }

  /** A quarter turn keeps the rotation valid, and four of them are the identity. */
  lemma FourQuarterTurns(r: int)
    requires ValidRotation(r)
    ensures ValidRotation(Rotated(r))
    ensures Rotated(Rotated(Rotated(Rotated(r)))) == r
    ensures Rotated(r) != r
  {
  }

  /** `file.type.startsWith('image/')` */
  predicate IsImage(fileType: string)
  {
    |fileType| >= 6 && fileType[..6] == "image/"
  }

  /** `file.type === 'application/pdf'` */
  predicate IsPdf(fileType: string)
  {
    fileType == "application/pdf"
  }

  /** No MIME type is both an image and a PDF. */
  lemma ImageAndPdfExclusive(fileType: string)
    ensures !(IsImage(fileType) && IsPdf(fileType))
  {
    if IsPdf(fileType) {
      assert fileType[0] == 'a';
    }
  }

  /** The viewer's state fields. */
  class Viewer {
    var zoom: int
    var rotation: int
    var isFullscreen: bool
    var imageError: bool
    var imageLoading: bool

    ghost predicate Valid()
      reads this
    {
      ValidZoom(zoom) && ValidRotation(rotation)
    }

    /** The initial state: 100 %, no rotation, windowed, image loading. */
    constructor ()
      ensures Valid()
      ensures zoom == 100 && rotation == 0 && !isFullscreen && !imageError && imageLoading
    {
      zoom := 100;
      rotation := 0;
      isFullscreen := false;
      imageError := false;
      imageLoading := true;
    }

    /** `handleZoomIn` */
    method ZoomIn()
      requires Valid()
      modifies this`zoom
      ensures Valid() && zoom == ZoomedIn(old(zoom))
    {
      zoom := ZoomedIn(zoom);
      ZoomStaysValid(old(zoom));
    }

    /** `handleZoomOut` */
    method ZoomOut()
      requires Valid()
      modifies this`zoom
      ensures Valid() && zoom == ZoomedOut(old(zoom))
    {
      zoom := ZoomedOut(zoom);
      ZoomStaysValid(old(zoom));
    }

    /** `handleRotate` */
    method Rotate()
      requires Valid()
      modifies this`rotation
      ensures Valid() && rotation == Rotated(old(rotation))
    {
      rotation := Rotated(rotation);
      FourQuarterTurns(old(rotation));
    }

    /** `handleFullscreen` */
    method ToggleFullscreen()
      modifies this`isFullscreen
      ensures isFullscreen == !old(isFullscreen)
    {
      isFullscreen := !isFullscreen;
    }

    /** `handleImageLoad`: done, no error. */
    method ImageLoaded()
      modifies this`imageLoading, this`imageError
      ensures !imageLoading && !imageError
    {
      imageLoading := false;
      imageError := false;
    }

    /** `handleImageError`: done, failed. */
    method ImageFailed()
      modifies this`imageLoading, this`imageError
      ensures !imageLoading && imageError
    {
      imageLoading := false;
      imageError := true;
    }

    /** `retryImageLoad`, without the DOM reload it triggers: loading again, error cleared. */
    method RetryImageLoad()
      modifies this`imageLoading, this`imageError
      ensures imageLoading && !imageError
    {
      imageError := false;
      imageLoading := true;
    }
  }
}
