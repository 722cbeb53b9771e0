/** The device's screen geometry: the value types it is described with and
    the pure rules that derive it from the display (Device.java). */
module Geometry {
  import opened JavaInt

  /** The server's own `com.genymobile.scrcpy.Size`: a width and a height,
      immutable. */
  datatype Size = Size(width: Int32, height: Int32)

  /** An `android.graphics.Rect` given by its four edges; `width()` and
      `height()` are Java `int` subtractions and wrap like them. */
  datatype Rect = Rect(left: Int32, top: Int32, right: Int32, bottom: Int32) {
    function Width(): (w: Int32) { Sub(right, left) }
    function Height(): (h: Int32) { Sub(bottom, top) }
  }

  /** What the display service reports: the current rotation (0 to 3 on a
      real device, any `int` as far as this code is concerned) and the size
      of the screen in that rotation. */
  datatype DisplayInfo = DisplayInfo(rotation: Int32, size: Size)

  /** The geometry shared by the capture and input paths: the captured part
      of the screen, the size of the encoded video and whether the screen is
      turned a quarter from its natural orientation. */
  datatype ScreenInfo = ScreenInfo(contentRect: Rect, videoSize: Size, rotated: bool)

  /** The video size for content of `w` x `h` pixels: each dimension with its
      three low bits cleared, because H.264 accepts only multiples of 8. */
  function ComputeVideoSize(w: Int32, h: Int32): (r: Size)
    ensures r.width % 8 == 0 && r.height % 8 == 0
    ensures w - 8 < r.width <= w && h - 8 < r.height <= h
    ensures 0 <= w < 8 ==> r.width == 0
    ensures 0 <= h < 8 ==> r.height == 0
    ensures w >= 0 ==> r.width >= 0
    ensures h >= 0 ==> r.height >= 0
  {
    Size(ClearLow3Bits(w), ClearLow3Bits(h))
  }

  /** The geometry the device starts with: the whole screen is the content,
      cropping being disabled, and the video size is its rounded size. */
  function ComputeScreenInfo(displayInfo: DisplayInfo): (s: ScreenInfo)
    ensures s.rotated <==> displayInfo.rotation % 2 == 1
    ensures s.contentRect.left == 0 && s.contentRect.top == 0
    ensures s.contentRect.Width() == displayInfo.size.width
    ensures s.contentRect.Height() == displayInfo.size.height
    ensures s.videoSize == ComputeVideoSize(displayInfo.size.width, displayInfo.size.height)
  {
    var rotated := LowBitSet(displayInfo.rotation);
    var deviceSize := displayInfo.size;
    var contentRect := Rect(0, 0, deviceSize.width, deviceSize.height);
    var videoSize := ComputeVideoSize(contentRect.Width(), contentRect.Height());
    ScreenInfo(contentRect, videoSize, rotated)
  }

  /** A rectangle expressed in the other orientation: x and y swap roles. */
  function FlipRect(crop: Rect): (r: Rect)
    ensures r.Width() == crop.Height() && r.Height() == crop.Width()
  {
    Rect(crop.top, crop.left, crop.bottom, crop.right)
  }

  /** Flipping twice gives back the rectangle. */
  lemma FlipRectInvolution(r: Rect)
    ensures FlipRect(FlipRect(r)) == r
  {
  }

  /** The rounded dimension is the largest multiple of 8 that does not
      exceed the input: no multiple of 8 lies strictly between them. */
  lemma VideoSizeIsLargestMultipleOf8(w: Int32, h: Int32, m: int)
    requires m % 8 == 0
    ensures m <= w ==> m <= ComputeVideoSize(w, h).width
    ensures m <= h ==> m <= ComputeVideoSize(w, h).height
  {
  }

  /** Rounding is idempotent: a size that is already a video size is kept. */
  lemma VideoSizeIdempotent(w: Int32, h: Int32)
    ensures var v := ComputeVideoSize(w, h); ComputeVideoSize(v.width, v.height) == v
  {
  }

  /** A multiple of 8 is kept as it is; any other dimension loses between
      1 and 7 pixels. */
  lemma VideoSizeKeepsExactly(w: Int32, h: Int32)
    ensures ComputeVideoSize(w, h).width == w <==> w % 8 == 0
    ensures ComputeVideoSize(w, h).height == h <==> h % 8 == 0
  {
  }

  /** For a screen of non-negative size the initial video fits inside the
      content rectangle and is not larger than it. */
  lemma InitialVideoFitsContent(displayInfo: DisplayInfo)
    requires displayInfo.size.width >= 0 && displayInfo.size.height >= 0
    ensures var s := ComputeScreenInfo(displayInfo);
      && 0 <= s.videoSize.width <= s.contentRect.Width()
      && 0 <= s.videoSize.height <= s.contentRect.Height()
      && s.contentRect == Rect(0, 0, displayInfo.size.width, displayInfo.size.height)
  {
  }

  /** Concrete values: a 1080 x 2340 portrait screen in rotation 1 encodes
      1080 x 2336 and is reported rotated; a 7-pixel dimension rounds to 0. */
  lemma ComputeScreenInfoExamples()
    ensures ComputeScreenInfo(DisplayInfo(1, Size(1080, 2340)))
         == ScreenInfo(Rect(0, 0, 1080, 2340), Size(1080, 2336), true)
    ensures ComputeScreenInfo(DisplayInfo(2, Size(7, 13)))
         == ScreenInfo(Rect(0, 0, 7, 13), Size(0, 8), false)
    ensures ComputeVideoSize(-3, -8) == Size(-8, -8)
  {
  }
}
