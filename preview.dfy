/** The preview's scaling rule: once the full-size image has loaded, its
    displayed size is chosen by comparing the window's aspect ratio with the
    image's and making one dimension the window's minus a fixed margin.
    Sizes are exact reals, not IEEE doubles. */
module Preview {

  /** Total margin, in pixels, taken off the binding window dimension. */
  const Margin: real := 80.0

  /** A width and a height in pixels. */
  datatype Size = Size(width: real, height: real)

  predicate Positive(s: Size)
  {
    s.width > 0.0 && s.height > 0.0
  }

  function AspectRatio(s: Size): (ratio: real)
    requires s.height > 0.0
    ensures ratio * s.height == s.width
  {
    s.width / s.height
  }

  /** Displayed size of an image of natural size `image` in a window of size
      `window`. When the window is relatively wider than the image the height
      binds, otherwise the width does; the other dimension follows from the
      image's aspect ratio. */
  function Scale(window: Size, image: Size): (scaled: Size)
    requires Positive(window) && Positive(image)
    ensures AspectRatio(window) > AspectRatio(image) ==> scaled.height == window.height - Margin
    ensures AspectRatio(window) <= AspectRatio(image) ==> scaled.width == window.width - Margin
    ensures scaled.width * image.height == scaled.height * image.width
  {
    var windowAspectRatio := AspectRatio(window);
    var imageAspectRatio := AspectRatio(image);
    if windowAspectRatio > imageAspectRatio then
      var scaledHeight := window.height - Margin;
      Size(scaledHeight * imageAspectRatio, scaledHeight)
    else
      var scaledWidth := window.width - Margin;
      Size(scaledWidth, scaledWidth / imageAspectRatio)
  }

  /** Equal cross products give equal ratios. */
  lemma CrossRatio(a: real, b: real, c: real, d: real)
    requires b > 0.0 && d > 0.0 && a * d == b * c
    ensures a / b == c / d
  {
    var q := a / b;
    assert a == q * b;
    assert b * c == b * (q * d);
    assert c == q * d;
  }

  /** With room left after the margin, the scaled image has exactly the
      image's aspect ratio. */
  lemma ScalePreservesAspect(window: Size, image: Size)
    requires Positive(window) && Positive(image)
    requires window.width > Margin && window.height > Margin
    ensures Positive(Scale(window, image))
    ensures AspectRatio(Scale(window, image)) == AspectRatio(image)
  {
    var scaled := Scale(window, image);
    var r := AspectRatio(image);
    assert r > 0.0;
    if AspectRatio(window) > r {
      assert scaled.height == window.height - Margin;
      assert scaled.width == scaled.height * r;
    } else {
      assert scaled.width == window.width - Margin;
      assert scaled.height == scaled.width / r;
    }
    CrossRatio(scaled.width, scaled.height, image.width, image.height);
  }

  /** Ratios compare as their cross products do. */
  lemma RatioOrder(a: real, b: real, c: real, d: real)
    requires b > 0.0 && d > 0.0
    ensures a / b <= c / d <==> a * d <= c * b
  {
    var p, q := a / b, c / d;
    assert a == p * b;
    assert c == q * d;
    assert a * d == p * (b * d);
    assert c * b == q * (b * d);
  }

  /** The binding dimension is the window's minus the margin and the other
      one stays strictly inside the window itself. */
  lemma ScaleWithinWindow(window: Size, image: Size)
    requires Positive(window) && Positive(image)
    requires window.width > Margin && window.height > Margin
    ensures 0.0 < Scale(window, image).width < window.width
    ensures 0.0 < Scale(window, image).height < window.height
    ensures Scale(window, image).width == window.width - Margin
         || Scale(window, image).height == window.height - Margin
  {
    var scaled := Scale(window, image);
    var W, H, w, h := window.width, window.height, image.width, image.height;
    ScalePreservesAspect(window, image);
    RatioOrder(W, H, w, h);
    if W / H > w / h {
      assert W * h > w * H;
      assert scaled.width * h == (H - Margin) * w;
      assert scaled.width * h * H == (H - Margin) * (w * H);
      assert (H - Margin) * (w * H) < (H - Margin) * (W * h);
      assert scaled.width * h * H < W * h * H;
      assert scaled.width < W;
    } else {
      assert W * h <= w * H;
      assert (W - Margin) * h == scaled.height * w;
      assert scaled.height * w * W == (W - Margin) * (h * W);
      assert (W - Margin) * (h * W) < W * (h * W);
      assert W * (h * W) <= W * (w * H);
      assert scaled.height * w * W < H * w * W;
      assert scaled.height < H;
    }
  }

  /** A window and an image of the same 16:9 shape: the width binds and the
      height comes out above the window's height minus the margin, so the
      margin is not kept on every side. */
  lemma MarginNotAlwaysKept()
    ensures Scale(Size(1600.0, 900.0), Size(1600.0, 900.0)) == Size(1520.0, 855.0)
    ensures Scale(Size(1600.0, 900.0), Size(1600.0, 900.0)).height > 900.0 - Margin
  {
  }

  /** A 4000x2000 image in a 1920x1080 window: the width binds. */
  lemma WideImageExample()
    ensures Scale(Size(1920.0, 1080.0), Size(4000.0, 2000.0)) == Size(1840.0, 920.0)
  {
  }

  /** A 1000x2000 image in a 1920x1080 window: the height binds. */
  lemma TallImageExample()
    ensures Scale(Size(1920.0, 1080.0), Size(1000.0, 2000.0)) == Size(500.0, 1000.0)
  {
  }
}
