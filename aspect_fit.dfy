/** The aspect-ratio fit that both the preview canvas (displayImagePreview)
    and the result canvas (drawResultCanvas) of the front end apply to a
    decoded image before drawing it. Arithmetic is exact (`real`). */
module AspectFit {

  /** Width and height of an image, natural or scaled. */
  datatype Size = Size(width: real, height: real)

  /** The largest area a drawing surface may take. */
  datatype Bound = Bound(maxWidth: real, maxHeight: real)

  /** The drawn size together with the factors that carry a point of the
      natural image to the canvas. */
  datatype Geometry = Geometry(width: real, height: real, scaleX: real, scaleY: real)

  const MaxWidth: real := 400.0
  const MaxHeight: real := 300.0

  /** Both canvases are bounded by the same pair of constants. */
  const PreviewBound: Bound := Bound(MaxWidth, MaxHeight)
  const ResultBound: Bound := Bound(MaxWidth, MaxHeight)

  predicate ValidBound(b: Bound) { b.maxWidth > 0.0 && b.maxHeight > 0.0 }

  /** A decoded image has positive natural dimensions. */
  predicate ValidSize(n: Size) { n.width > 0.0 && n.height > 0.0 }

  /** Strictly wider than tall; a square image takes the portrait branch. */
  predicate Landscape(n: Size) { n.width > n.height }

  /** The dominant axis exceeds its bound, so the fit has to shrink the image. */
  predicate Overflows(n: Size, b: Bound) {
    if Landscape(n) then n.width > b.maxWidth else n.height > b.maxHeight
  }

  /** The one factor the fit applies to both axes: it never enlarges. */
  function FitScale(n: Size, b: Bound): (s: real)
    requires ValidBound(b)
    ensures 0.0 < s <= 1.0
    ensures s < 1.0 <==> Overflows(n, b)
  {
    if !Overflows(n, b) then 1.0
    else if Landscape(n) then b.maxWidth / n.width
    else b.maxHeight / n.height
  }

  /** Reference definition of the fitted size: the natural size times the
      uniform factor. */
  function Fit(n: Size, b: Bound): Size
    requires ValidBound(b)
  {
    Size(n.width * FitScale(n, b), n.height * FitScale(n, b))
  }

  /** The computation as the source writes it: the two locals start at the
      natural size and are reassigned inside the nested branches. */
  method FitDimensions(n: Size, b: Bound) returns (width: real, height: real)
    requires ValidBound(b)
    ensures Size(width, height) == Fit(n, b)
  {
    width := n.width;
    height := n.height;
    if width > height {
      if width > b.maxWidth {
        height := height * (b.maxWidth / width);
        width := b.maxWidth;
      }
    } else {
      if height > b.maxHeight {
        width := width * (b.maxHeight / height);
        height := b.maxHeight;
      }
    }
  }

  /** The drawn size and the scale factors `width / natural width` and
      `height / natural height`. Scaling is always uniform. */
  function ComputeGeometry(n: Size, b: Bound): (g: Geometry)
    requires ValidSize(n) && ValidBound(b)
    ensures g.scaleX == g.scaleY == FitScale(n, b)
    ensures Size(g.width, g.height) == Fit(n, b)
  {
    var f := Fit(n, b);
    Geometry(f.width, f.height, f.width / n.width, f.height / n.height)
  }

  /** A landscape image wider than the bound comes out exactly `maxWidth`
      wide, its height scaled by `maxWidth / width`. */
  lemma LandscapeOverflowFit(n: Size, b: Bound)
    requires ValidBound(b) && Landscape(n) && n.width > b.maxWidth
    ensures Fit(n, b) == Size(b.maxWidth, n.height * (b.maxWidth / n.width))
  {
  }

  /** A portrait or square image taller than the bound comes out exactly
      `maxHeight` tall, its width scaled by `maxHeight / height`. */
  lemma PortraitOverflowFit(n: Size, b: Bound)
    requires ValidBound(b) && !Landscape(n) && n.height > b.maxHeight
    ensures Fit(n, b) == Size(n.width * (b.maxHeight / n.height), b.maxHeight)
  {
  }

  /** The fit leaves an image unchanged, with both scale factors 1, exactly
      when its dominant axis is within the bound. */
  lemma FitIdentityIff(n: Size, b: Bound)
    requires ValidSize(n) && ValidBound(b)
    ensures Fit(n, b) == n <==> !Overflows(n, b)
    ensures !Overflows(n, b) ==> ComputeGeometry(n, b).scaleX == ComputeGeometry(n, b).scaleY == 1.0
  {
    var s := FitScale(n, b);
    if Fit(n, b) == n {
      assert n.width * s == n.width * 1.0;
    }
  }

  /** The fitted image keeps the natural aspect ratio. */
  lemma FitPreservesAspect(n: Size, b: Bound)
    requires ValidSize(n) && ValidBound(b)
    ensures Fit(n, b).width * n.height == Fit(n, b).height * n.width
    ensures Fit(n, b).height > 0.0
    ensures Fit(n, b).width / Fit(n, b).height == n.width / n.height
  {
    var s := FitScale(n, b);
    var f := Fit(n, b);
    assert f.width * n.height == s * (n.width * n.height);
    assert f.height * n.width == s * (n.width * n.height);
    assert f.height > 0.0 by { assert f.height == n.height * s; }
    calc {
      f.width / f.height;
      (n.width * s) / (n.height * s);
      n.width / n.height;
    }
  }

  /** After the fit the dominant axis is within its bound, and neither axis
      has grown. */
  lemma FitBoundsDominantAxis(n: Size, b: Bound)
    requires ValidSize(n) && ValidBound(b)
    ensures Landscape(n) ==> Fit(n, b).width <= b.maxWidth
    ensures !Landscape(n) ==> Fit(n, b).height <= b.maxHeight
    ensures Fit(n, b).width <= n.width && Fit(n, b).height <= n.height
  {
    var s := FitScale(n, b);
    assert n.width - n.width * s == n.width * (1.0 - s) >= 0.0;
    assert n.height - n.height * s == n.height * (1.0 - s) >= 0.0;
  }

  /** The fit keeps the orientation that chose its branch. */
  lemma FitKeepsOrientation(n: Size, b: Bound)
    requires ValidSize(n) && ValidBound(b)
    ensures Landscape(Fit(n, b)) <==> Landscape(n)
  {
    var s := FitScale(n, b);
    assert Fit(n, b).width - Fit(n, b).height == (n.width - n.height) * s;
  }

  /** The other axis is not clamped: 390 x 350 against a 300 high bound is
      left as it is. */
  lemma MinorAxisNotClamped()
    ensures Fit(Size(390.0, 350.0), PreviewBound) == Size(390.0, 350.0)
    ensures Fit(Size(390.0, 350.0), PreviewBound).height > PreviewBound.maxHeight
  {
  }

  /** Worked examples: a wide and a tall image against the 400 x 300 bound. */
  lemma GeometryExamples()
    ensures ComputeGeometry(Size(1600.0, 800.0), ResultBound) == Geometry(400.0, 200.0, 0.25, 0.25)
    ensures ComputeGeometry(Size(800.0, 1600.0), ResultBound) == Geometry(150.0, 300.0, 0.1875, 0.1875)
  {
  }
}
