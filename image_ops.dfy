/** The size and offset arithmetic of the image pipeline: the down-scale of
    process_image, the Instagram aspect-ratio padding of validate_and_pad_image
    and the overlay layout of apply_branding. Pixels are not modelled; an
    image file is its size plus whether the library calls on it succeed. */
module ImageOps {
  import opened Common

  /** process_image's default max_width; no caller passes another. */
  const MaxWidth: nat := 1080
  /** Instagram's tallest allowed ratio, 4:5. */
  const MinRatio: real := 0.8
  /** Instagram's widest allowed ratio, 1.91:1. */
  const MaxRatio: real := 1.91
  /** The logo is 15% of the base width; apply_branding pads it by 2%. */
  const LogoShare: real := 0.15
  const PaddingShare: real := 0.02

  /** Step 1 of process_image: scale down to max_width when wider, keeping
      int(height * max_width / width) rows. */
  function ResizeTarget(s: Size): Size
  {
    if s.width > MaxWidth then
      Size(MaxWidth, Trunc(s.height as real * (MaxWidth as real / s.width as real)))
    else s
  }

  /** The resize never enlarges, caps the width and keeps the proportion
      up to the truncation of the height. */
  lemma ResizeBounds(s: Size)
    ensures ResizeTarget(s).width <= MaxWidth || ResizeTarget(s) == s
    ensures ResizeTarget(s).width <= s.width && ResizeTarget(s).height <= s.height
    ensures s.width <= MaxWidth ==> ResizeTarget(s) == s
    ensures s.width > MaxWidth ==>
      ResizeTarget(s).width == MaxWidth &&
      ResizeTarget(s).height as real <= s.height as real * MaxWidth as real / s.width as real
        < ResizeTarget(s).height as real + 1.0
  {
    if s.width > MaxWidth {
      var x := s.height as real * (MaxWidth as real / s.width as real);
      ShrunkHeight(s.height as real, MaxWidth as real, s.width as real);
      assert ResizeTarget(s) == Size(MaxWidth, Trunc(x));
    }
  }

  /** h * (m / w) for 0 < m < w lies in [0, h] and equals h * m / w. */
  lemma ShrunkHeight(h: real, m: real, w: real)
    requires h >= 0.0 && 0.0 < m < w
    ensures 0.0 <= h * (m / w) <= h
    ensures h * (m / w) == h * m / w
  {
    RatioBelow(m, w, 1.0);
    RatioBelow(m, w, 0.0);
    ScaleAtMostOne(h, m / w);
  }

  /** Comparing a quotient is comparing the cross product. */
  lemma RatioBelow(a: real, b: real, c: real)
    requires b > 0.0
    ensures a / b < c <==> a < c * b
    ensures a / b <= c <==> a <= c * b
  {
    var q := a / b;
    assert q * b == a;
    assert (c - q) * b == c * b - a;
    if c - q > 0.0 { assert (c - q) * b > 0.0; }
    if c - q < 0.0 { assert (c - q) * b < 0.0; }
  }

  /** What validate_and_pad_image decides for an image of a given size. */
  datatype PadPlan =
    | Fits                                // ratio already inside [0.8, 1.91]
    | Pad(canvas: Size, x: int, y: int)   // paste the image at (x, y) on a blurred canvas
    | PadError                            // w / h raised (h == 0)

  function PlanPadding(s: Size): PadPlan
  {
    if s.height == 0 then PadError
    else
      var ratio := s.width as real / s.height as real;
      if MinRatio <= ratio <= MaxRatio then Fits
      else
        var canvas :=
          if ratio < MinRatio then Size(Trunc(s.height as real * MinRatio), s.height)
          else Size(s.width, Trunc(s.width as real / MaxRatio));
        Pad(canvas, (canvas.width - s.width) / 2, (canvas.height - s.height) / 2)
  }

  /** A too-tall image keeps its height and gets a canvas int(h * 0.8) wide; a
      too-wide one keeps its width and gets int(w / 1.91) rows. Either way the
      canvas covers the image and the image sits centred at a non-negative
      offset (the floor division by 2 leaves at most one spare pixel). */
  lemma PaddedCanvasCovers(s: Size)
    requires PlanPadding(s).Pad?
    ensures var p := PlanPadding(s);
      && s.height > 0
      && (s.width as real < MinRatio * s.height as real ==>
            p.canvas == Size(Trunc(s.height as real * MinRatio), s.height))
      && (s.width as real > MaxRatio * s.height as real ==>
            p.canvas == Size(s.width, Trunc(s.width as real / MaxRatio)))
      && p.canvas.width >= s.width && p.canvas.height >= s.height
      && 0 <= p.x && 2 * p.x <= p.canvas.width - s.width <= 2 * p.x + 1
      && 0 <= p.y && 2 * p.y <= p.canvas.height - s.height <= 2 * p.y + 1
  {
    var w, h := s.width as real, s.height as real;
    RatioBelow(w, h, MinRatio);
    RatioBelow(w, h, MaxRatio);
    RatioBelow(w, MaxRatio, h);
    if w / h < MinRatio {
      assert w < h * MinRatio;
      assert Trunc(h * MinRatio) >= s.width;
    } else {
      assert w > MaxRatio * h;
      assert w / MaxRatio > h;
      assert Trunc(w / MaxRatio) >= s.height;
    }
  }

  /** The image is returned untouched exactly when its ratio is allowed. */
  lemma FitsIffRatioAllowed(s: Size)
    requires s.height > 0
    ensures PlanPadding(s) == Fits <==>
      MinRatio * s.height as real <= s.width as real <= MaxRatio * s.height as real
  {
    var w, h := s.width as real, s.height as real;
    RatioBelow(w, h, MinRatio);
    RatioBelow(w, h, MaxRatio);
  }

  /** The truncation can leave the padded canvas just outside the bounds
      it pads to: a 500x1001 portrait gets an 800x1001 canvas, whose ratio is
      below 0.8. */
  lemma PaddedCanvasMayStillBeTooTall()
    ensures PlanPadding(Size(500, 1001)) == Pad(Size(800, 1001), 150, 0)
    ensures 800.0 / 1001.0 < MinRatio
  {
    assert 500.0 / 1001.0 < MinRatio;
    assert Trunc(1001.0 * MinRatio) == 800;
  }

  /** validate_and_pad_image: the path of the image to use from here on. */
  function ValidateAndPad(imagePath: string, s: Size, paddedPath: string, padOk: bool): string
  {
    match PlanPadding(s)
    case Fits => imagePath
    case PadError => imagePath
    case Pad(_, _, _) => if padOk then paddedPath else imagePath
  }

  /** Padding never raises: an allowed ratio, h == 0 or any library failure
      all give back the input path; only a successful pad gives the new file. */
  lemma ValidateAndPadResult(imagePath: string, s: Size, paddedPath: string, padOk: bool)
    ensures var r := ValidateAndPad(imagePath, s, paddedPath, padOk);
      && (r == paddedPath || r == imagePath)
      && ((s.height > 0 && MinRatio * s.height as real <= s.width as real <= MaxRatio * s.height as real)
            ==> r == imagePath)
      && (s.height == 0 || !padOk ==> r == imagePath)
  {
    if s.height > 0 {
      FitsIffRatioAllowed(s);
    }
  }

  /** The image file process_image is given, as far as the model needs it:
      its size (None when it cannot be opened), whether converting, resizing and
      saving the temporary JPEG succeeds, the two file names the run generates,
      and whether the padding library calls succeed. */
  datatype ImageFile = ImageFile(size: Option<Size>, resizedSaved: bool,
                                 tempPath: string, paddedPath: string, padOk: bool)

  /** process_image: raises when the file cannot be read or written, else
      returns the padded (or unpadded) temporary JPEG. */
  function ProcessImage(f: ImageFile): Outcome<string>
  {
    if f.size.None? || !f.resizedSaved then Raised
    else Returned(ValidateAndPad(f.tempPath, ResizeTarget(f.size.value), f.paddedPath, f.padOk))
  }

  lemma ProcessImageResult(f: ImageFile)
    ensures ProcessImage(f).Raised? <==> f.size.None? || !f.resizedSaved
    ensures ProcessImage(f).Returned? ==>
      ProcessImage(f).value == f.tempPath || ProcessImage(f).value == f.paddedPath
    ensures ProcessImage(f).Returned? && PlanPadding(ResizeTarget(f.size.value)) == Fits ==>
      ProcessImage(f).value == f.tempPath
  {
  }

  /** Bottom flair: scaled to the base width, pasted flush with the bottom. */
  function FlairPlacement(base: Size, flair: Size): Placement
    requires flair.width > 0
  {
    var h := Trunc(base.width as real * (flair.height as real / flair.width as real));
    Placement(0, base.height - h, Size(base.width, h))
  }

  /** Logo: 15% of the base width, in the top-right corner with a 2% margin. */
  function LogoPlacement(base: Size, logo: Size): Placement
    requires logo.width > 0
  {
    var w := Trunc(base.width as real * LogoShare);
    var h := Trunc(w as real * (logo.height as real / logo.width as real));
    var padding := Trunc(base.width as real * PaddingShare);
    Placement(base.width - w - padding, padding, Size(w, h))
  }

  /** The overlays apply_branding pastes, in order: flair then logo, each
      only when its asset exists. An asset of width 0 raises (division by zero). */
  function BrandingOverlays(base: Size, flair: Option<Size>, logo: Option<Size>): Outcome<seq<Placement>>
  {
    if flair.Some? && flair.value.width == 0 then Raised
    else if logo.Some? && logo.value.width == 0 then Raised
    else
      Returned((if flair.Some? then [FlairPlacement(base, flair.value)] else [])
        + (if logo.Some? then [LogoPlacement(base, logo.value)] else []))
  }

  /** The flair spans the full width and ends exactly at the bottom edge. */
  lemma FlairAtBottom(base: Size, flair: Size)
    requires flair.width > 0
    ensures var p := FlairPlacement(base, flair);
      p.x == 0 && p.size.width == base.width && p.y + p.size.height == base.height
  {
  }

  /** The logo is int(w * 0.15) wide, its top edge is the padding int(w * 0.02)
      from the top, its right edge the same padding from the right, and it
      starts inside the image. */
  lemma LogoInTopRightCorner(base: Size, logo: Size)
    requires logo.width > 0
    ensures var p := LogoPlacement(base, logo);
      && p.size.width == Trunc(base.width as real * LogoShare)
      && p.y == Trunc(base.width as real * PaddingShare)
      && p.x + p.size.width + p.y == base.width
      && 0 <= p.x
  {
    var w := base.width as real;
    assert Trunc(w * LogoShare) as real <= w * LogoShare;
    assert Trunc(w * PaddingShare) as real <= w * PaddingShare;
  }
}
