// The video capturer: which frames the rate limiter lets through, and the size of the picture
// that is handed on.
module VideoCapturer {
  import opened Common
  import opened Policy

  const MAX_FRAME_HEIGHT: int32 := 720
  const MAX_FRAME_WIDTH: int32 := 1280
  const MIN_FRAME_DIMENSION: int32 := 360
  const MAX_FPS: int32 := 30

  datatype Size = Size(width: int, height: int)

  // The int32 expression x * num / den; the operands are never negative here.
  function Scale(x: int, num: int, den: int): int
    requires den > 0
  {
    x * num / den
  }

  // The three conditional rescales, the rounding, and their composition.
  function MinScaled(width: int, height: int): Size
    requires width > 0 && height > 0
  {
    if width >= height && height < MIN_FRAME_DIMENSION then
      Size(Scale(width, MIN_FRAME_DIMENSION, height), MIN_FRAME_DIMENSION)
    else if height > width && width < MIN_FRAME_DIMENSION then
      Size(MIN_FRAME_DIMENSION, Scale(height, MIN_FRAME_DIMENSION, width))
    else
      Size(width, height)
  }

  function HeightCapped(s: Size, heightMax: int): Size
    requires heightMax > 0
  {
    if s.height > heightMax then Size(Scale(s.width, heightMax, s.height), heightMax) else s
  }

  function WidthCapped(s: Size, widthMax: int): Size
    requires widthMax > 0
  {
    if s.width > widthMax then Size(widthMax, Scale(s.height, widthMax, s.width)) else s
  }

  function RoundUpEven(x: int): (r: int)
    ensures r % 2 == 0 && x <= r <= x + 1
  {
    x + 1 - (x + 1) % 2
  }

  function Scaled(width: int, height: int, widthMax: int, heightMax: int): Size
    requires width > 0 && height > 0 && widthMax > 0 && heightMax > 0
  {
    WidthCapped(HeightCapped(MinScaled(width, height), heightMax), widthMax)
  }

  function Computed(width: int, height: int, widthMax: int, heightMax: int): Size
    requires width > 0 && height > 0 && widthMax > 0 && heightMax > 0
  {
    var s := Scaled(width, height, widthMax, heightMax);
    Size(RoundUpEven(s.width), RoundUpEven(s.height))
  }

  // What is handed on: whether to rescale at all is decided on the height alone.
  function Delivered(width: int, height: int, widthMax: int, heightMax: int): Size
    requires width > 0 && height > 0 && widthMax > 0 && heightMax > 0
  {
    var c := Computed(width, height, widthMax, heightMax);
    if c.height != height then c else Size(width, height)
  }

  predicate Fits(x: int) {
    -0x8000_0000 <= x < 0x8000_0000
  }

  // No product overflows int32 on the way.
  predicate ProductsFit(width: int, height: int, widthMax: int, heightMax: int)
    requires width > 0 && height > 0 && widthMax > 0 && heightMax > 0
  {
    var m := MinScaled(width, height);
    var c := HeightCapped(m, heightMax);
    && (width >= height && height < MIN_FRAME_DIMENSION ==> Fits(width * MIN_FRAME_DIMENSION))
    && (height > width && width < MIN_FRAME_DIMENSION ==> Fits(height * MIN_FRAME_DIMENSION))
    && (m.height > heightMax ==> Fits(m.width * heightMax))
    && (c.width > widthMax ==> Fits(c.height * widthMax))
  }

  // The rate limiter's test; a capturer that has seen no frame accepts the first one.
  predicate Accepts(last: Option<int>, limit: int, timestamp: int) {
    last.None? || timestamp - last.value >= limit
  }

  // `framerate` + 2 of these intervals, in microseconds, make up a second, short of it by less
  // than a microsecond each.
  predicate IsIntervalFor(limit: int, framerate: int) {
    limit * (framerate + 2) <= 1000000 < limit * (framerate + 2) + Abs(framerate + 2)
  }

  class VideoCapturer {
    var lastTimestamp: Option<int>
    var interFrameLimit: int
    var frameWidthMax: int32
    var frameHeightMax: int32

    predicate Valid()
      reads this
    {
      frameWidthMax > 0 && frameHeightMax > 0
    }

    constructor ()
      ensures Valid() && lastTimestamp == None && interFrameLimit == 31250
      ensures frameWidthMax == 1280 && frameHeightMax == 720
    {
      lastTimestamp := None;
      interFrameLimit := TruncDiv(1000000, MAX_FPS + 2);
      frameWidthMax, frameHeightMax := MAX_FRAME_WIDTH, MAX_FRAME_HEIGHT;
    }

    // FramerateKept and FramesPerSecond say what the interval means for a stream of frames.
    method SetFramerateLimit(framerate: int32)
      requires framerate != -2 && Fits(framerate + 2)
      modifies this`interFrameLimit
      ensures IsIntervalFor(interFrameLimit, framerate)
    {
      var dropFps := framerate + 2;
      interFrameLimit := TruncDiv(1000000, dropFps);
      ScaleBounds(1000000, 1, Abs(dropFps));
    }

    method SetFrameSizeLimit(width: int32, height: int32)
      requires width > 0 && height > 0
      modifies this`frameWidthMax, this`frameHeightMax
      ensures Valid() && frameWidthMax == width && frameHeightMax == height
    {
      frameHeightMax := height;
      frameWidthMax := width;
    }

    // `dropped`, `converted` and `created` are the answers of the adapter, of the conversion and
    // of the allocation of the scaled buffer. The adapter is disabled and leaves sizes alone.
    method SendVideo(width: int32, height: int32, timestamp: int, dropped: bool, converted: bool, created: bool)
      returns (buffer: Option<Size>)
      requires Valid() && width > 0 && height > 0
      requires ProductsFit(width, height, frameWidthMax, frameHeightMax)
      modifies this`lastTimestamp
      ensures lastTimestamp ==
        if Accepts(old(lastTimestamp), interFrameLimit, timestamp) then Some(timestamp) else old(lastTimestamp)
      ensures buffer.Some? <==>
        && Accepts(old(lastTimestamp), interFrameLimit, timestamp) && !dropped && converted
        && (created || Computed(width, height, frameWidthMax, frameHeightMax).height == height)
      ensures buffer.Some? ==> buffer.value == Delivered(width, height, frameWidthMax, frameHeightMax)
    {
      if lastTimestamp.Some? && timestamp - lastTimestamp.value < interFrameLimit {
        return None;
      }
      lastTimestamp := Some(timestamp);
      if dropped {
        return None;
      }
      var adaptedWidth: int, adaptedHeight: int := width, height;
      if width >= height && adaptedHeight < MIN_FRAME_DIMENSION {
        assert Fits(width * MIN_FRAME_DIMENSION);
        adaptedWidth := Scale(width, MIN_FRAME_DIMENSION, height);
        adaptedHeight := MIN_FRAME_DIMENSION;
      } else if height > width && adaptedWidth < MIN_FRAME_DIMENSION {
        assert Fits(height * MIN_FRAME_DIMENSION);
        adaptedWidth := MIN_FRAME_DIMENSION;
        adaptedHeight := Scale(height, MIN_FRAME_DIMENSION, width);
      }
      if adaptedHeight > frameHeightMax {
        assert Fits(adaptedWidth * frameHeightMax);
        adaptedWidth := Scale(adaptedWidth, frameHeightMax, adaptedHeight);
        adaptedHeight := frameHeightMax;
      }
      if adaptedWidth > frameWidthMax {
        assert Fits(adaptedHeight * frameWidthMax);
        adaptedHeight := Scale(adaptedHeight, frameWidthMax, adaptedWidth);
        adaptedWidth := frameWidthMax;
      }
      var evenWidth, evenHeight := RoundUpEven(adaptedWidth), RoundUpEven(adaptedHeight);
      if !converted {
        return None;
      }
      var scaledBuffer := Size(width, height);
      if evenHeight != height {
        if !created {
          return None;
        }
        scaledBuffer := Size(evenWidth, evenHeight);
      }
      return Some(scaledBuffer);
    }
  }

  lemma ScaleBounds(x: int, num: int, den: int)
    requires den > 0
    ensures Scale(x, num, den) * den <= x * num < Scale(x, num, den) * den + den
  {
    assert x * num == x * num / den * den + x * num % den;
  }

  lemma ScaleAtLeast(x: int, num: int, den: int, q: int)
    requires den > 0 && q * den <= x * num
    ensures q <= Scale(x, num, den)
  {
    ScaleBounds(x, num, den);
    var r := Scale(x, num, den);
    if r + 1 <= q {
      MulMonotone(r + 1, q, den);
    }
  }

  lemma ScaleAtMost(x: int, num: int, den: int, q: int)
    requires den > 0 && x * num < (q + 1) * den
    ensures Scale(x, num, den) <= q
  {
    ScaleBounds(x, num, den);
    var r := Scale(x, num, den);
    if q + 1 <= r {
      MulMonotone(q + 1, r, den);
    }
  }

  lemma MulMonotone(a: int, b: int, c: int)
    requires a <= b && c >= 0
    ensures a * c <= b * c
  {
  }

  // A size the aspect check lets through.
  predicate Passes(width: int, height: int) {
    width > 0 && height > 0 && Fits(width) && Fits(height) && CheckAspectRatio(width, height).Success?
  }

  // The caps start() can set: Targets.SelectLimits promises no less.
  predicate IsCaps(widthMax: int, heightMax: int) {
    widthMax > 240 && heightMax >= 720
  }

  // The aspect ratio of `s` is that of the input: less than one column too narrow for its height
  // and less than `rows` rows too low for its width.
  predicate Near(s: Size, width: int, height: int, rows: nat) {
    -height < s.width * height - s.height * width < rows * width
  }

  // Two scalings in a row: p is v scaled by k / u, q is k scaled by c / p.
  lemma TwoStep(k: int, c: int, u: int, v: int, p: int, q: int)
    requires 0 < q <= k && 0 < u
    requires p * u <= k * v < p * u + u
    requires q * p <= k * c < q * p + p
    ensures -v < q * v - c * u < u
  {
    TwoStepAbove(k, c, u, v, p, q);
    TwoStepBelow(k, c, u, v, p, q);
  }

  lemma TwoStepAbove(k: int, c: int, u: int, v: int, p: int, q: int)
    requires 0 < q <= k && 0 < u && k * v < p * u + u && q * p <= k * c
    ensures q * v - c * u < u
  {
    calc {
      q * v * k;
    ==  { Swap(q, v, k); }
      k * v * q;
    <  { MulLess(k * v, p * u + u, q); }
      (p * u + u) * q;
    ==  { Regroup(p, u, q); }
      (q * p + q) * u;
    <=  { MulMonotone(q * p + q, k * c + k, u); }
      (k * c + k) * u;
    ==  { Regroup(c, u, k); }
      (c * u + u) * k;
    }
    Cancel(q * v, c * u + u, k);
  }

  lemma TwoStepBelow(k: int, c: int, u: int, v: int, p: int, q: int)
    requires 0 < q <= k && 0 < u && p * u <= k * v && k * c < q * p + p
    ensures -v < q * v - c * u
  {
    calc {
      c * u * k;
    ==  { Rotate(c, u, k); }
      k * c * u;
    <  { MulLess(k * c, q * p + p, u); }
      (q * p + p) * u;
    ==  { Distribute(q, p, u); }
      p * u * q + p * u;
    <=  { MulMonotone(p * u, k * v, q); }
      k * v * q + k * v;
    ==  { Collect(k, v, q); }
      (q * v + v) * k;
    }
    Cancel(c * u, q * v + v, k);
  }

  lemma Cancel(a: int, b: int, c: int)
    requires c > 0 && a * c < b * c
    ensures a < b
  {
    if b <= a {
      MulMonotone(b, a, c);
    }
  }

  lemma Swap(a: int, b: int, c: int)
    ensures a * b * c == c * b * a
  {
  }

  lemma Rotate(a: int, b: int, c: int)
    ensures a * b * c == c * a * b
  {
  }

  lemma Distribute(a: int, b: int, c: int)
    ensures (a * b + b) * c == b * c * a + b * c
  {
  }

  lemma Collect(a: int, b: int, c: int)
    ensures a * b * c + a * b == (c * b + b) * a
  {
  }

  lemma Regroup(a: int, b: int, c: int)
    ensures (a * b + b) * c == (c * a + c) * b
  {
  }

  lemma MulLess(a: int, b: int, c: int)
    requires a < b && c > 0
    ensures a * c < b * c
  {
  }

  // The same after rounding: less than one column and one row too narrow together, and less than
  // `rows` rows and one column too low.
  predicate InShape(s: Size, width: int, height: int, rows: nat) {
    -width - height < s.width * height - s.height * width < rows * width + height
  }

  lemma ItselfInShape(width: int, height: int, rows: nat)
    requires width > 0 && height > 0
    ensures InShape(Size(width, height), width, height, rows)
  {
    assert width * height == height * width;
    MulMonotone(0, rows, width);
  }

  // Scaling one side of a passing size to `dim`.
  lemma OneStep(x: int, y: int, dim: int)
    requires 0 < x <= 3 * y && 0 < y && 0 < dim
    ensures Scale(x, dim, y) <= 3 * dim
    ensures y <= 3 * x ==> dim / 3 <= Scale(x, dim, y)
    ensures y <= x ==> dim <= Scale(x, dim, y)
    ensures -y < Scale(x, dim, y) * y - dim * x <= 0
  {
    ScaleBounds(x, dim, y);
    StepAtMost(x, y, dim);
    if y <= 3 * x {
      StepAtLeast(x, y, dim, dim / 3);
    }
    if y <= x {
      MulMonotone(y, x, dim);
      ScaleAtLeast(x, dim, y, dim);
    }
  }

  lemma StepAtMost(x: int, y: int, dim: int)
    requires 0 < x <= 3 * y && 0 < y && 0 < dim
    ensures Scale(x, dim, y) <= 3 * dim
  {
    MulMonotone(x, 3 * y, dim);
    Regroup3(3, y, dim);
    MulLess(3 * dim, 3 * dim + 1, y);
    ScaleAtMost(x, dim, y, 3 * dim);
  }

  lemma StepAtLeast(x: int, y: int, dim: int, third: int)
    requires 0 < x && 0 < y <= 3 * x && 0 <= third * 3 <= dim
    ensures third <= Scale(x, dim, y)
  {
    MulMonotone(y, 3 * x, third);
    MulMonotone(third * 3, dim, x);
    Regroup3(3, x, third);
    ScaleAtLeast(x, dim, y, third);
  }

  lemma Regroup3(a: int, b: int, c: int)
    ensures a * b * c == a * c * b
  {
  }

  // Under all caps the rescales stay within the caps and keep the aspect ratio.
  lemma ScaledNear(width: int, height: int, widthMax: int, heightMax: int)
    requires Passes(width, height) && IsCaps(widthMax, heightMax)
    ensures var s := Scaled(width, height, widthMax, heightMax);
            && 0 < s.width <= widthMax && 0 < s.height <= heightMax
            && Near(s, width, height, if widthMax >= 360 then 1 else 2)
  {
    if width >= height && height < 360 {
      OneStep(width, height, 360);
      CappedNear(360, widthMax, width, height);
    } else if height > width && width < 360 {
      NarrowNear(width, height, widthMax, heightMax);
    } else {
      CapsNear(width, height, widthMax, heightMax);
    }
  }

  lemma CapsNear(width: int, height: int, widthMax: int, heightMax: int)
    requires Passes(width, height) && IsCaps(widthMax, heightMax)
    ensures var s := WidthCapped(HeightCapped(Size(width, height), heightMax), widthMax);
            0 < s.width <= widthMax && 0 < s.height <= heightMax && Near(s, width, height, 1)
  {
    if height > heightMax {
      OneStep(width, height, heightMax);
      CappedNear(heightMax, widthMax, width, height);
    } else if width > widthMax {
      OneStep(height, width, widthMax);
      MulLess(widthMax, width, height);
      ScaleAtMost(height, widthMax, width, height);
    }
  }

  // A picture narrower than 360 is first widened; a cap below 360 columns then narrows it again.
  lemma NarrowNear(width: int, height: int, widthMax: int, heightMax: int)
    requires Passes(width, height) && IsCaps(widthMax, heightMax) && width < 360 && height > width
    ensures var s := Scaled(width, height, widthMax, heightMax);
            && 0 < s.width <= widthMax && 0 < s.height <= heightMax
            && Near(s, width, height, if widthMax >= 360 then 1 else 2)
  {
    var t := HeightCapped(MinScaled(width, height), heightMax);
    Widened(width, height, heightMax);
    if t.width > widthMax {
      Narrowed(t, widthMax);
      CapAgain(t, widthMax, Scale(t.height, widthMax, t.width), width, height);
    }
  }

  lemma Widened(width: int, height: int, heightMax: int)
    requires 0 < width < 360 && width < height <= 3 * width && heightMax >= 720
    ensures var t := HeightCapped(MinScaled(width, height), heightMax);
            0 < t.width <= 360 <= t.height <= heightMax && Near(t, width, height, 1)
  {
    OneStep(height, width, 360);
    CappedNear(360, heightMax, height, width);
  }

  lemma Narrowed(t: Size, widthMax: int)
    requires 0 < widthMax < t.width <= t.height
    ensures var q := Scale(t.height, widthMax, t.width);
            widthMax <= q <= t.height && q * t.width <= t.height * widthMax < q * t.width + t.width
  {
    MulMonotone(t.width, t.height, widthMax);
    ScaleAtLeast(t.height, widthMax, t.width, widthMax);
    MulLess(widthMax, t.width, t.height);
    ScaleAtMost(t.height, widthMax, t.width, t.height);
    ScaleBounds(t.height, widthMax, t.width);
  }

  // A near size, capped in width once more.
  lemma CapAgain(t: Size, c: int, q: int, x: int, y: int)
    requires Near(t, x, y, 1) && 0 < c < t.width && x > 0 && y > 0
    requires q * t.width <= t.height * c < q * t.width + t.width
    ensures Near(Size(c, q), x, y, 2)
  {
    CapAgainAbove(t, c, q, x, y);
    CapAgainBelow(t, c, q, x, y);
  }

  lemma CapAgainAbove(t: Size, c: int, q: int, x: int, y: int)
    requires t.width * y < t.height * x + x && 0 < c < t.width && x > 0
    requires t.height * c < q * t.width + t.width
    ensures c * y < q * x + 2 * x
  {
    var a, b := t.width, t.height;
    calc {
      c * y * a;
    ==  { Swap(c, y, a); }
      a * y * c;
    <  { MulLess(a * y, b * x + x, c); }
      (b * x + x) * c;
    ==  { Distribute2(b, x, c); }
      b * c * x + c * x;
    <  { MulLess(b * c, q * a + a, x); MulLess(c, a, x); }
      (q * a + a) * x + a * x;
    ==  { Gather(q, a, x); }
      (q * x + 2 * x) * a;
    }
    Cancel(c * y, q * x + 2 * x, a);
  }

  lemma CapAgainBelow(t: Size, c: int, q: int, x: int, y: int)
    requires t.height * x < t.width * y + y && 0 < c < t.width && x > 0 && y > 0
    requires q * t.width <= t.height * c
    ensures q * x < c * y + y
  {
    var a, b := t.width, t.height;
    calc {
      q * x * a;
    ==  { Regroup3(q, x, a); }
      q * a * x;
    <=  { MulMonotone(q * a, b * c, x); }
      b * c * x;
    ==  { Regroup3(b, c, x); }
      b * x * c;
    <  { MulLess(b * x, a * y + y, c); }
      (a * y + y) * c;
    ==  { Distribute2(a, y, c); }
      a * c * y + c * y;
    <  { MulLess(c, a, y); }
      a * c * y + a * y;
    ==  { Collect2(a, c, y); }
      (c * y + y) * a;
    }
    Cancel(q * x, c * y + y, a);
  }

  lemma Distribute2(a: int, b: int, c: int)
    ensures (a * b + b) * c == a * c * b + c * b
  {
  }

  lemma Gather(a: int, b: int, c: int)
    ensures (a * b + b) * c + b * c == (a * c + 2 * c) * b
  {
  }

  lemma Collect2(a: int, b: int, c: int)
    ensures a * b * c + a * c == (b * c + c) * a
  {
  }

  // A side scaled along with a fixed one, then capped.
  lemma CappedNear(fixed: int, cap: int, x: int, y: int)
    requires 0 < x <= 3 * y && 0 < y && 3 <= cap && 0 < fixed
    ensures var p := Scale(x, fixed, y);
            p > cap ==> cap / 3 <= Scale(fixed, cap, p) <= fixed && -x < Scale(fixed, cap, p) * x - cap * y < y
  {
    var p := Scale(x, fixed, y);
    OneStep(x, y, fixed);
    if p > cap {
      OneStepDown(fixed, cap, p);
      ScaleBounds(x, fixed, y);
      ScaleBounds(fixed, cap, p);
      TwoStep(fixed, cap, y, x, p, Scale(fixed, cap, p));
    }
  }

  // Under the default caps, the ranges of both sides.
  lemma ScaledBounds(width: int, height: int)
    requires Passes(width, height)
    ensures var s := Scaled(width, height, 1280, 720); 240 <= s.width <= 1280 && 360 <= s.height <= 720
  {
    if width >= height && height < 360 {
      OneStep(width, height, 360);
    } else if height > width && width < 360 {
      OneStep(height, width, 360);
      CappedNear(360, 720, height, width);
    } else if height > 720 {
      OneStep(width, height, 720);
      CappedNear(720, 1280, width, height);
    } else if width > 1280 {
      OneStep(height, width, 1280);
      ScaleAtMost(height, 1280, width, 720);
    }
  }

  // Scaling `x` down to fit a limit `p` at most three times and at least one time as large as
  // the dimension kept.
  lemma OneStepDown(x: int, dim: int, p: int)
    requires 0 < x && 0 < dim && dim < p <= 3 * x
    ensures dim / 3 <= Scale(x, dim, p) <= x
  {
    StepAtLeast(x, p, dim, dim / 3);
    MulLess(dim, p, x);
    ScaleAtMost(x, dim, p, x);
  }

  // Under all caps the computed size is even, within the caps rounded up to even, and keeps the
  // aspect ratio up to less than one row and one column; to less than two rows and one column if
  // the width cap is below 360.
  lemma AspectPreserved(width: int, height: int, widthMax: int, heightMax: int)
    requires Passes(width, height) && IsCaps(widthMax, heightMax)
    ensures var c := Computed(width, height, widthMax, heightMax);
            && c.width % 2 == 0 && c.height % 2 == 0
            && 0 < c.width <= RoundUpEven(widthMax) && 0 < c.height <= RoundUpEven(heightMax)
            && InShape(c, width, height, if widthMax >= 360 then 1 else 2)
  {
    ScaledNear(width, height, widthMax, heightMax);
    var s, c := Scaled(width, height, widthMax, heightMax), Computed(width, height, widthMax, heightMax);
    RoundError(s.width, c.width, height);
    RoundError(s.height, c.height, width);
  }

  lemma RoundError(x: int, r: int, y: int)
    requires x <= r <= x + 1 && y > 0
    ensures x * y <= r * y <= x * y + y
  {
    if r == x + 1 {
      assert r * y == x * y + y;
    }
  }

  // Exactly when the picture handed on is wider than the cap, rounded up to even: it is too wide,
  // and scaling it to the caps would not change its height after rounding.
  lemma WiderThanCapExactly(width: int, height: int, widthMax: int, heightMax: int)
    requires Passes(width, height) && widthMax >= 360 && heightMax >= 720
    ensures Delivered(width, height, widthMax, heightMax).width > RoundUpEven(widthMax) <==>
      && width > RoundUpEven(widthMax) && height % 2 == 0
      && (if height < 360 then (height - 1) * (width * 360 / height) <= 360 * widthMax
          else if height <= heightMax then width * (height - 1) <= widthMax * height
          else height == heightMax + 1 && width * heightMax < (widthMax + 1) * height)
  {
    ScaledNear(width, height, widthMax, heightMax);
    if width > RoundUpEven(widthMax) {
      if height < 360 {
        LowKept(width, height, widthMax, heightMax);
      } else if height <= heightMax {
        MiddleKept(width, height, widthMax, heightMax);
      } else {
        TallKept(width, height, widthMax, heightMax);
      }
    }
  }

  lemma LowKept(width: int, height: int, widthMax: int, heightMax: int)
    requires Passes(width, height) && 360 <= widthMax < width && heightMax >= 720 && height < 360
    ensures Scaled(width, height, widthMax, heightMax).height <= height
    ensures height - 1 <= Scaled(width, height, widthMax, heightMax).height <==>
      (height - 1) * (width * 360 / height) <= 360 * widthMax
  {
    var p := Scale(width, 360, height);
    MulMonotone(height, 360, width);
    ScaleAtLeast(width, 360, height, width);
    ScaleBounds(width, 360, height);
    assert (height + 1) * p == p * height + p;
    ScaleAtMost(360, widthMax, p, height);
    if (height - 1) * p <= 360 * widthMax {
      ScaleAtLeast(360, widthMax, p, height - 1);
    } else {
      ScaleAtMost(360, widthMax, p, height - 2);
    }
  }

  lemma MiddleKept(width: int, height: int, widthMax: int, heightMax: int)
    requires Passes(width, height) && 360 <= widthMax < width && 360 <= height <= heightMax
    ensures Scaled(width, height, widthMax, heightMax).height <= height
    ensures height - 1 <= Scaled(width, height, widthMax, heightMax).height <==>
      width * (height - 1) <= widthMax * height
  {
    MulLess(widthMax, width, height);
    ScaleAtMost(height, widthMax, width, height);
    if width * (height - 1) <= widthMax * height {
      ScaleAtLeast(height, widthMax, width, height - 1);
    } else {
      ScaleAtMost(height, widthMax, width, height - 2);
    }
  }

  lemma TallKept(width: int, height: int, widthMax: int, heightMax: int)
    requires Passes(width, height) && 360 <= widthMax < width && 720 <= heightMax < height
    ensures Scaled(width, height, widthMax, heightMax).height <= heightMax
    ensures height - 1 <= Scaled(width, height, widthMax, heightMax).height <==>
      height == heightMax + 1 && width * heightMax < (widthMax + 1) * height
  {
    var p := Scale(width, heightMax, height);
    if width * heightMax < (widthMax + 1) * height {
      ScaleAtMost(width, heightMax, height, widthMax);
    } else {
      ScaleAtLeast(width, heightMax, height, widthMax + 1);
      MulLess(widthMax, p, heightMax);
      ScaleAtMost(heightMax, widthMax, p, heightMax - 1);
    }
  }

  // Under all caps the picture handed on misses the width cap by at most three columns and the
  // height cap by at most one row.
  lemma DeliveredNearCaps(width: int, height: int, widthMax: int, heightMax: int)
    requires Passes(width, height) && IsCaps(widthMax, heightMax)
    ensures Delivered(width, height, widthMax, heightMax).width <= widthMax + 3
    ensures Delivered(width, height, widthMax, heightMax).height <= RoundUpEven(heightMax)
  {
    ScaledNear(width, height, widthMax, heightMax);
    var s, c := Scaled(width, height, widthMax, heightMax), Computed(width, height, widthMax, heightMax);
    if c.height == height {
      KeptNearCap(s, width, height);
    }
  }

  lemma KeptNearCap(s: Size, width: int, height: int)
    requires 0 < width <= 3 * height && s.height >= height - 1
    requires s.height * width < s.width * height + height
    ensures width <= s.width + 3
  {
    if width >= s.width + 4 {
      MulMonotone(height - 1, s.height, width);
      MulMonotone(s.width + 1, width - 3, height);
      assert (height - 1) * width < (width - 3) * height;
      Expand(width, height);
    }
  }

  lemma Expand(w: int, h: int)
    ensures (h - 1) * w - (w - 3) * h == 3 * h - w
  {
  }

  // Under all caps the picture handed on keeps the aspect ratio as the computed size does, and is
  // even if it was rescaled.
  lemma DeliveredKeepsAspect(width: int, height: int, widthMax: int, heightMax: int)
    requires Passes(width, height) && IsCaps(widthMax, heightMax)
    ensures var d := Delivered(width, height, widthMax, heightMax);
            && InShape(d, width, height, if widthMax >= 360 then 1 else 2)
            && (d != Size(width, height) ==> d.width % 2 == 0 && d.height % 2 == 0)
  {
    AspectPreserved(width, height, widthMax, heightMax);
    ItselfInShape(width, height, if widthMax >= 360 then 1 else 2);
  }

  // And it is as large as it can be: a picture within the caps and from 360 up is not rescaled but
  // for the rounding, a rescaled one reaches a cap, or has 360 on its short side if it had less.
  lemma DeliveredAsLarge(width: int, height: int, widthMax: int, heightMax: int)
    requires Passes(width, height) && IsCaps(widthMax, heightMax)
    ensures var d := Delivered(width, height, widthMax, heightMax);
            var reachesCap := d.width == RoundUpEven(widthMax) || d.height == RoundUpEven(heightMax);
            if Min(width, height) < 360 then
              d == Size(width, height) || reachesCap || Min(d.width, d.height) == 360
            else if width > widthMax || height > heightMax then
              d == Size(width, height) || reachesCap
            else
              d == if height % 2 == 0 then Size(width, height) else Size(RoundUpEven(width), height + 1)
  {
    if width >= height && height < 360 {
      OneStep(width, height, 360);
    } else if height > width && width < 360 {
      OneStep(height, width, 360);
    }
  }

  // Under the default caps: always 360 to 720 rows, an even number of them, and 240 to 1282
  // columns. The width cap is missed by at most 2, and only by pictures that were not rescaled.
  lemma DeliveredBounds(width: int, height: int)
    requires Passes(width, height)
    ensures var d := Delivered(width, height, 1280, 720);
            && 360 <= d.height <= 720 && d.height % 2 == 0
            && 240 <= d.width <= 1282
            && (d.width > 1280 ==> d == Size(width, height))
  {
    ScaledBounds(width, height);
    WiderThanCapExactly(width, height, 1280, 720);
    if width > 1282 && width * (height - 1) <= 1280 * height {
      MulMonotone(1283, width, height - 1);
    }
    if width < 240 {
      OneStep(height, width, 360);
      NotShorter(width, height);
    }
  }

  // A picture narrower than 240 is never passed on as it is.
  lemma NotShorter(width: int, height: int)
    requires Passes(width, height) && width < 240
    ensures Computed(width, height, 1280, 720).height != height
  {
    if height < width {
      OneStep(width, height, 360);
    } else if height > width {
      ScaleAtLeast(height, 360, width, height + 1) by {
        assert (height + 1) * width == height * width + width;
        MulMonotone(width, 240, height);
      }
    } else {
      OneStep(width, height, 360);
    }
  }

  // Both ends are reached, ...
  lemma ExtremesReached()
    ensures Passes(1282, 428) && Delivered(1282, 428, 1280, 720) == Size(1282, 428)
    ensures Passes(240, 720) && Delivered(240, 720, 1280, 720) == Size(240, 720)
  {
  }

  // ... and under odd caps that the aspect check accepts, the three columns and the row.
  lemma OddCapsExceeded()
    ensures Passes(2163, 721) && Passes(2166, 722) && Delivered(2166, 722, 2163, 721) == Size(2166, 722)
  {
    assert Scale(2166, 721, 722) == 2163;
    assert Scaled(2166, 722, 2163, 721) == Size(2163, 721);
  }

  // The width cap is reached after the height has been capped.
  predicate TooWide(width: int, height: int, widthMax: int, heightMax: int) {
    if height > heightMax then width * heightMax >= (widthMax + 1) * height else width > widthMax
  }

  // Under any caps no product leaves int32 exactly as long as the two do not that the caps ask
  // for; those of the rescale to at least 360 never do.
  lemma ProductsFitExactly(width: int, height: int, widthMax: int, heightMax: int)
    requires Passes(width, height) && widthMax > 0 && heightMax > 0
    ensures ProductsFit(width, height, widthMax, heightMax) <==>
      && (height > heightMax ==> Fits(width * heightMax))
      && (TooWide(width, height, widthMax, heightMax) ==> Fits(Min(height, heightMax) * widthMax))
  {
    if width < 1080 && height < 1080 {
      SmallProductsFit(width, height, widthMax, heightMax);
    } else if height > heightMax {
      if width * heightMax >= (widthMax + 1) * height {
        ScaleAtLeast(width, heightMax, height, widthMax + 1);
      } else {
        ScaleAtMost(width, heightMax, height, widthMax);
      }
    }
  }

  lemma SmallProductsFit(width: int, height: int, widthMax: int, heightMax: int)
    requires Passes(width, height) && widthMax > 0 && heightMax > 0 && width < 1080 && height < 1080
    ensures ProductsFit(width, height, widthMax, heightMax)
    ensures height > heightMax ==> Fits(width * heightMax)
    ensures TooWide(width, height, widthMax, heightMax) ==> Fits(Min(height, heightMax) * widthMax)
  {
    var m := MinScaled(width, height);
    SmallSides(width, height);
    SmallCapped(m, heightMax);
    SmallProduct(width, 360);
    SmallProduct(height, 360);
    SmallProduct(m.width, Min(heightMax, 1080));
    SmallProduct(HeightCapped(m, heightMax).height, Min(widthMax, 1080));
    SmallProduct(width, Min(heightMax, 1080));
    SmallProduct(Min(height, heightMax), Min(widthMax, 1080));
    if TooWide(width, height, widthMax, heightMax) {
      SmallTooWide(width, height, widthMax, heightMax);
    }
  }

  lemma SmallTooWide(width: int, height: int, widthMax: int, heightMax: int)
    requires 0 < width && 0 < height && TooWide(width, height, widthMax, heightMax)
    ensures widthMax < width
  {
    if height > heightMax {
      MulLess(heightMax, height, width);
      Cancel(widthMax + 1, width, height);
    }
  }

  lemma SmallCapped(m: Size, heightMax: int)
    requires 0 < m.width <= 1080 && 0 < m.height <= 1080 && heightMax > 0
    ensures var c := HeightCapped(m, heightMax); 0 <= c.width <= 1080 && 0 < c.height <= 1080
  {
    if m.height > heightMax {
      MulLess(heightMax, m.height, m.width);
      ScaleAtMost(m.width, heightMax, m.height, m.width);
      MulMonotone(0, m.width, heightMax);
      ScaleAtLeast(m.width, heightMax, m.height, 0);
    }
  }

  lemma SmallSides(width: int, height: int)
    requires Passes(width, height) && width < 1080 && height < 1080
    ensures var m := MinScaled(width, height); 0 < m.width <= 1080 && 0 < m.height <= 1080
  {
    if width >= height && height < 360 {
      OneStep(width, height, 360);
    } else if height > width && width < 360 {
      OneStep(height, width, 360);
    }
  }

  lemma SmallProduct(a: int, b: int)
    requires 0 <= a <= 1080 && 0 <= b <= 1080
    ensures Fits(a * b)
  {
    MulMonotone(a, 1080, b);
    MulMonotone(0, a, b);
  }

  // By default that is as long as the width is at most 2982616.
  lemma ProductsFitByDefault(width: int, height: int)
    requires Passes(width, height)
    ensures ProductsFit(width, height, 1280, 720) <==> width <= 2982616
  {
    ProductsFitExactly(width, height, 1280, 720);
  }

  // The timestamps the limiter lets through.
  function Accepted(last: Option<int>, limit: int, timestamps: seq<int>): (r: seq<int>)
    ensures |r| <= |timestamps|
    decreases |timestamps|
  {
    if timestamps == [] then []
    else
      var t, rest := timestamps[0], timestamps[1..];
      if Accepts(last, limit, t) then [t] + Accepted(Some(t), limit, rest) else Accepted(last, limit, rest)
  }

  // What the capturer remembers after accepting these.
  function LastAccepted(last: Option<int>, accepted: seq<int>): Option<int> {
    if accepted == [] then last else Some(accepted[|accepted| - 1])
  }

  // One more frame: the test against the remembered timestamp decides, as SendVideo does it.
  lemma {:induction false} AcceptedSnoc(last: Option<int>, limit: int, timestamps: seq<int>, t: int)
    ensures var before := Accepted(last, limit, timestamps);
            Accepted(last, limit, timestamps + [t]) ==
              before + if Accepts(LastAccepted(last, before), limit, t) then [t] else []
    decreases |timestamps|
  {
    if timestamps == [] {
      assert timestamps + [t] == [t] && [t][1..] == [];
    } else {
      var u, rest := timestamps[0], timestamps[1..];
      assert (timestamps + [t])[1..] == rest + [t];
      AcceptedSnoc(if Accepts(last, limit, u) then Some(u) else last, limit, rest, t);
    }
  }

  // Each timestamp at least `limit` behind the one before it.
  predicate Spaced(last: Option<int>, limit: int, timestamps: seq<int>)
    decreases |timestamps|
  {
    timestamps == [] ||
    (Accepts(last, limit, timestamps[0]) && Spaced(Some(timestamps[0]), limit, timestamps[1..]))
  }

  // `part` is what is left of `whole` after leaving out some of its elements.
  predicate Selects(whole: seq<int>, part: seq<int>) {
    || part == []
    || (whole != [] && whole[0] == part[0] && Selects(whole[1..], part[1..]))
    || (whole != [] && Selects(whole[1..], part))
  }

  lemma {:induction false} AcceptedIsSpaced(last: Option<int>, limit: int, timestamps: seq<int>)
    ensures Spaced(last, limit, Accepted(last, limit, timestamps))
    ensures Selects(timestamps, Accepted(last, limit, timestamps))
    decreases |timestamps|
  {
    if timestamps == [] {
    } else {
      var t, rest := timestamps[0], timestamps[1..];
      if Accepts(last, limit, t) {
        AcceptedIsSpaced(Some(t), limit, rest);
        var r := Accepted(Some(t), limit, rest);
        assert ([t] + r)[0] == t && ([t] + r)[1..] == r;
      } else {
        AcceptedIsSpaced(last, limit, rest);
      }
    }
  }

  // Frames that are j - i places apart are at least j - i limits apart.
  lemma {:induction false} SpacedSpans(last: Option<int>, limit: int, timestamps: seq<int>, i: nat, j: nat)
    requires Spaced(last, limit, timestamps) && i <= j < |timestamps|
    ensures timestamps[j] - timestamps[i] >= (j - i) * limit
    ensures last.Some? ==> timestamps[i] - last.value >= (i + 1) * limit
    ensures limit > 0 && i < j ==> timestamps[i] < timestamps[j]
    decreases |timestamps|
  {
    if i > 0 {
      SpacedSpans(Some(timestamps[0]), limit, timestamps[1..], i - 1, j - 1);
      assert (i + 1) * limit == i * limit + limit;
    } else if j > 0 {
      SpacedSpans(Some(timestamps[0]), limit, timestamps[1..], 0, j - 1);
      SpacedSpans(Some(timestamps[0]), limit, timestamps[1..], j - 1, j - 1);
    }
    if limit > 0 && i < j {
      MulMonotone(1, j - i, limit);
    }
  }

  // Nothing is lost exactly when the stream itself keeps the distance.
  lemma {:induction false} LosesNothing(last: Option<int>, limit: int, timestamps: seq<int>)
    ensures Accepted(last, limit, timestamps) == timestamps <==> Spaced(last, limit, timestamps)
    decreases |timestamps|
  {
    if timestamps == [] {
    } else {
      var t, rest := timestamps[0], timestamps[1..];
      LosesNothing(Some(t), limit, rest);
      assert timestamps == [t] + rest;
      if Accepts(last, limit, t) {
        assert ([t] + Accepted(Some(t), limit, rest))[1..] == Accepted(Some(t), limit, rest);
      } else {
        assert |Accepted(last, limit, rest)| <= |rest|;
      }
    }
  }

  // At the limit for a frame rate, nothing is lost exactly if, counted in whole microseconds, no
  // frame comes earlier than it would at two frames per second more.
  lemma {:induction false} FramerateKept(framerate: int, limit: int, timestamps: seq<int>)
    requires framerate > -2 && IsIntervalFor(limit, framerate)
    ensures Accepted(None, limit, timestamps) == timestamps <==>
      forall k :: 0 < k < |timestamps| ==> (timestamps[k] - timestamps[k - 1] + 1) * (framerate + 2) > 1000000
  {
    LosesNothing(None, limit, timestamps);
    SpacedExactly(None, limit, timestamps);
    forall k | 0 < k < |timestamps|
      ensures timestamps[k] - timestamps[k - 1] >= limit <==>
        (timestamps[k] - timestamps[k - 1] + 1) * (framerate + 2) > 1000000
    {
      GapReaches(timestamps[k] - timestamps[k - 1], limit, framerate);
    }
  }

  lemma GapReaches(gap: int, limit: int, framerate: int)
    requires framerate > -2 && IsIntervalFor(limit, framerate)
    ensures gap >= limit <==> (gap + 1) * (framerate + 2) > 1000000
  {
    if gap >= limit {
      MulMonotone(limit + 1, gap + 1, framerate + 2);
    } else {
      MulMonotone(gap + 1, limit, framerate + 2);
    }
  }

  lemma {:induction false} SpacedExactly(last: Option<int>, limit: int, timestamps: seq<int>)
    ensures Spaced(last, limit, timestamps) <==>
      && (timestamps != [] ==> Accepts(last, limit, timestamps[0]))
      && forall k :: 0 < k < |timestamps| ==> timestamps[k] - timestamps[k - 1] >= limit
    decreases |timestamps|
  {
    if |timestamps| <= 1 {
    } else {
      var rest := timestamps[1..];
      SpacedExactly(Some(timestamps[0]), limit, rest);
      assert rest[0] == timestamps[1];
      forall k | 0 < k < |rest| ensures rest[k] - rest[k - 1] == timestamps[k + 1] - timestamps[k] {}
      forall k | 1 < k < |timestamps| ensures timestamps[k] - timestamps[k - 1] == rest[k - 1] - rest[k - 2] {}
    }
  }

  // In particular a stream paced at the requested rate loses nothing.
  lemma {:induction false} PacedLosesNothing(framerate: int, limit: int, timestamps: seq<int>)
    requires framerate > 0 && IsIntervalFor(limit, framerate)
    requires forall k :: 0 < k < |timestamps| ==> timestamps[k] - timestamps[k - 1] >= 1000000 / framerate
    ensures Accepted(None, limit, timestamps) == timestamps
  {
    var gap := 1000000 / framerate;
    ScaleBounds(1000000, 1, framerate);
    MulMonotone(0, gap + 1, 2);
    assert (gap + 1) * (framerate + 2) == gap * framerate + framerate + (gap + 1) * 2;
    GapReaches(gap, limit, framerate);
    LosesNothing(None, limit, timestamps);
    SpacedExactly(None, limit, timestamps);
  }

  // However fast frames come in: accepted ones that lie less than a second apart are as few as
  // the interval says, which up to 998 frames per second is at most the requested number plus
  // three, and plus two if a second divides evenly.
  lemma {:induction false} FramesPerSecond(
    framerate: int, limit: int, last: Option<int>, timestamps: seq<int>, i: nat, j: nat)
    requires framerate > 0 && IsIntervalFor(limit, framerate)
    requires i <= j < |Accepted(last, limit, timestamps)|
    requires Accepted(last, limit, timestamps)[j] - Accepted(last, limit, timestamps)[i] < 1000000
    ensures (j - i) * limit < 1000000
    ensures framerate <= 998 ==> j - i + 1 <= framerate + 3
    ensures 1000000 % (framerate + 2) == 0 ==> j - i + 1 <= framerate + 2
  {
    var d, n := framerate + 2, j - i;
    AcceptedIsSpaced(last, limit, timestamps);
    SpacedSpans(last, limit, Accepted(last, limit, timestamps), i, j);
    if framerate <= 998 && n > d {
      IntervalCovers(limit, framerate);
      MulMonotone(d + 1, n, limit);
    }
    if 1000000 % d == 0 && n >= d {
      EvenInterval(limit, framerate);
      MulMonotone(d, n, limit);
    }
  }

  // And that many do get through.
  lemma BurstPasses(framerate: int, limit: int) returns (timestamps: seq<int>)
    requires framerate > 0 && IsIntervalFor(limit, framerate)
    ensures |timestamps| == framerate + 2 + (if 1000000 % (framerate + 2) == 0 then 0 else 1)
    ensures Accepted(None, limit, timestamps) == timestamps
    ensures timestamps[|timestamps| - 1] - timestamps[0] < 1000000
  {
    var n := framerate + 2 + if 1000000 % (framerate + 2) == 0 then 0 else 1;
    timestamps := seq(n, k => k * limit);
    EvenlyPaced(n, limit, timestamps);
    BurstSpan(framerate, limit, n);
  }

  lemma {:induction false} EvenlyPaced(n: nat, limit: int, timestamps: seq<int>)
    requires |timestamps| == n && forall k :: 0 <= k < n ==> timestamps[k] == k * limit
    ensures Accepted(None, limit, timestamps) == timestamps
  {
    forall k | 0 < k < n ensures timestamps[k] - timestamps[k - 1] >= limit {
      assert k * limit == (k - 1) * limit + limit;
    }
    SpacedExactly(None, limit, timestamps);
    LosesNothing(None, limit, timestamps);
  }

  lemma BurstSpan(framerate: int, limit: int, n: int)
    requires framerate > 0 && IsIntervalFor(limit, framerate)
    requires n == framerate + 2 + if 1000000 % (framerate + 2) == 0 then 0 else 1
    ensures (n - 1) * limit < 1000000
  {
    var d := framerate + 2;
    if n == d {
      assert (d - 1) * limit == limit * d - limit;
    } else {
      UnevenInterval(limit, d);
    }
  }

  lemma UnevenInterval(limit: int, d: int)
    requires d > 0 && 1000000 % d != 0
    ensures d * limit != 1000000
  {
    var q := 1000000 / d;
    assert 1000000 == q * d + 1000000 % d;
    if limit <= q {
      MulMonotone(limit, q, d);
    } else {
      MulMonotone(q + 1, limit, d);
    }
  }

  // One interval more than asked for is longer than a second.
  lemma IntervalCovers(limit: int, framerate: int)
    requires 0 < framerate <= 998 && IsIntervalFor(limit, framerate)
    ensures limit > 0 && (framerate + 3) * limit >= 1000000
  {
    var d := framerate + 2;
    MulMonotone(d, 1000, d);
    assert d * d <= 1000000 < (limit + 1) * d;
    Cancel(d, limit + 1, d);
    assert (d + 1) * limit == limit * d + limit;
  }

  lemma EvenInterval(limit: int, framerate: int)
    requires framerate > 0 && IsIntervalFor(limit, framerate) && 1000000 % (framerate + 2) == 0
    ensures (framerate + 2) * limit == 1000000
  {
    var d, q := framerate + 2, 1000000 / (framerate + 2);
    assert q * d == 1000000;
    if limit < q {
      MulMonotone(limit + 1, q, d);
    }
  }

  predicate NonDecreasing(timestamps: seq<int>) {
    forall i, j :: 0 <= i < j < |timestamps| ==> timestamps[i] <= timestamps[j]
  }

  lemma {:induction false} SelectsTail(whole: seq<int>, part: seq<int>)
    requires Selects(whole, part) && part != []
    ensures Selects(whole, part[1..]) && exists i :: 0 <= i < |whole| && whole[i] == part[0]
  {
    if whole[0] == part[0] && Selects(whole[1..], part[1..]) {
    } else {
      SelectsTail(whole[1..], part);
      var i :| 0 <= i < |whole[1..]| && whole[1..][i] == part[0];
      assert whole[i + 1] == part[0];
    }
  }

  // Greedy is optimal: for non-decreasing timestamps no selection that keeps the distance is
  // larger than the one the limiter makes, even if the limiter starts from an older frame.
  lemma {:induction false} AcceptedIsLargest(
    last: Option<int>, other: Option<int>, limit: int, timestamps: seq<int>, selection: seq<int>)
    requires NonDecreasing(timestamps)
    requires last.None? || (other.Some? && last.value <= other.value)
    requires Selects(timestamps, selection) && Spaced(other, limit, selection)
    ensures |selection| <= |Accepted(last, limit, timestamps)|
    decreases |timestamps|
  {
    if selection == [] {
    } else {
      var t, rest := timestamps[0], timestamps[1..];
      assert NonDecreasing(rest);
      if t == selection[0] && Selects(rest, selection[1..]) {
        AcceptedIsLargest(Some(t), Some(t), limit, rest, selection[1..]);
      } else if Accepts(last, limit, t) {
        // The limiter takes t where the selection waits for a later frame.
        SelectsTail(rest, selection);
        AcceptedIsLargest(Some(t), Some(selection[0]), limit, rest, selection[1..]);
      } else {
        AcceptedIsLargest(last, other, limit, rest, selection);
      }
    }
  }
}
