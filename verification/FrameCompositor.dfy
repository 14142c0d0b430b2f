/**
  Blending an overlay into a video frame. The geometry is exact: the scale is the smaller of two
  fractions, and truncations to pixels are integer divisions. `Expected` says, byte by byte and
  without any loop, what the composited frame holds.
*/
module FrameCompositor {
  import opened Arithmetic
  import opened Wrappers
  import opened Frames

  const BGR_BYTES: nat := 3
  const RGBA_BYTES: nat := 4
  const MAX_ALPHA: nat := 255

  // ---------- Geometry ----------

  /** The drawn rectangle, and the scale as the fraction `num / den`. */
  datatype Box = Box(offX: nat, offY: nat, drawW: nat, drawH: nat, num: nat, den: nat)

  /** The largest rectangle of the overlay's shape that fits the frame, centered. */
  function Fit(fw: nat, fh: nat, ow: nat, oh: nat): Box
    requires fw > 0 && fh > 0 && ow > 0 && oh > 0
  {
    var (num, den) := if fw * oh <= fh * ow then (fw, ow) else (fh, oh);
    var drawW := Max(1, ow * num / den);
    var drawH := Max(1, oh * num / den);
    Box((fw - Min(fw, drawW)) / 2, (fh - Min(fh, drawH)) / 2, drawW, drawH, num, den)
  }

  /** Nearest neighbour: drawn column or row `d` shows this column or row of the overlay. */
  function Sample(d: nat, box: Box, limit: nat): nat
    requires limit > 0 && box.num > 0
  {
    Min(limit - 1, d * box.den / box.num)
  }

  /**
    The scale is the smaller of the two that make the overlay as wide or as high as the frame, and
    the drawn sizes are the scaled sizes cut to whole pixels, at least one.
  */
  lemma FitKeepsAspect(fw: nat, fh: nat, ow: nat, oh: nat)
    requires fw > 0 && fh > 0 && ow > 0 && oh > 0
    ensures var b := Fit(fw, fh, ow, oh);
            && b.num > 0 && b.den > 0
            && ((b.num == fw && b.den == ow) || (b.num == fh && b.den == oh))
            && b.num * ow <= fw * b.den && b.num * oh <= fh * b.den
            && (b.drawW * b.den <= ow * b.num || b.drawW == 1) && ow * b.num < b.drawW * b.den + b.den
            && (b.drawH * b.den <= oh * b.num || b.drawH == 1) && oh * b.num < b.drawH * b.den + b.den
  {
    var b := Fit(fw, fh, ow, oh);
    QuotientBounds(ow * b.num, b.den);
    QuotientBounds(oh * b.num, b.den);
    ProductIsMonotone(ow * b.num / b.den, b.drawW, b.den);
    ProductIsMonotone(oh * b.num / b.den, b.drawH, b.den);
  }

  lemma ExactQuotient(a: nat, b: nat)
    requires b > 0
    ensures a * b / b == a
    ensures b * a / b == a
  {
    var x := a * b;
    QuotientOf(x, b, a, 0);
    assert b * a == x;
  }

  lemma QuotientAtMost(x: nat, size: nat, limit: nat)
    requires size > 0 && x <= limit * size
    ensures x / size <= limit
  {
    QuotientIsMonotone(x, limit * size, size);
    ExactQuotient(limit, size);
  }

  /**
    The letterbox: the rectangle lies inside the frame, touches it fully in one dimension, and
    opposite margins differ by at most one pixel.
  */
  lemma LetterboxFits(fw: nat, fh: nat, ow: nat, oh: nat)
    requires fw > 0 && fh > 0 && ow > 0 && oh > 0
    ensures var b := Fit(fw, fh, ow, oh);
            && b.num > 0 && b.den > 0
            && 1 <= b.drawW <= fw && 1 <= b.drawH <= fh
            && (b.drawW == fw || b.drawH == fh)
            && b.offX + b.drawW <= fw && 0 <= (fw - b.offX - b.drawW) - b.offX <= 1
            && b.offY + b.drawH <= fh && 0 <= (fh - b.offY - b.drawH) - b.offY <= 1
  {
    if fw * oh <= fh * ow {
      ExactQuotient(fw, ow);
      QuotientAtMost(oh * fw, ow, fh);
    } else {
      ExactQuotient(fh, oh);
      QuotientAtMost(ow * fh, oh, fw);
    }
  }

  /** A drawn position samples below the overlay's size even without the clamp. */
  lemma SampleNeedsNoClamp(d: nat, box: Box, limit: nat)
    requires limit > 0 && box.num > 0 && box.den > 0
    requires d < Max(1, limit * box.num / box.den)
    ensures d * box.den / box.num < limit
    ensures Sample(d, box, limit) == d * box.den / box.num
  {
    if d == 0 {
      assert 0 * box.den == 0;
    } else {
      QuotientBounds(limit * box.num, box.den);
      MultiplesAreApart(d, limit * box.num / box.den, box.den);
      assert d * box.den < limit * box.num;
      var q := d * box.den / box.num;
      QuotientBounds(d * box.den, box.num);
      if q >= limit {
        ProductIsMonotone(limit, q, box.num);
      }
    }
  }

  /** Every position drawn in a frame samples inside the overlay, the clamp never taking effect. */
  lemma FitSamplesInside(fw: nat, fh: nat, ow: nat, oh: nat, dx: nat, dy: nat)
    requires fw > 0 && fh > 0 && ow > 0 && oh > 0
    requires var b := Fit(fw, fh, ow, oh); dx < b.drawW && dy < b.drawH
    ensures var b := Fit(fw, fh, ow, oh);
            && b.num > 0
            && Sample(dx, b, ow) == dx * b.den / b.num < ow
            && Sample(dy, b, oh) == dy * b.den / b.num < oh
  {
    var b := Fit(fw, fh, ow, oh);
    SampleNeedsNoClamp(dx, b, ow);
    SampleNeedsNoClamp(dy, b, oh);
  }

  /** Sampling keeps the order of columns and rows. */
  lemma SampleIsMonotone(d: nat, e: nat, box: Box, limit: nat)
    requires limit > 0 && box.num > 0 && d <= e
    ensures Sample(d, box, limit) <= Sample(e, box, limit) < limit
  {
    ProductIsMonotone(d, e, box.den);
    QuotientIsMonotone(d * box.den, e * box.den, box.num);
  }

  /** Scaled down, no overlay column or row is shown twice. */
  lemma ShrinkingNeverRepeats(d: nat, e: nat, box: Box, limit: nat)
    requires limit > 0 && 0 < box.num <= box.den
    requires d < e < Max(1, limit * box.num / box.den)
    ensures Sample(d, box, limit) < Sample(e, box, limit)
  {
    SampleNeedsNoClamp(d, box, limit);
    SampleNeedsNoClamp(e, box, limit);
    MultiplesAreApart(d, e, box.den);
    var q := d * box.den / box.num;
    QuotientBounds(d * box.den, box.num);
    assert (q + 1) * box.num == q * box.num + box.num;
    QuotientIsMonotone((q + 1) * box.num, e * box.den, box.num);
    ExactQuotient(q + 1, box.num);
  }

  /**
    Scaled up, every overlay column or row is shown, except perhaps the last one in the dimension
    in which the scaled size is not a whole number of pixels.
  */
  lemma EnlargingShowsAll(target: nat, box: Box, limit: nat) returns (d: nat)
    requires target < limit && 0 < box.den <= box.num
    requires target + 1 < limit || limit * box.num % box.den == 0
    ensures d < Max(1, limit * box.num / box.den) && Sample(d, box, limit) == target
  {
    var x, total := target * box.num, limit * box.num;
    d := (x + box.den - 1) / box.den;
    QuotientBounds(x + box.den - 1, box.den);
    QuotientBetween(d * box.den, box.num, target);
    MultiplesAreApart(target, limit, box.num);
    var m := total / box.den;
    QuotientBounds(total, box.den);
    if target + 1 < limit {
      MultiplesAreApart(target + 1, limit, box.num);
      assert (target + 1) * box.num == x + box.num;
    }
    if d >= m {
      ProductIsMonotone(m, d, box.den);
      assert false;
    }
  }

  /**
    Exactly which overlay columns or rows are shown when scaling up: those whose first drawn
    position, rounded up, is still inside the drawn rectangle.
  */
  lemma EnlargedIsShownIff(target: nat, box: Box, limit: nat)
    requires target < limit && 0 < box.den <= box.num
    ensures (exists d: nat :: d < Max(1, limit * box.num / box.den) && Sample(d, box, limit) == target)
       <==> (target * box.num + box.den - 1) / box.den < Max(1, limit * box.num / box.den)
  {
    var x, drawn := target * box.num, Max(1, limit * box.num / box.den);
    var first := (x + box.den - 1) / box.den;
    QuotientBounds(x + box.den - 1, box.den);
    if first < drawn {
      QuotientBetween(first * box.den, box.num, target);
      assert Sample(first, box, limit) == target;
    }
    if d: nat :| d < drawn && Sample(d, box, limit) == target {
      SampleNeedsNoClamp(d, box, limit);
      QuotientBounds(d * box.den, box.num);
      NotBefore(d, first, box.den, x);
    }
  }

  lemma NotBefore(d: nat, first: nat, den: nat, x: nat)
    requires den > 0 && d * den >= x && first * den < x + den
    ensures first <= d
  {
    if first > d {
      MultiplesAreApart(d, first, den);
    }
  }

  /** Such a last row can indeed be lost: here the second of two overlay rows is never sampled. */
  lemma LastRowCanBeLost()
    ensures var b := Fit(4, 3, 3, 2);
            b.num > b.den > 0 && b.drawH == 2 && forall d: nat | d < b.drawH :: Sample(d, b, 2) == 0
  {
    assert Fit(4, 3, 3, 2).num == 4 && Fit(4, 3, 3, 2).den == 3;
  }

  // ---------- The composited frame, byte by byte ----------

  lemma MeanIsBetween(src: Byte, ov: Byte, alpha: Byte, x: int)
    requires x == src * (MAX_ALPHA - alpha) + ov * alpha
    ensures Min(src, ov) * MAX_ALPHA <= x <= Max(src, ov) * MAX_ALPHA
    ensures Min(src, ov) <= x / MAX_ALPHA <= Max(src, ov)
    ensures alpha == MAX_ALPHA ==> x / MAX_ALPHA == ov
    ensures alpha == 0 ==> x / MAX_ALPHA == src
  {
    var lo, hi := Min(src, ov), Max(src, ov);
    ProductIsMonotone(lo, src, MAX_ALPHA - alpha);
    ProductIsMonotone(lo, ov, alpha);
    ProductIsMonotone(src, hi, MAX_ALPHA - alpha);
    ProductIsMonotone(ov, hi, alpha);
    assert lo * (MAX_ALPHA - alpha) + lo * alpha == lo * MAX_ALPHA;
    assert hi * (MAX_ALPHA - alpha) + hi * alpha == hi * MAX_ALPHA;
  }

  /** The blend of one channel: the weighted mean of the two, rounded down. */
  function Blend(src: Byte, ov: Byte, alpha: Byte): (r: Byte)
    ensures MAX_ALPHA * r <= src * (MAX_ALPHA - alpha) + ov * alpha < MAX_ALPHA * (r + 1)
  {
    MeanIsBetween(src, ov, alpha, src * (MAX_ALPHA - alpha) + ov * alpha);
    (src * (MAX_ALPHA - alpha) + ov * alpha) / MAX_ALPHA
  }

  /** A blended channel lies between the two channels; opaque gives the overlay, clear the source. */
  lemma BlendIsBetween(src: Byte, ov: Byte, alpha: Byte)
    ensures Min(src, ov) <= Blend(src, ov, alpha) <= Max(src, ov)
    ensures alpha == MAX_ALPHA ==> Blend(src, ov, alpha) == ov
    ensures alpha == 0 ==> Blend(src, ov, alpha) == src
  {
    MeanIsBetween(src, ov, alpha, src * (MAX_ALPHA - alpha) + ov * alpha);
  }

  ghost predicate ReadableOverlay(ov: RgbaImage) {
    && ov.width > 0 && ov.height > 0
    && ov.stride >= ov.width * RGBA_BYTES
    && |ov.pixels| >= ov.stride * ov.height
  }

  /** Channel `c` of overlay pixel `(x, y)` is inside the pixel buffer. */
  lemma OverlayReadInBounds(ov: RgbaImage, x: nat, y: nat, c: nat)
    requires ReadableOverlay(ov) && x < ov.width && y < ov.height && c < RGBA_BYTES
    ensures y * ov.stride + x * RGBA_BYTES + c < |ov.pixels|
  {
    MultiplesAreApart(y, ov.height, ov.stride);
  }

  ghost function OverlayChannel(ov: RgbaImage, x: nat, y: nat, c: nat): Byte
    requires ReadableOverlay(ov) && x < ov.width && y < ov.height && c < RGBA_BYTES
  {
    OverlayReadInBounds(ov, x, y, c);
    ov.pixels[y * ov.stride + x * RGBA_BYTES + c]
  }

  ghost predicate InBox(box: Box, x: int, y: int) {
    box.offX <= x < box.offX + box.drawW && box.offY <= y < box.offY + box.drawH
  }

  ghost predicate UsableBox(box: Box) {
    box.num > 0 && box.den > 0
  }

  /** What the byte of channel `c` (blue, green, red) of frame pixel `(x, y)` becomes. */
  ghost function ExpectedChannel(src: Byte, ov: RgbaImage, box: Box, x: nat, y: nat, c: nat): Byte
    requires ReadableOverlay(ov) && UsableBox(box) && InBox(box, x, y) && c < BGR_BYTES
  {
    SampleIsMonotone(x - box.offX, x - box.offX, box, ov.width);
    SampleIsMonotone(y - box.offY, y - box.offY, box, ov.height);
    var ox, oy := Sample(x - box.offX, box, ov.width), Sample(y - box.offY, box, ov.height);
    Blend(src, OverlayChannel(ov, ox, oy, 2 - c), OverlayChannel(ov, ox, oy, 3))
  }

  /** Byte `k` of the result, from byte `k` of the source: letterbox and row padding stay as they are. */
  ghost function Expected(src: seq<Byte>, stride: nat, ov: RgbaImage, box: Box, k: nat): Byte
    requires ReadableOverlay(ov) && UsableBox(box) && stride > 0 && k < |src|
  {
    var y, x, c := k / stride, (k % stride) / BGR_BYTES, (k % stride) % BGR_BYTES;
    if InBox(box, x, y) then ExpectedChannel(src[k], ov, box, x, y, c) else src[k]
  }

  /** `want` lists all expected bytes. */
  ghost predicate Wanted(want: seq<Byte>, src: seq<Byte>, stride: nat, ov: RgbaImage, box: Box)
    requires ReadableOverlay(ov) && UsableBox(box) && stride > 0
  {
    && |want| == |src|
    && forall k: nat {:trigger Expected(src, stride, ov, box, k)} | k < |src| :: want[k] == Expected(src, stride, ov, box, k)
  }

  // ---------- The blend loop ----------

  lemma Located(stride: nat, y: nat, column: nat)
    requires column < stride
    ensures (y * stride + column) / stride == y && (y * stride + column) % stride == column
  {
    QuotientOf(y * stride + column, stride, y, column);
  }

  /** Bytes of row `y` between two columns that are both left or both right of the box keep their value. */
  lemma OutsideColumns(want: seq<Byte>, src: seq<Byte>, stride: nat, ov: RgbaImage, box: Box, y: nat, from: nat, to: nat)
    requires ReadableOverlay(ov) && UsableBox(box) && from <= to <= stride && 0 < stride
    requires Wanted(want, src, stride, ov, box)
    requires to <= box.offX * BGR_BYTES || (box.offX + box.drawW) * BGR_BYTES <= from
    ensures forall k: nat | y * stride + from <= k < y * stride + to && k < |src| :: want[k] == src[k]
  {
    forall k: nat | y * stride + from <= k < y * stride + to && k < |src|
      ensures want[k] == src[k]
    {
      Located(stride, y, k - y * stride);
      assert want[k] == Expected(src, stride, ov, box, k);
    }
  }

  /** So do all bytes of rows above or below the box. */
  lemma OutsideRows(src: seq<Byte>, stride: nat, ov: RgbaImage, box: Box, k: nat)
    requires ReadableOverlay(ov) && UsableBox(box) && 0 < stride && k < |src|
    requires k < box.offY * stride || (box.offY + box.drawH) * stride <= k
    ensures Expected(src, stride, ov, box, k) == src[k]
  {
    QuotientBounds(k, stride);
    if box.offY <= k / stride < box.offY + box.drawH {
      ProductIsMonotone(box.offY, k / stride, stride);
      MultiplesAreApart(k / stride, box.offY + box.drawH, stride);
    }
  }

  lemma NothingDoneYet(want: seq<Byte>, src: seq<Byte>, stride: nat, ov: RgbaImage, box: Box)
    requires ReadableOverlay(ov) && UsableBox(box) && 0 < stride && Wanted(want, src, stride, ov, box)
    ensures DoneUpTo(src, src, want, box.offY * stride)
  {
    forall k: nat | k < |src| && k < box.offY * stride
      ensures want[k] == src[k]
    {
      OutsideRows(src, stride, ov, box, k);
    }
  }

  lemma AllRowsDone(bytes: seq<Byte>, want: seq<Byte>, src: seq<Byte>, stride: nat, ov: RgbaImage, box: Box)
    requires ReadableOverlay(ov) && UsableBox(box) && 0 < stride && Wanted(want, src, stride, ov, box)
    requires DoneUpTo(bytes, src, want, (box.offY + box.drawH) * stride)
    ensures bytes == want
  {
    forall k: nat | k < |src| && (box.offY + box.drawH) * stride <= k
      ensures want[k] == src[k]
    {
      OutsideRows(src, stride, ov, box, k);
    }
  }

  /** The three bytes of a drawn pixel. */
  lemma DrawnPixel(src: seq<Byte>, stride: nat, ov: RgbaImage, box: Box, x: nat, y: nat, c: nat)
    requires ReadableOverlay(ov) && UsableBox(box) && InBox(box, x, y) && c < BGR_BYTES
    requires x * BGR_BYTES + c < stride && y * stride + x * BGR_BYTES + c < |src|
    ensures var k := y * stride + x * BGR_BYTES + c;
            Expected(src, stride, ov, box, k) == ExpectedChannel(src[k], ov, box, x, y, c)
  {
    Located(stride, y, x * BGR_BYTES + c);
    QuotientOf(x * BGR_BYTES + c, BGR_BYTES, x, c);
  }

  /** The first `done` bytes are final, the others are still the source's. */
  ghost predicate DoneUpTo(bytes: seq<Byte>, src: seq<Byte>, want: seq<Byte>, done: int) {
    && |bytes| == |src| == |want|
    && forall k: nat | k < |src| :: bytes[k] == if k < done then want[k] else src[k]
  }

  /** The three bytes of a pixel, blended with the overlay pixel at `ovOff`. */
  ghost function Blended(bytes: seq<Byte>, off: nat, ov: RgbaImage, ovOff: nat): seq<Byte>
    requires off + 2 < |bytes| && ovOff + 3 < |ov.pixels|
  {
    var alpha := ov.pixels[ovOff + 3];
    bytes[off := Blend(bytes[off], ov.pixels[ovOff + 2], alpha)]
         [off + 1 := Blend(bytes[off + 1], ov.pixels[ovOff + 1], alpha)]
         [off + 2 := Blend(bytes[off + 2], ov.pixels[ovOff], alpha)]
  }

  /** Blends the overlay pixel into the three bytes from `off` on. */
  method BlendPixel(dst: array<Byte>, off: nat, ov: RgbaImage, ovOff: nat)
    requires off + 2 < dst.Length && ovOff + 3 < |ov.pixels|
    modifies dst
    ensures dst[..] == Blended(old(dst[..]), off, ov, ovOff)
  {
    var red, green, blue, alpha :=
      ov.pixels[ovOff + 0], ov.pixels[ovOff + 1], ov.pixels[ovOff + 2], ov.pixels[ovOff + 3];
    if alpha == 0 {
      BlendIsBetween(dst[off + 0], blue, 0);
      BlendIsBetween(dst[off + 1], green, 0);
      BlendIsBetween(dst[off + 2], red, 0);
      return;
    }
    var inv := MAX_ALPHA - alpha;
    dst[off + 0] := Mix(dst[off + 0], inv, blue, alpha);
    dst[off + 1] := Mix(dst[off + 1], inv, green, alpha);
    dst[off + 2] := Mix(dst[off + 2], inv, red, alpha);
  }

  /** The weighted mean as the loop computes it, with both weights at hand. */
  function Mix(src: Byte, inv: Byte, ov: Byte, alpha: Byte): (r: Byte)
    requires inv + alpha == MAX_ALPHA
    ensures r == Blend(src, ov, alpha)
  {
    MeanIsBetween(src, ov, alpha, src * inv + ov * alpha);
    (src * inv + ov * alpha) / MAX_ALPHA
  }

  /** One row of the box: the inner loop, from the row's first byte to the next row's first byte. */
  method BlendRow(dst: array<Byte>, ghost src: seq<Byte>, ghost want: seq<Byte>, stride: nat, fw: nat,
                  ov: RgbaImage, box: Box, dy: nat)
    requires ReadableOverlay(ov) && UsableBox(box) && dy < box.drawH
    requires box.offX + box.drawW <= fw && fw * BGR_BYTES <= stride && 0 < stride
    requires (box.offY + dy) * stride + stride <= dst.Length
    requires Wanted(want, src, stride, ov, box)
    requires DoneUpTo(dst[..], src, want, (box.offY + dy) * stride)
    modifies dst
    ensures DoneUpTo(dst[..], src, want, (box.offY + dy) * stride + stride)
  {
    var y := box.offY + dy;
    var rowStart := y * stride;
    var srcY := Sample(dy, box, ov.height);
    OutsideColumns(want, src, stride, ov, box, y, 0, box.offX * BGR_BYTES);
    var dx := 0;
    while dx < box.drawW && box.offX + dx < fw
      invariant dx <= box.drawW
      invariant DoneUpTo(dst[..], src, want, rowStart + (box.offX + dx) * BGR_BYTES)
    {
      var srcX := Sample(dx, box, ov.width);
      var ovOff := srcY * ov.stride + srcX * RGBA_BYTES;
      var dstOff := rowStart + (box.offX + dx) * BGR_BYTES;
      PixelIsDrawn(want, src, stride, ov, box, dx, dy, dstOff, ovOff);
      PixelAdvances(dst[..], src, want, dstOff, ov, ovOff);
      BlendPixel(dst, dstOff, ov, ovOff);
      dx := dx + 1;
    }
    OutsideColumns(want, src, stride, ov, box, y, (box.offX + box.drawW) * BGR_BYTES, stride);
  }

  /** The wanted bytes of a drawn pixel are its source bytes blended with its overlay pixel. */
  ghost predicate WantsBlend(want: seq<Byte>, src: seq<Byte>, off: nat, ov: RgbaImage, ovOff: nat)
    requires off + 2 < |src| == |want| && ovOff + 3 < |ov.pixels|
  {
    && want[off] == Blend(src[off], ov.pixels[ovOff + 2], ov.pixels[ovOff + 3])
    && want[off + 1] == Blend(src[off + 1], ov.pixels[ovOff + 1], ov.pixels[ovOff + 3])
    && want[off + 2] == Blend(src[off + 2], ov.pixels[ovOff], ov.pixels[ovOff + 3])
  }

  lemma PixelIsDrawn(want: seq<Byte>, src: seq<Byte>, stride: nat, ov: RgbaImage, box: Box, dx: nat, dy: nat,
                     off: nat, ovOff: nat)
    requires ReadableOverlay(ov) && UsableBox(box) && dx < box.drawW && dy < box.drawH && stride > 0
    requires Wanted(want, src, stride, ov, box)
    requires (box.offX + dx) * BGR_BYTES + 2 < stride
    requires off == (box.offY + dy) * stride + (box.offX + dx) * BGR_BYTES && off + 2 < |src|
    requires ovOff == Sample(dy, box, ov.height) * ov.stride + Sample(dx, box, ov.width) * RGBA_BYTES
    ensures ovOff + 3 < |ov.pixels| && WantsBlend(want, src, off, ov, ovOff)
  {
    var x, y := box.offX + dx, box.offY + dy;
    SampleIsMonotone(dx, dx, box, ov.width);
    SampleIsMonotone(dy, dy, box, ov.height);
    OverlayReadInBounds(ov, Sample(dx, box, ov.width), Sample(dy, box, ov.height), 3);
    DrawnPixel(src, stride, ov, box, x, y, 0);
    DrawnPixel(src, stride, ov, box, x, y, 1);
    DrawnPixel(src, stride, ov, box, x, y, 2);
  }

  /** Blending one pixel makes three more bytes final. */
  lemma PixelAdvances(bytes: seq<Byte>, src: seq<Byte>, want: seq<Byte>, off: nat, ov: RgbaImage, ovOff: nat)
    requires off + 2 < |src| && ovOff + 3 < |ov.pixels|
    requires DoneUpTo(bytes, src, want, off) && WantsBlend(want, src, off, ov, ovOff)
    ensures DoneUpTo(Blended(bytes, off, ov, ovOff), src, want, off + 3)
  {
  }

  lemma NextRow(y: nat, stride: nat)
    ensures (y + 1) * stride == y * stride + stride
  {
  }

  /** What the code takes for granted about the source plane: whole rows, as many as the frame is high. */
  ghost predicate RowsPresent(source: Frame) {
    source.planes != [] && source.planes[0].data.Some? ==>
      && source.planes[0].stride >= source.width * BGR_BYTES
      && |source.planes[0].data.value| >= source.planes[0].stride * source.height
  }

  /** All rows of the box: the outer loop. */
  method BlendRows(dst: array<Byte>, ghost src: seq<Byte>, ghost want: seq<Byte>, stride: nat, fw: nat, fh: nat,
                   ov: RgbaImage, box: Box)
    requires ReadableOverlay(ov) && UsableBox(box)
    requires box.offX + box.drawW <= fw && box.offY + box.drawH <= fh
    requires 0 < stride && fw * BGR_BYTES <= stride && dst.Length == fh * stride
    requires dst[..] == src && Wanted(want, src, stride, ov, box)
    modifies dst
    ensures dst[..] == want
  {
    NothingDoneYet(want, src, stride, ov, box);
    var dy := 0;
    while dy < box.drawH && box.offY + dy < fh
      invariant dy <= box.drawH
      invariant DoneUpTo(dst[..], src, want, (box.offY + dy) * stride)
    {
      MultiplesAreApart(box.offY + dy, fh, stride);
      BlendRow(dst, src, want, stride, fw, ov, box, dy);
      NextRow(box.offY + dy, stride);
      dy := dy + 1;
    }
    AllRowsDone(dst[..], want, src, stride, ov, box);
  }

  /** Channel `c` of pixel `(x, y)` of the result, against the source byte and the overlay pixel sampled for it. */
  ghost predicate PixelShows(out: seq<Byte>, src: seq<Byte>, stride: nat, ov: RgbaImage, box: Box, x: nat, y: nat, c: nat)
    requires ov.width > 0 && ov.height > 0 && box.num > 0
    requires box.offX <= x && box.offY <= y && c < BGR_BYTES
  {
    var k := y * stride + x * BGR_BYTES + c;
    var o := Sample(y - box.offY, box, ov.height) * ov.stride + Sample(x - box.offX, box, ov.width) * RGBA_BYTES;
    && k < |out| == |src| && o + 3 < |ov.pixels|
    && Min(src[k], ov.pixels[o + 2 - c]) <= out[k] <= Max(src[k], ov.pixels[o + 2 - c])
    && (ov.pixels[o + 3] == MAX_ALPHA ==> out[k] == ov.pixels[o + 2 - c])
    && (ov.pixels[o + 3] == 0 ==> out[k] == src[k])
  }

  /**
    Inside the box every blue, green and red byte lies between the video's and the overlay's, with
    opaque overlay pixels shown as they are and clear ones not at all; outside nothing has changed.
  */
  ghost predicate ShowsOverlay(out: seq<Byte>, src: seq<Byte>, stride: nat, ov: RgbaImage, box: Box)
    requires ov.width > 0 && ov.height > 0 && box.num > 0 && stride > 0
  {
    && |out| == |src|
    && (forall x: nat, y: nat, c: nat {:trigger PixelShows(out, src, stride, ov, box, x, y, c)} ::
          InBox(box, x, y) && c < BGR_BYTES ==> PixelShows(out, src, stride, ov, box, x, y, c))
    && (forall k: nat | k < |src| && !InBox(box, k % stride / BGR_BYTES, k / stride) :: out[k] == src[k])
  }

  lemma WantedPixelShows(want: seq<Byte>, src: seq<Byte>, stride: nat, fw: nat, fh: nat, ov: RgbaImage, box: Box,
                         x: nat, y: nat, c: nat)
    requires ReadableOverlay(ov) && UsableBox(box) && 0 < stride && Wanted(want, src, stride, ov, box)
    requires box.offX + box.drawW <= fw && box.offY + box.drawH <= fh
    requires fw * BGR_BYTES <= stride && |src| == fh * stride
    requires InBox(box, x, y) && c < BGR_BYTES
    ensures PixelShows(want, src, stride, ov, box, x, y, c)
  {
    var k := y * stride + x * BGR_BYTES + c;
    MultiplesAreApart(y, fh, stride);
    DrawnPixel(src, stride, ov, box, x, y, c);
    assert want[k] == Expected(src, stride, ov, box, k);
    ChannelShows(src[k], ov, box, x, y, c);
  }

  lemma ChannelShows(src: Byte, ov: RgbaImage, box: Box, x: nat, y: nat, c: nat)
    requires ReadableOverlay(ov) && UsableBox(box) && InBox(box, x, y) && c < BGR_BYTES
    ensures var o := Sample(y - box.offY, box, ov.height) * ov.stride + Sample(x - box.offX, box, ov.width) * RGBA_BYTES;
            var r := ExpectedChannel(src, ov, box, x, y, c);
            && o + 3 < |ov.pixels|
            && Min(src, ov.pixels[o + 2 - c]) <= r <= Max(src, ov.pixels[o + 2 - c])
            && (ov.pixels[o + 3] == MAX_ALPHA ==> r == ov.pixels[o + 2 - c])
            && (ov.pixels[o + 3] == 0 ==> r == src)
  {
    SampleIsMonotone(x - box.offX, x - box.offX, box, ov.width);
    SampleIsMonotone(y - box.offY, y - box.offY, box, ov.height);
    var ox, oy := Sample(x - box.offX, box, ov.width), Sample(y - box.offY, box, ov.height);
    OverlayReadInBounds(ov, ox, oy, 3);
    BlendIsBetween(src, OverlayChannel(ov, ox, oy, 2 - c), OverlayChannel(ov, ox, oy, 3));
  }

  lemma WantedShowsOverlay(want: seq<Byte>, src: seq<Byte>, stride: nat, fw: nat, fh: nat, ov: RgbaImage, box: Box)
    requires ReadableOverlay(ov) && UsableBox(box) && 0 < stride && Wanted(want, src, stride, ov, box)
    requires box.offX + box.drawW <= fw && box.offY + box.drawH <= fh
    requires fw * BGR_BYTES <= stride && |src| == fh * stride
    ensures ShowsOverlay(want, src, stride, ov, box)
  {
    forall x: nat, y: nat, c: nat | InBox(box, x, y) && c < BGR_BYTES
      ensures PixelShows(want, src, stride, ov, box, x, y, c)
    {
      WantedPixelShows(want, src, stride, fw, fh, ov, box, x, y, c);
    }
    forall k: nat | k < |src| && !InBox(box, k % stride / BGR_BYTES, k / stride)
      ensures want[k] == src[k]
    {
      assert want[k] == Expected(src, stride, ov, box, k);
    }
  }

  /**
    The composited frame refines the byte-by-byte specification; unsupported inputs give nothing.
    Metadata and stride are the source's, and the one plane holds exactly the frame's rows.
  */
  method CompositeOverlay(source: Frame, ov: RgbaImage) returns (out: Option<Frame>)
    requires RowsPresent(source)
    ensures out.Some? <==>
              && source.format == BGR8 && source.planes != [] && source.planes[0].data.Some?
              && source.width > 0 && source.height > 0
              && ov.width > 0 && ov.height > 0 && ov.pixels != []
              && ov.stride >= 4 * ov.width && |ov.pixels| >= ov.stride * ov.height
    ensures out.Some? ==>
              var p := source.planes[0];
              var box := Fit(source.width, source.height, ov.width, ov.height);
              var n := p.stride * source.height;
              && UsableBox(box)
              && out.value == source.(memory := CPU, planes := out.value.planes) && |out.value.planes| == 1
              && out.value.planes[0].stride == p.stride && out.value.planes[0].size == n
              && out.value.planes[0].data.Some?
              && |out.value.planes[0].data.value| == n
              && p.stride > 0
              && Wanted(out.value.planes[0].data.value, p.data.value[..n], p.stride, ov, box)
              && ShowsOverlay(out.value.planes[0].data.value, p.data.value[..n], p.stride, ov, box)
  {
    if source.format != BGR8 || source.planes == [] || source.planes[0].data.None? {
      return None;
    }
    var fw, fh := source.width, source.height;
    if fw == 0 || fh == 0 {
      return None;
    }
    if ov.width == 0 || ov.height == 0 || ov.pixels == [] {
      return None;
    }
    if ov.stride < ov.width * RGBA_BYTES || |ov.pixels| < ov.stride * ov.height {
      return None;
    }
    var stride := source.planes[0].stride;
    var n := stride * fh;
    var src := source.planes[0].data.value[..n];
    var dst := new Byte[n](i requires 0 <= i < n => src[i]);
    var box := Fit(fw, fh, ov.width, ov.height);
    LetterboxFits(fw, fh, ov.width, ov.height);
    assert dst[..] == src;
    ghost var want := seq(n, k requires 0 <= k < n => Expected(src, stride, ov, box, k));
    BlendRows(dst, src, want, stride, fw, fh, ov, box);
    WantedShowsOverlay(dst[..], src, stride, fw, fh, ov, box);
    out := Some(source.(memory := CPU, planes := [Plane(stride, Some(dst[..]), n)]));
  }
}
