/**
 * BitmapUtils.java: the integer arithmetic of thumbnail making. The sample
 * size chosen from the image's sides and a minimum side length, rounded to a
 * power of two or a multiple of 8; the decode scale that brings the pixel
 * count under the target area; and the centred square crop.
 */
module BitmapUtils {
  import opened Wrappers
  import opened JavaLang

  const UNCONSTRAINED: int := -1

  function Min(a: int, b: int): int {
    if a <= b then a else b
  }

  /**
   * computeInitialSampleSize with maxNumOfPixels UNCONSTRAINED, the only way
   * it is called: the lower bound is 1, the upper bound 128 or the smaller of
   * the two sides divided by minSideLength (rounded down).
   */
  function InitialSampleSize(width: int, height: int, minSideLength: int): (r: int)
    requires minSideLength == UNCONSTRAINED || minSideLength > 0
    ensures r >= 1
    ensures minSideLength == UNCONSTRAINED ==> r == 1
    ensures IsInt(width) ==> IsInt(r)
  {
    var lowerBound := 1;
    var upperBound := if minSideLength == UNCONSTRAINED then 128
                      else Min(width / minSideLength, height / minSideLength);
    if upperBound < lowerBound then lowerBound
    else if minSideLength == UNCONSTRAINED then 1
    else upperBound
  }

  /**
   * With a minimum side length m, the initial sample size is the largest
   * factor that keeps both subsampled sides at least m long, or 1 when even
   * 1 does not.
   */
  lemma InitialSampleSizeIsLargestFit(width: int, height: int, m: int)
    requires m > 0
    ensures var r := InitialSampleSize(width, height, m);
      (r > 1 ==> r * m <= width && r * m <= height)
      && ((r + 1) * m > width || (r + 1) * m > height)
  {
    var r := InitialSampleSize(width, height, m);
    var qw, qh := width / m, height / m;
    FloorDivision(width, m);
    FloorDivision(height, m);
    if r > 1 {
      ScaleMonotone(r, qw, m);
      ScaleMonotone(r, qh, m);
    }
    if qw <= qh {
      ScaleMonotone(qw + 1, r + 1, m);
    } else {
      ScaleMonotone(qh + 1, r + 1, m);
    }
  }

  /** Rounded-down division brackets the dividend. */
  lemma FloorDivision(a: int, m: int)
    requires m > 0
    ensures (a / m) * m <= a < (a / m + 1) * m
  {
    assert a == (a / m) * m + a % m;
  }

  lemma ScaleMonotone(a: int, b: int, m: int)
    requires m > 0 && a <= b
    ensures a * m <= b * m
  {
  }

  predicate IsPowerOfTwo(n: int)
    decreases if n > 0 then n else 0
  {
    n == 1 || (n > 1 && n % 2 == 0 && IsPowerOfTwo(n / 2))
  }

  /**
   * computeSampleSize: up to 8 the initial size is rounded up to the next
   * power of two, above 8 to the next multiple of 8, in int arithmetic.
   */
  method ComputeSampleSize(width: int, height: int, minSideLength: int) returns (roundedSize: int)
    requires minSideLength == UNCONSTRAINED || minSideLength > 0
    requires IsInt(width) && IsInt(height)
    ensures var initialSize := InitialSampleSize(width, height, minSideLength);
      (initialSize <= 8 ==>
        IsPowerOfTwo(roundedSize) && initialSize <= roundedSize && (roundedSize == 1 || roundedSize / 2 < initialSize))
      && (initialSize > 8 && IsInt(initialSize + 7) ==>
        roundedSize % 8 == 0 && initialSize <= roundedSize < initialSize + 8)
      && (initialSize > 8 && !IsInt(initialSize + 7) ==> roundedSize < 0)
  {
    var initialSize := InitialSampleSize(width, height, minSideLength);
    if initialSize <= 8 {
      roundedSize := 1;
      while roundedSize < initialSize
        invariant 1 <= roundedSize && IsPowerOfTwo(roundedSize)
        invariant roundedSize == 1 || roundedSize / 2 < initialSize
        decreases initialSize - roundedSize
      {
        // roundedSize <<= 1; it stays at most 8, far from the int bound
        assert (roundedSize * 2) / 2 == roundedSize;
        roundedSize := roundedSize * 2;
      }
    } else {
      roundedSize := ToInt(Quot(ToInt(initialSize + 7), 8) * 8);
      RoundUpByEight(initialSize);
    }
  }

  /**
   * `(initialSize + 7) / 8 * 8` in int arithmetic: the next multiple of 8
   * when the sum fits, and a negative int when it wraps.
   */
  lemma RoundUpByEight(n: int)
    requires n > 8 && IsInt(n)
    ensures var r := ToInt(Quot(ToInt(n + 7), 8) * 8);
      (IsInt(n + 7) ==> r % 8 == 0 && n <= r < n + 8)
      && (!IsInt(n + 7) ==> r < 0)
  {
    if IsInt(n + 7) {
      var q := (n + 7) / 8;
      assert Quot(ToInt(n + 7), 8) == q;
      FloorDivision(n + 7, 8);
      assert 0 <= q * 8 <= n + 7;
      assert ToInt(q * 8) == q * 8;
      assert (q * 8) % 8 == 0;
    } else {
      // the sum wraps to a negative int, and the truncated quotient stays negative
      var sum := n + 7 - TWO_32;
      assert ToInt(n + 7) == sum;
      assert -TWO_31 <= sum < -TWO_31 + 7;
      var m := (-sum) / 8;
      assert Quot(sum, 8) == -m;
      assert m == 0x1000_0000 || m == 0x0FFF_FFFF;
      assert IsInt(-m * 8);
      assert ToInt(-m * 8) == -m * 8;
    }
  }

  /**
   * The decode scale search of getThumbnail, on ints: starting at 1, the
   * scale grows while width*height exceeds destWidth*destHeight*scale^2 (the
   * source divides by scale^2 in floating point). Both products are int
   * products. The loop ends only if the target area is positive or the
   * image area already fits.
   */
  method ThumbnailScale(width: int, height: int, destWidth: int, destHeight: int) returns (scale: int)
    requires ToInt(destWidth * destHeight) > 0 || ToInt(width * height) <= ToInt(destWidth * destHeight)
    ensures var area, maxSize := ToInt(width * height), ToInt(destWidth * destHeight);
      scale >= 1 && area <= Scaled(maxSize, scale)
      && (scale == 1 || area > Scaled(maxSize, scale - 1))
  {
    var area := ToInt(width * height);
    var maxSize := ToInt(destWidth * destHeight);
    scale := 1;
    while area > Scaled(maxSize, scale)
      invariant scale >= 1
      invariant maxSize > 0 || scale == 1
      invariant scale == 1 || area > Scaled(maxSize, scale - 1)
      decreases area - Scaled(maxSize, scale)
    {
      ScaledGrows(maxSize, scale);
      scale := scale + 1;
    }
  }

  /** The target area times scale squared. */
  function Scaled(maxSize: int, scale: int): int {
    maxSize * scale * scale
  }

  /** With a positive target area, each step of the scale raises the scaled area by at least the target area. */
  lemma ScaledGrows(maxSize: int, scale: int)
    requires maxSize > 0 && scale >= 1
    ensures Scaled(maxSize, scale + 1) >= Scaled(maxSize, scale) + maxSize
  {
    assert maxSize * (scale + 1) * (scale + 1) == maxSize * scale * scale + maxSize * (2 * scale + 1);
  }

  /**
   * The search as written never ends once the target area is not positive
   * and the image area exceeds it: no scale brings the image area down to
   * the target area times scale squared.
   */
  lemma ScaleSearchNeverEnds(area: int, maxSize: int)
    requires maxSize <= 0 && area > maxSize
    ensures forall scale :: scale >= 1 ==> area > Scaled(maxSize, scale)
  {
    forall scale | scale >= 1
      ensures area > Scaled(maxSize, scale)
    {
      ScaledShrinks(maxSize, scale);
    }
  }

  /** A target area that is not positive only shrinks when scaled. */
  lemma ScaledShrinks(maxSize: int, scale: int)
    requires maxSize <= 0 && scale >= 1
    ensures Scaled(maxSize, scale) <= maxSize
  {
    var q := scale * scale;
    assert q >= 1 by {
      ScaleMonotone(1, scale, scale);
    }
    assert maxSize * q == maxSize + maxSize * (q - 1);
    if q > 1 {
      ScaleMonotone(maxSize, 0, q - 1);
    }
  }

  /**
   * An undecodable file reports -1 for both sides, so the image area is the
   * int 1; asked for a thumbnail of width 0, the target area is 0 and the
   * search as written runs for ever.
   */
  lemma UndecodableAtWidthZeroNeverEnds()
    ensures forall scale :: scale >= 1 ==> ToInt(-1 * -1) > Scaled(ToInt(0 * 100), scale)
  {
    ScaleSearchNeverEnds(ToInt(-1 * -1), ToInt(0 * 100));
  }

  /**
   * The search as evidently intended: when no scale can fit (a target area
   * that is not positive, below the image area) it gives up, and
   * getThumbnail returns null as for any other undecodable file; otherwise
   * it finds the first scale that fits, as the loop does.
   */
  method ThumbnailScaleOrGiveUp(width: int, height: int, destWidth: int, destHeight: int) returns (scale: Option<int>)
    ensures var area, maxSize := ToInt(width * height), ToInt(destWidth * destHeight);
      (scale.None? <==> maxSize <= 0 && area > maxSize)
      && (scale.Some? ==>
            scale.value >= 1 && area <= Scaled(maxSize, scale.value)
            && (scale.value == 1 || area > Scaled(maxSize, scale.value - 1)))
  {
    var area := ToInt(width * height);
    var maxSize := ToInt(destWidth * destHeight);
    if maxSize <= 0 && area > maxSize {
      return None;
    }
    var s := ThumbnailScale(width, height, destWidth, destHeight);
    scale := Some(s);
  }

  /** The square cut from the middle of a picture: its offsets and side. */
  datatype Crop = Crop(x: int, y: int, size: int)

  /**
   * The centre crop of getThumbnail: the side is the shorter of the two,
   * and the longer dimension is trimmed equally on both ends (the odd pixel
   * goes to the far end).
   */
  function CentreCrop(width: int, height: int): (c: Crop)
    requires width > 0 && height > 0
    ensures c.size == Min(width, height) && c.size > 0
    ensures 0 <= c.x && c.x + c.size <= width && 0 <= c.y && c.y + c.size <= height
    ensures c.x == 0 || c.y == 0
    ensures 0 <= (width - c.size - c.x) - c.x <= 1 && 0 <= (height - c.size - c.y) - c.y <= 1
  {
    var size := Min(width, height);
    var x := if size < width then (width - size) / 2 else 0;
    var y := if size < height then (height - size) / 2 else 0;
    Crop(x, y, size)
  }
}
