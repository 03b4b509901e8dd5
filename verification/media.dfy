/** Values shared by every part of the application: optional values, the Python exceptions the
    flows can raise, decoded pictures, Python's `round` on an exact quotient, and the
    "fit a picture into a box" size computation used for thumbnails and for the work area. */
module Media {

  datatype Option<T> = None | Some(value: T)

  /** The exceptions the modelled code can raise; each aborts the operation that raised it. */
  datatype Failure = AttributeError | IndexError | KeyError | TypeError | ValueError | ZeroDivisionError

  datatype Outcome = Pass | Fail(error: Failure)

  datatype Result<T> = Ok(value: T) | Err(error: Failure)

  /** A decoded picture. The application only looks at its size; the pixels stay abstract. */
  datatype Image = Image(width: nat, height: nat, pixels: seq<int>)

  datatype Size = Size(width: int, height: int)

  /** A picture resampled to the given size (PIL `resize` / OpenCV `resize`). */
  function Resize(img: Image, width: nat, height: nat): (r: Image)
    ensures r.width == width && r.height == height
  {
    Image(width, height, img.pixels)
  }

  /** Python's `round(n / d)` on the exact quotient: the nearest integer, ties to the even one. */
  function RoundHalfEven(n: int, d: int): (r: int)
    requires d > 0
    ensures -d <= 2 * (n - r * d) <= d
    ensures 2 * (n - r * d) == d || 2 * (n - r * d) == -d ==> r % 2 == 0
  {
    var q, m := n / d, n % d;
    assert n == q * d + m;
    if 2 * m < d then q
    else if 2 * m > d then (assert n - (q + 1) * d == m - d; q + 1)
    else if q % 2 == 0 then q
    else (assert n - (q + 1) * d == m - d; q + 1)
  }

  /** Multiplying by a positive `d` a number that is at least one gives at least `d`. */
  lemma ScaleAtLeastOnce(x: int, d: int)
    requires d > 0
    ensures x >= 1 ==> x * d >= d
  {
    if x >= 1 {
      assert x * d == (x - 1) * d + d;
    }
  }

  /** A quotient that does not exceed `k` does not round above `k`. */
  lemma RoundAtMost(n: int, d: int, k: int)
    requires d > 0 && n <= k * d
    ensures RoundHalfEven(n, d) <= k
  {
    var x := RoundHalfEven(n, d) - k;
    assert RoundHalfEven(n, d) * d == k * d + x * d;
    ScaleAtLeastOnce(x, d);
  }

  /** A quotient that is at least `k` does not round below `k`. */
  lemma RoundAtLeast(n: int, d: int, k: int)
    requires d > 0 && n >= k * d
    ensures RoundHalfEven(n, d) >= k
  {
    var x := k - RoundHalfEven(n, d);
    assert RoundHalfEven(n, d) * d == k * d - x * d;
    ScaleAtLeastOnce(x, d);
  }

  /** Rounding is monotone in the numerator. */
  lemma RoundMonotone(a: int, b: int, d: int)
    requires d > 0 && a <= b
    ensures RoundHalfEven(a, d) <= RoundHalfEven(b, d)
  {
    var ra, rb := RoundHalfEven(a, d), RoundHalfEven(b, d);
    if a < b && ra > rb {
      // Then `ra * d` exceeds `rb * d` by at least `d`, which puts `a` above `b`.
      assert ra * d == rb * d + (ra - rb) * d;
      ScaleAtLeastOnce(ra - rb, d);
      assert false;
    }
  }

  /** `fit` of a `w`x`h` picture into a `boxWidth`x`boxHeight` box, as card.py and work_area.py
      compute it: full box width and the height that keeps the ratio `w / h`, unless that height
      exceeds the box, in which case full box height and the matching width. A zero side makes
      the ratio or its inverse a division by zero. */
  function FitToBox(boxWidth: int, boxHeight: int, w: nat, h: nat): (r: Option<Size>)
    ensures r.None? <==> w == 0 || h == 0
  {
    if w == 0 || h == 0 then None
    else
      var byWidth := RoundHalfEven(boxWidth * h, w);
      if byWidth > boxHeight then Some(Size(RoundHalfEven(boxHeight * w, h), boxHeight))
      else Some(Size(boxWidth, byWidth))
  }

  /** The fitted size lies inside the box, touches it on one side, and keeps the ratio of the
      picture up to half a pixel on the side that was computed. */
  lemma {:induction false} FitInsideBox(boxWidth: nat, boxHeight: nat, w: nat, h: nat)
    requires w > 0 && h > 0
    ensures FitToBox(boxWidth, boxHeight, w, h).Some?
    ensures var s := FitToBox(boxWidth, boxHeight, w, h).value;
      && 0 <= s.width <= boxWidth && 0 <= s.height <= boxHeight
      && ((s.width == boxWidth && 2 * (boxWidth * h - s.height * w) <= w
                                && 2 * (s.height * w - boxWidth * h) <= w)
          || (s.height == boxHeight && 2 * (boxHeight * w - s.width * h) <= h
                                    && 2 * (s.width * h - boxHeight * w) <= h))
  {
    var byWidth := RoundHalfEven(boxWidth * h, w);
    assert boxWidth * h >= 0 * w;
    RoundAtLeast(boxWidth * h, w, 0);
    if byWidth > boxHeight {
      // The width-fitted height overflows, so the quotient itself exceeds the box height ...
      if boxWidth * h <= boxHeight * w {
        RoundAtMost(boxWidth * h, w, boxHeight);
      }
      // ... hence the height-fitted width fits the box width.
      assert boxHeight * w < boxWidth * h;
      RoundAtMost(boxHeight * w, h, boxWidth);
      assert boxHeight * w >= 0 * h;
      RoundAtLeast(boxHeight * w, h, 0);
    }
  }
}
