/** getMBR_numpy (Ann.py:528-544): the minimum bounding rectangle of the foreground pixels of
    an object mask, as (x1, y1, w, h). The mask is a two-dimensional array indexed by row y,
    then column x; a null array stands for a missing mask. */
module Mbr {

  /** One pixel's colour components (qRed, qGreen, qBlue). */
  datatype Rgb = Rgb(red: int, green: int, blue: int)

  /** A pixel belongs to the object when one of its components is above zero. */
  predicate IsForeground(p: Rgb) {
    p.red > 0 || p.blue > 0 || p.green > 0
  }

  ghost predicate HasForeground(mask: array2<Rgb>)
    reads mask
  {
    exists y, x :: 0 <= y < mask.Length0 && 0 <= x < mask.Length1 && IsForeground(mask[y, x])
  }

  /** [x1, x2] x [y1, y2] is the smallest rectangle holding every foreground pixel: it lies
      in the mask, holds all of them, and each of its four edges touches one of them. */
  ghost predicate IsTightBounds(mask: array2<Rgb>, x1: int, y1: int, x2: int, y2: int)
    reads mask
  {
    && 0 <= x1 <= x2 < mask.Length1
    && 0 <= y1 <= y2 < mask.Length0
    && (forall y, x :: 0 <= y < mask.Length0 && 0 <= x < mask.Length1 && IsForeground(mask[y, x]) ==>
          x1 <= x <= x2 && y1 <= y <= y2)
    && (exists y :: 0 <= y < mask.Length0 && IsForeground(mask[y, x1]))
    && (exists y :: 0 <= y < mask.Length0 && IsForeground(mask[y, x2]))
    && (exists x :: 0 <= x < mask.Length1 && IsForeground(mask[y1, x]))
    && (exists x :: 0 <= x < mask.Length1 && IsForeground(mask[y2, x]))
  }

  /** The same rectangle given as corner, width and height. */
  ghost predicate IsTightBox(mask: array2<Rgb>, x1: int, y1: int, w: int, h: int)
    reads mask
  {
    IsTightBounds(mask, x1, y1, x1 + w - 1, y1 + h - 1)
  }

  /** Pixel (py, px) comes before (y, x) in the row-by-row scan. */
  predicate Before(py: int, px: int, y: int, x: int) {
    py < y || (py == y && px < x)
  }

  /** The bounds the scan keeps after the pixels before (y, x): every foreground pixel seen
      so far lies in [x1, x2] x [y1, y2], and each bound is reached by one of them (the ghost
      witnesses give its other coordinate). Before the first one (fg false), the bounds are
      the values standing in for +inf and -inf, which no pixel lies between. */
  ghost predicate ScanBounds(mask: array2<Rgb>, y: int, x: int, fg: bool,
                             x1: int, y1: int, x2: int, y2: int,
                             x1Row: int, y1Col: int, x2Row: int, y2Col: int)
    reads mask
  {
    && (forall py, px ::
          0 <= py < mask.Length0 && 0 <= px < mask.Length1 && Before(py, px, y, x) && IsForeground(mask[py, px])
          ==> x1 <= px <= x2 && y1 <= py <= y2)
    && (!fg ==> x1 == mask.Length1 && y1 == mask.Length0 && x2 == -1 && y2 == -1)
    && (fg ==>
          && 0 <= x1Row < mask.Length0 && 0 <= x1 < mask.Length1
          && Before(x1Row, x1, y, x) && IsForeground(mask[x1Row, x1])
          && 0 <= x2Row < mask.Length0 && 0 <= x2 < mask.Length1
          && Before(x2Row, x2, y, x) && IsForeground(mask[x2Row, x2])
          && 0 <= y1 < mask.Length0 && 0 <= y1Col < mask.Length1
          && Before(y1, y1Col, y, x) && IsForeground(mask[y1, y1Col])
          && 0 <= y2 < mask.Length0 && 0 <= y2Col < mask.Length1
          && Before(y2, y2Col, y, x) && IsForeground(mask[y2, y2Col]))
  }

  /** getMBR_numpy: scan the rows from the top and each row from the left, keeping the
      smallest and largest x and y of a foreground pixel. A missing mask, or one without
      foreground, gives (-1, -1, 1, 1); the caller checks x1 < 0. */
  method GetMbr(qimage: array2?<Rgb>) returns (x1: int, y1: int, w: int, h: int)
    ensures qimage == null ==> (x1, y1, w, h) == (-1, -1, 1, 1)
    ensures qimage != null && !HasForeground(qimage) ==> (x1, y1, w, h) == (-1, -1, 1, 1)
    ensures qimage != null && HasForeground(qimage) ==> IsTightBox(qimage, x1, y1, w, h)
  {
    var x2, y2 := -1, -1;
    x1, y1 := -1, -1;
    if qimage != null {
      var fg := false;
      x1, y1, x2, y2 := qimage.Length1, qimage.Length0, -1, -1;
      ghost var x1Row, y1Col, x2Row, y2Col := 0, 0, 0, 0;
      var y := 0;
      while y < qimage.Length0
        invariant 0 <= y <= qimage.Length0
        invariant ScanBounds(qimage, y, 0, fg, x1, y1, x2, y2, x1Row, y1Col, x2Row, y2Col)
      {
        var x := 0;
        while x < qimage.Length1
          invariant 0 <= x <= qimage.Length1
          invariant ScanBounds(qimage, y, x, fg, x1, y1, x2, y2, x1Row, y1Col, x2Row, y2Col)
        {
          var pcol := qimage[y, x];
          if pcol.red > 0 || pcol.blue > 0 || pcol.green > 0 {
            fg := true;
            if y < y1 {
              y1, y1Col := y, x;
            }
            if x < x1 {
              x1, x1Row := x, y;
            }
            if y > y2 {
              y2, y2Col := y, x;
            }
            if x > x2 {
              x2, x2Row := x, y;
            }
          }
          x := x + 1;
        }
        y := y + 1;
      }
      if !fg {
        x1, y1, x2, y2 := -1, -1, -1, -1;
      } else {
        assert IsForeground(qimage[x1Row, x1]) && IsForeground(qimage[x2Row, x2]);
        assert IsForeground(qimage[y1, y1Col]) && IsForeground(qimage[y2, y2Col]);
        assert IsTightBounds(qimage, x1, y1, x2, y2);
      }
    }
    w, h := x2 - x1 + 1, y2 - y1 + 1;
  }

  /** A mask whose only foreground pixel is (x, y) has the box (x, y, 1, 1). */
  lemma SinglePixelBox(mask: array2<Rgb>, x: int, y: int, x1: int, y1: int, w: int, h: int)
    requires 0 <= y < mask.Length0 && 0 <= x < mask.Length1 && IsForeground(mask[y, x])
    requires forall py, px :: 0 <= py < mask.Length0 && 0 <= px < mask.Length1 && IsForeground(mask[py, px]) ==>
      py == y && px == x
    requires IsTightBox(mask, x1, y1, w, h)
    ensures (x1, y1, w, h) == (x, y, 1, 1)
  {
    var ya :| 0 <= ya < mask.Length0 && IsForeground(mask[ya, x1]);
    var yb :| 0 <= yb < mask.Length0 && IsForeground(mask[yb, x1 + w - 1]);
  }

  /** A mask has at most one tight box, so the result of GetMbr is determined by the mask. */
  lemma TightBoxUnique(mask: array2<Rgb>, a1: int, b1: int, w1: int, h1: int, a2: int, b2: int, w2: int, h2: int)
    requires IsTightBox(mask, a1, b1, w1, h1) && IsTightBox(mask, a2, b2, w2, h2)
    ensures a1 == a2 && b1 == b2 && w1 == w2 && h1 == h2
  {
    var ya :| 0 <= ya < mask.Length0 && IsForeground(mask[ya, a1]);
    var yb :| 0 <= yb < mask.Length0 && IsForeground(mask[yb, a2]);
    var yc :| 0 <= yc < mask.Length0 && IsForeground(mask[yc, a1 + w1 - 1]);
    var yd :| 0 <= yd < mask.Length0 && IsForeground(mask[yd, a2 + w2 - 1]);
    var xa :| 0 <= xa < mask.Length1 && IsForeground(mask[b1, xa]);
    var xb :| 0 <= xb < mask.Length1 && IsForeground(mask[b2, xb]);
    var xc :| 0 <= xc < mask.Length1 && IsForeground(mask[b1 + h1 - 1, xc]);
    var xd :| 0 <= xd < mask.Length1 && IsForeground(mask[b2 + h2 - 1, xd]);
  }
}
