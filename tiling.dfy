/**
  The integer and index logic of `tiledTexture.createTexture`: a `step` by
  `step` grid of tiles walked in row-major order by a cursor, each tile's pixel
  box clamped to the image, and the volume of interest and plane corners that
  are derived from the box.
 */
module Tiling {
  import opened PyArith

  /** Position of the cursor (`cur_x`, `cur_y`) when a tile is generated. */
  datatype Cursor = Cursor(x: int, y: int)

  /** Inclusive pixel bounds of one tile. */
  datatype Box = Box(xmin: int, xmax: int, ymin: int, ymax: int)

  /** An integer point given to the plane source. */
  datatype Point = Point(x: int, y: int, z: int)

  /** What one loop iteration derives from its box: the box, the VOI extent and the plane's corners. */
  datatype Tile = Tile(box: Box, voi: seq<int>, center: Point, point1: Point, point2: Point)

  function Max(a: int, b: int): int { if a < b then b else a }

  function Min(a: int, b: int): int { if a < b then a else b }

  /**
    The cursor used by tile `i`: the first tile starts at the origin, a tile
    whose index is a multiple of `step` starts a new row one band lower, and
    every other tile moves one band to the right.
   */
  function CursorAt(w: nat, h: nat, step: int, i: nat): Cursor
    requires step != 0
  {
    if i == 0 then Cursor(0, 0)
    else
      var prev := CursorAt(w, h, step, i - 1);
      if FloorMod(i, step) == 0 then Cursor(0, prev.y + FloorDiv(h, step))
      else Cursor(prev.x + FloorDiv(w, step), prev.y)
  }

  /** One unfolding of `CursorAt`: the update the loop makes before tile `i`. */
  lemma CursorNext(w: nat, h: nat, step: int, i: nat)
    requires step != 0 && i > 0
    ensures var prev := CursorAt(w, h, step, i - 1);
            CursorAt(w, h, step, i)
            == if FloorMod(i, step) == 0 then Cursor(0, prev.y + FloorDiv(h, step))
               else Cursor(prev.x + FloorDiv(w, step), prev.y)
  {
  }

  /** The tile box at cursor `c`: one band wide and high, clamped to the image. */
  function TileBox(w: nat, h: nat, step: int, c: Cursor): (b: Box)
    requires step != 0
    ensures 0 <= b.xmin && b.xmax <= w - 1
    ensures 0 <= b.ymin && b.ymax <= h - 1
  {
    Box(Max(0, c.x), Min(c.x + FloorDiv(w, step) - 1, w - 1),
        Max(0, c.y), Min(c.y + FloorDiv(h, step) - 1, h - 1))
  }

  /** The VOI extent and the plane corners, with one pixel of overlap toward the neighbours. */
  function TileFromBox(b: Box): Tile {
    Tile(b, [b.xmin, b.xmax, b.ymin, b.ymax, 0, 0],
         Point(b.xmin, b.ymin, 0),
         Point(b.xmin - 1, b.ymax + 1, 0),
         Point(b.xmax + 1, b.ymin - 1, 0))
  }

  /** Tile `i` of the loop. */
  function TileAt(w: nat, h: nat, step: int, i: nat): Tile
    requires step != 0
  {
    TileFromBox(TileBox(w, h, step, CursorAt(w, h, step, i)))
  }

  /** Pixel `(x, y)` lies in the tile's box. */
  predicate Contains(t: Tile, x: int, y: int) {
    t.box.xmin <= x <= t.box.xmax && t.box.ymin <= y <= t.box.ymax
  }

  /** The intended size check: the image cannot be cut into equal bands. */
  function SizeWarning(w: nat, h: nat, step: int): (warn: bool)
    requires step != 0
    ensures warn <==> w % step != 0 || h % step != 0
  {
    FloorModSign(w, step);
    FloorModSign(h, step);
    FloorMod(w, step) != 0 || FloorMod(h, step) != 0
  }

  /** The size check as written, comparing `int(1.0*w/step)` with the floor quotient `w/step`. */
  function AsWrittenSizeWarning(w: nat, h: nat, step: int): bool
    requires step != 0
  {
    !(Trunc(1.0 * w as real / step as real) - FloorDiv(w, step) == 0)
    || !(Trunc(1.0 * h as real / step as real) - FloorDiv(h, step) == 0)
  }

  // ---------------------------------------------------------------------------
  // Arithmetic helpers

  /** For a positive divisor the quotient stays below `step` on indices below `step * step`. */
  lemma QuotientBelow(i: int, step: int)
    requires step >= 1 && 0 <= i < step * step
    ensures 0 <= i / step < step
  {
    if i / step >= step {
      MulMono(step, i / step, step);
    }
  }

  /** Integer `int()` of an exact non-negative quotient is the floor quotient. */
  lemma TruncOfQuotient(a: nat, b: int)
    requires b >= 1
    ensures Trunc(1.0 * a as real / b as real) == a / b
  {
    var q, r := a / b, a % b;
    var x := 1.0 * a as real / b as real;
    assert a as real == b as real * q as real + r as real;
    assert x == q as real + r as real / b as real;
    assert 0.0 <= r as real / b as real < 1.0;
    var n := Trunc(x);
    assert n as real <= x < n as real + 1.0;
  }

  // ---------------------------------------------------------------------------
  // Row-major order and exact partition

  /** For a positive divisor Python's quotient and remainder are Dafny's. */
  lemma PositiveDivisor(a: int, b: int)
    requires b >= 1
    ensures FloorDiv(a, b) == a / b && FloorMod(a, b) == a % b
  {
    DivModUnique(a, b, FloorDiv(a, b), FloorMod(a, b));
  }

  /** Column and row of index `i - 1` from those of `i`. */
  lemma StepBack(i: int, step: int)
    requires step >= 1 && i >= 1
    ensures i % step == 0 ==> (i - 1) % step == step - 1 && (i - 1) / step == i / step - 1
    ensures i % step != 0 ==> (i - 1) % step == i % step - 1 && (i - 1) / step == i / step
  {
    var q, r := i / step, i % step;
    assert i == step * q + r;
    if r == 0 {
      assert i - 1 == step * (q - 1) + (step - 1);
      DivModUnique(i - 1, step, q - 1, step - 1);
    } else {
      DivModUnique(i - 1, step, q, r - 1);
    }
  }

  lemma AddBand(k: int, b: int)
    ensures (k + 1) * b == k * b + b
  {
  }

  /** The cursor of tile `i` is column `i mod step`, row `i div step`, each a band wide. */
  lemma {:induction false} CursorClosedForm(w: nat, h: nat, step: int, i: nat)
    requires step >= 1
    ensures CursorAt(w, h, step, i) == Cursor((i % step) * (w / step), (i / step) * (h / step))
  {
    if i > 0 {
      CursorClosedForm(w, h, step, i - 1);
      PositiveDivisor(w, step);
      PositiveDivisor(h, step);
      PositiveDivisor(i, step);
      StepBack(i, step);
      var bw, bh := w / step, h / step;
      var c, r := i % step, i / step;
      if c == 0 {
        AddBand(r - 1, bh);
      } else {
        AddBand(c - 1, bw);
      }
    }
  }

  /**
    When the image is at least `step` pixels wide and high, the cursor returns
    to the left edge and moves down a row exactly at the indices that are
    multiples of `step`, and moves right exactly at the others.
   */
  lemma RowStarts(w: nat, h: nat, step: int, i: nat)
    requires step >= 1 && i >= 1 && w >= step && h >= step
    ensures var c, prev := CursorAt(w, h, step, i), CursorAt(w, h, step, i - 1);
            && (c.x == 0 <==> i % step == 0)
            && (c.y > prev.y <==> i % step == 0)
            && (c.y == prev.y <==> i % step != 0)
            && (i % step != 0 ==> c.x > prev.x)
  {
    var bw, bh := w / step, h / step;
    BandAtLeastOne(w, step);
    BandAtLeastOne(h, step);
    var c, r := i % step, i / step;
    CursorClosedForm(w, h, step, i);
    CursorClosedForm(w, h, step, i - 1);
    StepBack(i, step);
    if c == 0 {
      assert CursorAt(w, h, step, i - 1).y == (r - 1) * bh;
      AddBand(r - 1, bh);
    } else {
      assert CursorAt(w, h, step, i - 1).x == (c - 1) * bw;
      AddBand(c - 1, bw);
      MulMono(1, c, bw);
    }
  }

  /** An image at least `step` pixels across has bands at least one pixel wide. */
  lemma BandAtLeastOne(n: nat, step: int)
    requires 1 <= step <= n
    ensures n / step >= 1
  {
    assert n == step * (n / step) + n % step;
  }

  /**
    With a positive step the clamp never bites: tile `i` is exactly the band
    rectangle in column `i mod step` and row `i div step`.
   */
  lemma TileAtClosedForm(w: nat, h: nat, step: int, i: nat)
    requires step >= 1 && i < step * step
    ensures var c, r, bw, bh := i % step, i / step, w / step, h / step;
            TileAt(w, h, step, i).box == Box(c * bw, c * bw + bw - 1, r * bh, r * bh + bh - 1)
  {
    CursorClosedForm(w, h, step, i);
    PositiveDivisor(w, step);
    PositiveDivisor(h, step);
    QuotientBelow(i, step);
    BandInside(w, step, i % step);
    BandInside(h, step, i / step);
  }

  /** Band `k` of `step` equal bands, each `n / step` wide, lies inside `[0, n)`. */
  lemma BandInside(n: nat, step: int, k: int)
    requires step >= 1 && 0 <= k < step
    ensures 0 <= k * (n / step) && k * (n / step) + n / step <= n
  {
    var b := n / step;
    MulMono(0, k, b);
    MulMono(k + 1, step, b);
    AddBand(k, b);
  }

  /** Two tiles next to each other in a row abut, and their planes overlap by one pixel. */
  lemma RowNeighbours(w: nat, h: nat, step: int, i: nat)
    requires step >= 1 && i + 1 < step * step && (i + 1) % step != 0
    ensures var a, b := TileAt(w, h, step, i), TileAt(w, h, step, i + 1);
            && a.box.xmax + 1 == b.box.xmin
            && a.box.ymin == b.box.ymin && a.box.ymax == b.box.ymax
            && a.point2.x == b.center.x && b.point1.x == a.box.xmax
  {
    if i % step + 1 == step {
      DivModUnique(i + 1, step, i / step + 1, 0);
    }
    DivModUnique(i + 1, step, i / step, i % step + 1);
    TileAtClosedForm(w, h, step, i);
    TileAtClosedForm(w, h, step, i + 1);
    assert (i % step + 1) * (w / step) == i % step * (w / step) + w / step;
  }

  /** A tile and the one below it abut, and their planes overlap by one pixel. */
  lemma ColumnNeighbours(w: nat, h: nat, step: int, i: nat)
    requires step >= 1 && i + step < step * step
    ensures var a, b := TileAt(w, h, step, i), TileAt(w, h, step, i + step);
            && a.box.ymax + 1 == b.box.ymin
            && a.box.xmin == b.box.xmin && a.box.xmax == b.box.xmax
            && a.point1.y == b.center.y && b.point2.y == a.box.ymax
  {
    var r, bh := i / step, h / step;
    DivModUnique(i + step, step, r + 1, i % step);
    TileAtClosedForm(w, h, step, i);
    TileAtClosedForm(w, h, step, i + step);
    AddBand(r, bh);
  }

  /** When no warning is due, the first column and row start at 0 and the last ones end at the image border. */
  lemma BordersReached(w: nat, h: nat, step: int, i: nat)
    requires step >= 1 && !SizeWarning(w, h, step) && i < step * step
    ensures var b := TileAt(w, h, step, i).box;
            && (i % step == 0 ==> b.xmin == 0)
            && (i % step == step - 1 ==> b.xmax == w - 1)
            && (i / step == 0 ==> b.ymin == 0)
            && (i / step == step - 1 ==> b.ymax == h - 1)
  {
    TileAtClosedForm(w, h, step, i);
    AddBand(step - 1, w / step);
    AddBand(step - 1, h / step);
  }

  /** Value `v` lies in band `k` of width `b` exactly when `v div b == k`. */
  lemma BandIndex(v: int, b: int, k: int)
    requires b >= 1
    ensures k * b <= v <= k * b + b - 1 <==> v / b == k
  {
    if k * b <= v <= k * b + b - 1 {
      DivModUnique(v, b, k, v - k * b);
    }
    if v / b == k {
      assert v == b * k + v % b;
    }
  }

  /** An index splits uniquely into a row and a column below `step`. */
  lemma IndexSplit(i: int, step: int, r: int, c: int)
    requires step >= 1 && 0 <= c < step
    ensures i == r * step + c <==> i / step == r && i % step == c
  {
    if i == r * step + c {
      DivModUnique(i, step, r, c);
    }
  }

  /** A value below `m` bands of width `b` lies in one of the first `m` bands. */
  lemma QuotientBelowProduct(v: int, b: int, m: int)
    requires b >= 1 && 0 <= v < m * b
    ensures 0 <= v / b < m
  {
    if v / b >= m {
      MulMono(m, v / b, b);
    }
  }

  /** Row `r` and column `c` of a `step` by `step` grid give an index in range. */
  lemma IndexInGrid(r: int, c: int, step: int)
    requires 0 <= r < step && 0 <= c < step
    ensures 0 <= r * step + c < step * step
  {
    MulMono(0, r, step);
    MulMono(r + 1, step, step);
    AddBand(r, step);
  }

  /**
    When no warning is due, every pixel of the image lies in exactly one of the
    `step * step` tiles: the one in column `x div (w/step)` and row `y div (h/step)`.
   */
  lemma ExactCover(w: nat, h: nat, step: int, x: int, y: int)
    requires step >= 1 && !SizeWarning(w, h, step)
    requires 0 <= x < w && 0 <= y < h
    ensures w / step >= 1 && h / step >= 1
    ensures var k := (y / (h / step)) * step + x / (w / step);
            && 0 <= k < step * step
            && forall i :: 0 <= i < step * step ==> (Contains(TileAt(w, h, step, i), x, y) <==> i == k)
  {
    var bw, bh := w / step, h / step;
    assert w == step * bw && h == step * bh;
    var cx, cy := x / bw, y / bh;
    QuotientBelowProduct(x, bw, step);
    QuotientBelowProduct(y, bh, step);
    var k := cy * step + cx;
    IndexInGrid(cy, cx, step);
    forall i | 0 <= i < step * step
      ensures Contains(TileAt(w, h, step, i), x, y) <==> i == k
    {
      CoveredBy(w, h, step, x, y, i);
    }
  }

  /** Pixel `(x, y)` lies in tile `i` exactly when its band column and row are those of `i`. */
  lemma CoveredBy(w: nat, h: nat, step: int, x: int, y: int, i: nat)
    requires step >= 1 && w / step >= 1 && h / step >= 1 && i < step * step
    requires 0 <= x / (w / step) < step
    ensures Contains(TileAt(w, h, step, i), x, y) <==> i == (y / (h / step)) * step + x / (w / step)
  {
    var bw, bh := w / step, h / step;
    TileAtClosedForm(w, h, step, i);
    BandIndex(x, bw, i % step);
    BandIndex(y, bh, i / step);
    IndexSplit(i, step, y / bh, x / bw);
  }

  /** When the warning is due, the bottom-right pixel lies in no tile: the tiles do not cover the image. */
  lemma UncoveredWhenWarned(w: nat, h: nat, step: int)
    requires step >= 1 && w >= 1 && h >= 1 && SizeWarning(w, h, step)
    ensures forall i :: 0 <= i < step * step ==> !Contains(TileAt(w, h, step, i), w - 1, h - 1)
  {
    forall i | 0 <= i < step * step
      ensures !Contains(TileAt(w, h, step, i), w - 1, h - 1)
    {
      TileAtClosedForm(w, h, step, i);
      QuotientBelow(i, step);
      BandShort(w, step, i % step);
      BandShort(h, step, i / step);
    }
  }

  /** When `step` does not divide `n`, no band reaches the last pixel `n - 1`. */
  lemma BandShort(n: nat, step: int, k: int)
    requires step >= 1 && 0 <= k < step
    ensures n % step != 0 ==> k * (n / step) + n / step - 1 < n - 1
  {
    BandInside(n, step, step - 1);
    var b := n / step;
    MulMono(k + 1, step, b);
    AddBand(k, b);
    AddBand(step - 1, b);
  }

  /** The check as written never fires for a positive step, whatever the image size. */
  lemma AsWrittenWarningNeverFires(w: nat, h: nat, step: int)
    requires step >= 1
    ensures !AsWrittenSizeWarning(w, h, step)
  {
    TruncOfQuotient(w, step);
    TruncOfQuotient(h, step);
  }

  /** A 5 by 4 image cut with kernel 4: the intended check fires, the one as written does not. */
  lemma AsWrittenWarningMissesUnevenWidth()
    ensures SizeWarning(5, 4, 4) && !AsWrittenSizeWarning(5, 4, 4)
  {
    AsWrittenWarningNeverFires(5, 4, 4);
  }
}
