/** Grid helpers shared by both distance transforms (dahu/utils.py):
    the two neighbourhood tables, the domain test, the clamp used to
    project a value into an interval, and the 2-face test of the
    immersed (double-resolution) grid. */
module Utils {

  /** A position (row, column) on a grid; also used for a displacement. */
  datatype Cell = Cell(l: int, c: int)

  /** The 4-connected neighbourhood, in the order the transforms visit it. */
  const C4: seq<Cell> := [Cell(0, -1), Cell(1, 0), Cell(0, 1), Cell(-1, 0)]

  /** The 8-connected neighbourhood. */
  const C8: seq<Cell> := [Cell(0, -1), Cell(1, -1), Cell(1, 0), Cell(1, 1), Cell(0, 1), Cell(-1, 1), Cell(-1, 0), Cell(-1, -1)]

  function Abs(x: int): (r: nat)
    ensures r == x || r == -x
  {
    if x < 0 then -x else x
  }

  function Min(a: int, b: int): (r: int)
    ensures r <= a && r <= b && (r == a || r == b)
  {
    if a < b then a else b
  }

  function Max(a: int, b: int): (r: int)
    ensures r >= a && r >= b && (r == a || r == b)
  {
    if a < b then b else a
  }

  /** The cell reached from `p` by the displacement `d`. */
  function Shift(p: Cell, d: Cell): Cell
  {
    Cell(p.l + d.l, p.c + d.c)
  }

  /** `q` is one of the four axis-aligned neighbours of `p`. */
  predicate Adjacent(p: Cell, q: Cell)
  {
    Cell(q.l - p.l, q.c - p.c) in C4
  }

  /** Each move of C4 leads to a 4-neighbour. */
  lemma ShiftAdjacent(p: Cell, k: int)
    requires 0 <= k < |C4|
    ensures Adjacent(p, Shift(p, C4[k]))
  {
  }

  /** Every cell of a grid of the given shape. */
  ghost function Domain(shape: (int, int)): set<Cell>
  {
    set l, c | 0 <= l < shape.0 && 0 <= c < shape.1 :: Cell(l, c)
  }

  /** `l, c` index a cell of a grid of shape `shape` (rows, columns).
      Python's unbounded integers are Dafny's `int`, so negative
      coordinates are simply outside the domain. */
  predicate InDomain(shape: (int, int), l: int, c: int)
  {
    l >= 0 && c >= 0 && l < shape.0 && c < shape.1
  }

  /** The domain test accepts exactly the cells of the grid. */
  lemma DomainCells(shape: (int, int), p: Cell)
    ensures p in Domain(shape) <==> InDomain(shape, p.l, p.c)
  {
    if InDomain(shape, p.l, p.c) {
      assert p == Cell(p.l, p.c);
    }
  }

  /** Projection of `v` into `[vmin, vmax]`; the lower bound is checked
      first, so on an empty interval a value below `vmin` yields `vmin`. */
  function Clamp(v: int, vmin: int, vmax: int): (r: int)
    ensures vmin <= vmax ==> vmin <= r <= vmax
    ensures vmin <= vmax ==> (r == v <==> vmin <= v <= vmax)
    ensures v < vmin ==> r == vmin
    ensures vmin <= v && v > vmax ==> r == vmax
  {
    if v < vmin then vmin
    else if v > vmax then vmax
    else v
  }

  /** A 2-face of the immersed grid: both coordinates even. Python's `%`
      floors and Dafny's is Euclidean; with divisor 2 they agree. */
  predicate IsTwoFace(l: int, c: int): (b: bool)
    ensures b <==> l == 2 * (l / 2) && c == 2 * (c / 2)
  {
    l % 2 == 0 && c % 2 == 0
  }

  /** On a non-empty interval, clamping moves `v` to the nearest point
      of the interval: no point of `[vmin, vmax]` is closer to `v`. */
  lemma ClampNearest(v: int, vmin: int, vmax: int, x: int)
    requires vmin <= x <= vmax
    ensures Abs(v - Clamp(v, vmin, vmax)) <= Abs(v - x)
  {
  }

  /** Clamping twice into the same interval is clamping once. */
  lemma ClampIdempotent(v: int, vmin: int, vmax: int)
    requires vmin <= vmax
    ensures Clamp(Clamp(v, vmin, vmax), vmin, vmax) == Clamp(v, vmin, vmax)
  {
  }

  /** Clamping into a single-point interval forgets the input. */
  lemma ClampPoint(v: int, k: int)
    ensures Clamp(v, k, k) == k
  {
  }

  /** C4 holds exactly the four unit moves along one axis, each once. */
  lemma C4Exact(d: Cell)
    ensures d in C4 <==> Abs(d.l) + Abs(d.c) == 1
    ensures |C4| == 4 && forall i, j :: 0 <= i < j < |C4| ==> C4[i] != C4[j]
  {
    if Abs(d.l) + Abs(d.c) == 1 {
      if d.l == 0 {
        assert d == C4[0] || d == C4[2];
      } else {
        assert d == C4[1] || d == C4[3];
      }
    }
  }

  /** C8 holds exactly the eight moves of at most one step on each axis,
      excluding the null move, each once. */
  lemma C8Exact(d: Cell)
    ensures d in C8 <==> d != Cell(0, 0) && Abs(d.l) <= 1 && Abs(d.c) <= 1
    ensures |C8| == 8 && forall i, j :: 0 <= i < j < |C8| ==> C8[i] != C8[j]
  {
    if d != Cell(0, 0) && Abs(d.l) <= 1 && Abs(d.c) <= 1 {
      if d.l == 0 {
        assert d == C8[0] || d == C8[4];
      } else if d.l == 1 {
        assert d == C8[1] || d == C8[2] || d == C8[3];
      } else {
        assert d == C8[5] || d == C8[6] || d == C8[7];
      }
    }
  }

  /** Both tables are symmetric and the 4-neighbourhood is part of the
      8-neighbourhood; hence adjacency is a symmetric relation. */
  lemma NeighbourhoodsSymmetric(d: Cell)
    ensures d in C4 ==> Cell(-d.l, -d.c) in C4 && d in C8
    ensures d in C8 ==> Cell(-d.l, -d.c) in C8
  {
    C4Exact(d);
    C4Exact(Cell(-d.l, -d.c));
    C8Exact(d);
    C8Exact(Cell(-d.l, -d.c));
  }

  /** On the immersed grid of an H x W image, shape (2H-1, 2W-1), the
      in-domain 2-faces are exactly the cells (2i, 2j) of the pixels
      (i, j) of the image. */
  lemma TwoFaceIsPixel(h: int, w: int, l: int, c: int)
    requires h >= 1 && w >= 1
    ensures InDomain((2 * h - 1, 2 * w - 1), l, c) && IsTwoFace(l, c)
            <==> l == 2 * (l / 2) && c == 2 * (c / 2) && InDomain((h, w), l / 2, c / 2)
  {
  }

  /** The shape (rows, columns) of a grid. */
  function Shape<T>(a: array2<T>): (int, int)
  {
    (a.Length0, a.Length1)
  }

  /** A read-only input image (a NumPy 2-D array the transforms never
      write) as its rows: every row has the width of the first one. */
  predicate IsImage(g: seq<seq<int>>)
  {
    forall i :: 0 <= i < |g| ==> |g[i]| == |g[0]|
  }

  /** The shape (rows, columns) of an input image. */
  function Dims(g: seq<seq<int>>): (int, int)
  {
    (|g|, if |g| == 0 then 0 else |g[0]|)
  }

  /** The pixel of `g` at `p`; 0 outside the image. */
  function At(g: seq<seq<int>>, p: Cell): (r: int)
    ensures IsImage(g) && InDomain(Dims(g), p.l, p.c) ==> r == g[p.l][p.c]
  {
    if 0 <= p.l < |g| && 0 <= p.c < |g[p.l]| then g[p.l][p.c] else 0
  }
}
