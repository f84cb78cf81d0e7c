/** Padding of an image by a one-cell ring (dt/border.py): `AddBorder`
    surrounds an image with a constant, `AddMedianBorder` picks that
    constant among the image's own border cells. */
module Border {
  import opened Utils

  /** `(i, j)` lies on the outermost ring of a grid of shape `shape`. */
  predicate OnRing(shape: (int, int), i: int, j: int)
  {
    i == 0 || i == shape.0 - 1 || j == 0 || j == shape.1 - 1
  }

  /** The contents of a grid, row by row. */
  ghost function Rows(a: array2<int>): (g: seq<seq<int>>)
    reads a
    ensures |g| == a.Length0
    ensures forall i :: 0 <= i < |g| ==> |g[i]| == a.Length1
  {
    seq(a.Length0, i requires 0 <= i < a.Length0 reads a =>
      seq(a.Length1, j requires 0 <= j < a.Length1 reads a => a[i, j]))
  }

  /** A grid without its outermost ring. */
  function Crop(g: seq<seq<int>>): seq<seq<int>>
    requires |g| >= 2 && forall i :: 0 <= i < |g| ==> |g[i]| >= 2
  {
    seq(|g| - 2, i requires 0 <= i < |g| - 2 => g[i + 1][1..|g[i + 1]| - 1])
  }

  /** Copies `img` into the cells of `res` inside the ring
      (`res[1:-1, 1:-1] = img`); the ring is left as it was. */
  method FillInterior(res: array2<int>, img: seq<seq<int>>)
    requires IsImage(img) && res.Length0 == |img| + 2 && res.Length1 == Dims(img).1 + 2
    modifies res
    ensures forall i, j :: 0 <= i < res.Length0 && 0 <= j < res.Length1 ==>
      res[i, j] == if OnRing(Shape(res), i, j) then old(res[i, j]) else img[i - 1][j - 1]
  {
    var h, w := |img|, Dims(img).1;
    for i := 0 to h
      invariant forall a, b :: 0 <= a < h + 2 && 0 <= b < w + 2 ==>
        res[a, b] == if 1 <= a <= i && 1 <= b <= w then img[a - 1][b - 1] else old(res[a, b])
    {
      for j := 0 to w
        invariant forall a, b :: 0 <= a < h + 2 && 0 <= b < w + 2 ==>
          res[a, b] == if (1 <= a <= i || (a == i + 1 && b <= j)) && 1 <= b <= w then img[a - 1][b - 1]
                       else old(res[a, b])
      {
        res[i + 1, j + 1] := img[i][j];
      }
    }
  }

  /** Sets every cell of row `r` to `v` (`res[r] = v`). */
  method FillRow(res: array2<int>, r: nat, v: int)
    requires r < res.Length0
    modifies res
    ensures forall i, j :: 0 <= i < res.Length0 && 0 <= j < res.Length1 ==>
      res[i, j] == if i == r then v else old(res[i, j])
  {
    for j := 0 to res.Length1
      invariant forall a, b :: 0 <= a < res.Length0 && 0 <= b < res.Length1 ==>
        res[a, b] == if a == r && b < j then v else old(res[a, b])
    {
      res[r, j] := v;
    }
  }

  /** Sets every cell of column `c` to `v` (`res[:, c] = v`). */
  method FillColumn(res: array2<int>, c: nat, v: int)
    requires c < res.Length1
    modifies res
    ensures forall i, j :: 0 <= i < res.Length0 && 0 <= j < res.Length1 ==>
      res[i, j] == if j == c then v else old(res[i, j])
  {
    for i := 0 to res.Length0
      invariant forall a, b :: 0 <= a < res.Length0 && 0 <= b < res.Length1 ==>
        res[a, b] == if b == c && a < i then v else old(res[a, b])
    {
      res[i, c] := v;
    }
  }

  /** Pads `img` with a ring of `v`: the result is two rows and two
      columns larger, its ring holds `v` only, and cropping the ring
      gives back `img`. */
  method AddBorder(img: seq<seq<int>>, v: int) returns (res: array2<int>)
    requires IsImage(img)
    ensures fresh(res)
    ensures Shape(res) == (|img| + 2, Dims(img).1 + 2)
    ensures forall i, j :: 0 <= i < res.Length0 && 0 <= j < res.Length1 && OnRing(Shape(res), i, j) ==>
      res[i, j] == v
    ensures Crop(Rows(res)) == img
  {
    var h, w := |img|, Dims(img).1;
    res := new int[h + 2, w + 2];
    FillInterior(res, img);
    FillRow(res, 0, v);
    FillRow(res, h + 1, v);
    FillColumn(res, 0, v);
    FillColumn(res, w + 1, v);
    CropInterior(res, img);
  }

  /** A grid whose cells inside the ring are those of `img` crops to `img`. */
  lemma CropInterior(res: array2<int>, img: seq<seq<int>>)
    requires IsImage(img) && res.Length0 == |img| + 2 && res.Length1 == Dims(img).1 + 2
    requires forall i, j :: 0 <= i < |img| && 0 <= j < Dims(img).1 ==> res[i + 1, j + 1] == img[i][j]
    ensures Crop(Rows(res)) == img
  {
    var g := Rows(res);
    forall i | 0 <= i < |img|
      ensures Crop(g)[i] == img[i]
    {
      assert forall j :: 0 <= j < |img[i]| ==> Crop(g)[i][j] == g[i + 1][j + 1] == img[i][j];
    }
  }

  /** The cells of column `c`, top to bottom. */
  function Column(img: seq<seq<int>>, c: nat): (col: seq<int>)
    requires IsImage(img) && c < Dims(img).1
    ensures |col| == |img| && forall i :: 0 <= i < |img| ==> col[i] == img[i][c]
  {
    seq(|img|, i requires 0 <= i < |img| => img[i][c])
  }

  /** The border cells of a non-empty image, in the order they are
      concatenated: first row, last row, first column, last column. */
  function BorderValues(img: seq<seq<int>>): (b: seq<int>)
    requires IsImage(img) && |img| > 0 && |img[0]| > 0
    ensures |b| == 2 * |img| + 2 * |img[0]|
  {
    img[0] + img[|img| - 1] + Column(img, 0) + Column(img, |img[0]| - 1)
  }

  /** The ring value of `AddMedianBorder`: the middle element of the
      border cells as concatenated, not sorted. For an `h` by `w` image
      that is row `h - 1`, column `h`, when `h < w`, and otherwise
      column 0, row `h - w`. */
  function MedianBorderValue(img: seq<seq<int>>): (r: int)
    requires IsImage(img) && |img| > 0 && |img[0]| > 0
    ensures var h, w := |img|, |img[0]|;
      r == if h < w then img[h - 1][h] else img[h - w][0]
  {
    var b := BorderValues(img);
    b[|b| / 2]
  }

  /** Pads a non-empty image with a ring of its `MedianBorderValue`. */
  method AddMedianBorder(img: seq<seq<int>>) returns (res: array2<int>)
    requires IsImage(img) && |img| > 0 && |img[0]| > 0
    ensures fresh(res)
    ensures Shape(res) == (|img| + 2, |img[0]| + 2)
    ensures forall i, j :: 0 <= i < res.Length0 && 0 <= j < res.Length1 && OnRing(Shape(res), i, j) ==>
      res[i, j] == MedianBorderValue(img)
    ensures Crop(Rows(res)) == img
  {
    var v := MedianBorderValue(img);
    res := AddBorder(img, v);
  }

  /** How many elements of `s` exceed `x`. */
  function CountAbove(s: seq<int>, x: int): (n: nat)
    ensures n <= |s|
  {
    if |s| == 0 then 0 else (if s[0] > x then 1 else 0) + CountAbove(s[1..], x)
  }

  /** How many elements of `s` are below `x`. */
  function CountBelow(s: seq<int>, x: int): (n: nat)
    ensures n <= |s|
  {
    if |s| == 0 then 0 else (if s[0] < x then 1 else 0) + CountBelow(s[1..], x)
  }

  /** `x` is a median of `s`: an element of `s` with at most half of the
      elements of `s` on either side of it. */
  predicate IsMedian(s: seq<int>, x: int)
  {
    x in s && 2 * CountAbove(s, x) <= |s| && 2 * CountBelow(s, x) <= |s|
  }

  /** The ring value is not a median of the border: on the image
      [[1, 2], [3, 4]] it is 1, the least border value, and six of the
      eight border values exceed it. */
  lemma MedianBorderNotMedian()
    ensures var img := [[1, 2], [3, 4]];
      && MedianBorderValue(img) == 1
      && CountAbove(BorderValues(img), MedianBorderValue(img)) == 6
      && |BorderValues(img)| == 8
      && !IsMedian(BorderValues(img), MedianBorderValue(img))
  {
    var img := [[1, 2], [3, 4]];
    var b := [1, 2, 3, 4, 1, 3, 2, 4];
    assert BorderValues(img) == b;
    assert CountAbove(b[7..], 1) == 1 by { assert b[7..][1..] == []; }
    assert CountAbove(b[6..], 1) == 2 by { assert b[6..][1..] == b[7..]; }
    assert CountAbove(b[5..], 1) == 3 by { assert b[5..][1..] == b[6..]; }
    assert CountAbove(b[4..], 1) == 3 by { assert b[4..][1..] == b[5..]; }
    assert CountAbove(b[3..], 1) == 4 by { assert b[3..][1..] == b[4..]; }
    assert CountAbove(b[2..], 1) == 5 by { assert b[2..][1..] == b[3..]; }
    assert CountAbove(b[1..], 1) == 6 by { assert b[1..][1..] == b[2..]; }
    assert CountAbove(b, 1) == 6;
  }

  /** The elements of `s` in non-decreasing order. */
  predicate Sorted(s: seq<int>)
  {
    forall i, j :: 0 <= i < j < |s| ==> s[i] <= s[j]
  }

  /** `x` inserted into the sorted `t` before its first larger element. */
  function Insert(x: int, t: seq<int>): (r: seq<int>)
    requires Sorted(t)
    ensures Sorted(r) && multiset(r) == multiset(t) + multiset{x}
    ensures |r| == |t| + 1 && (r[0] == x || (|t| > 0 && r[0] == t[0]))
  {
    if |t| == 0 || x <= t[0] then [x] + t
    else
      var rest := Insert(x, t[1..]);
      assert t == [t[0]] + t[1..];
      assert t[0] <= rest[0];
      [t[0]] + rest
  }

  /** `s` sorted by insertion. */
  function Sort(s: seq<int>): (r: seq<int>)
    ensures Sorted(r) && multiset(r) == multiset(s)
  {
    if |s| == 0 then [] else
      assert s == [s[0]] + s[1..];
      Insert(s[0], Sort(s[1..]))
  }

  /** Inserting `x` adds one to the counts on the side of `y` it lies on. */
  lemma {:induction false} InsertCounts(x: int, t: seq<int>, y: int)
    requires Sorted(t)
    ensures CountAbove(Insert(x, t), y) == CountAbove(t, y) + (if x > y then 1 else 0)
    ensures CountBelow(Insert(x, t), y) == CountBelow(t, y) + (if x < y then 1 else 0)
    decreases |t|
  {
    if |t| == 0 || x <= t[0] {
      assert ([x] + t)[1..] == t;
    } else {
      InsertCounts(x, t[1..], y);
      assert ([t[0]] + Insert(x, t[1..]))[1..] == Insert(x, t[1..]);
    }
  }

  /** Sorting keeps the counts on either side of every value. */
  lemma {:induction false} SortCounts(s: seq<int>, y: int)
    ensures CountAbove(Sort(s), y) == CountAbove(s, y) && CountBelow(Sort(s), y) == CountBelow(s, y)
    decreases |s|
  {
    if |s| > 0 {
      SortCounts(s[1..], y);
      InsertCounts(s[0], Sort(s[1..]), y);
    }
  }

  /** In a sorted sequence, no more elements exceed the one at `k` than
      there are after it. */
  lemma {:induction false} SortedAbove(t: seq<int>, k: nat)
    requires Sorted(t) && k < |t|
    ensures CountAbove(t, t[k]) <= |t| - k - 1
    decreases k
  {
    if k > 0 {
      SortedAbove(t[1..], k - 1);
      assert t[1..][k - 1] == t[k];
    } else {
      assert t[0] <= t[k];
    }
  }

  /** In a sorted sequence, no more elements are below the one at `k`
      than there are before it. */
  lemma {:induction false} SortedBelow(t: seq<int>, k: nat)
    requires Sorted(t) && k < |t|
    ensures CountBelow(t, t[k]) <= k
    decreases k
  {
    if k > 0 {
      SortedBelow(t[1..], k - 1);
      assert t[1..][k - 1] == t[k];
    } else {
      NoneBelow(t, t[0]);
    }
  }

  /** Nothing in a sorted sequence is below its first element. */
  lemma {:induction false} NoneBelow(t: seq<int>, x: int)
    requires Sorted(t) && (|t| > 0 ==> x <= t[0])
    ensures CountBelow(t, x) == 0
    decreases |t|
  {
    if |t| > 0 {
      if |t| > 1 {
        assert t[0] <= t[1] == t[1..][0];
      }
      NoneBelow(t[1..], x);
    }
  }

  /** The median the border value is meant to be: the middle element of
      the sorted border cells. */
  function BorderMedian(img: seq<seq<int>>): (r: int)
    requires IsImage(img) && |img| > 0 && |img[0]| > 0
    ensures IsMedian(BorderValues(img), r)
  {
    var b := BorderValues(img);
    var t := Sort(b);
    var k := |t| / 2;
    assert |t| == |b| by { assert |multiset(t)| == |multiset(b)|; }
    assert t[k] in multiset(b);
    SortCounts(b, t[k]);
    SortedAbove(t, k);
    SortedBelow(t, k);
    t[k]
  }

  /** Pads a non-empty image with a ring of the median of its border. */
  method AddBorderMedian(img: seq<seq<int>>) returns (res: array2<int>)
    requires IsImage(img) && |img| > 0 && |img[0]| > 0
    ensures fresh(res)
    ensures Shape(res) == (|img| + 2, |img[0]| + 2)
    ensures forall i, j :: 0 <= i < res.Length0 && 0 <= j < res.Length1 && OnRing(Shape(res), i, j) ==>
      IsMedian(BorderValues(img), res[i, j])
    ensures Crop(Rows(res)) == img
  {
    var v := BorderMedian(img);
    res := AddBorder(img, v);
  }
}
