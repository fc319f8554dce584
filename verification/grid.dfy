/**
  Row-major pixel indexing, `x + y * width`, shared by the camera's ray
  directions and the renderer's pixel buffer.
 */
module Grid {

  /**
    The slot of pixel (x, y) in a row-major buffer of the given row width.
    IndexInRange, CoordOfIndex, IndexOfCoord and IndexInjective state what it
    means; they are kept apart from this function because every quantifier
    over slots would otherwise pay for them.
   */
  function Index(x: nat, y: nat, width: nat): nat
  {
    x + y * width
  }

  /** The pixel a slot belongs to: column i % width, row i / width. */
  function Column(i: nat, width: nat): nat
    requires width > 0
  {
    i % width
  }

  function Row(i: nat, width: nat): nat
    requires width > 0
  {
    i / width
  }

  lemma MulLeq(a: int, b: int, w: nat)
    requires a <= b
    ensures a * w <= b * w
  {
  }

  /** A multiple of w strictly between -w and w is zero. */
  lemma ZeroMultiple(d: int, w: nat)
    requires -(w as int) < d * w < w
    ensures d == 0
  {
    if d >= 1 {
      MulLeq(1, d, w);
    } else if d <= -1 {
      MulLeq(d, -1, w);
    }
  }

  /** The row after row y starts width slots later, and, for y < height, still inside the grid. */
  lemma NextRowStart(y: nat, width: nat, height: nat)
    requires y < height
    ensures (y + 1) * width == y * width + width
    ensures y * width + width <= width * height
  {
    MulLeq(y + 1, height, width);
  }

  /** Every pixel of a width x height grid has a slot below width * height. */
  lemma IndexInRange(x: nat, y: nat, width: nat, height: nat)
    requires x < width && y < height
    ensures Index(x, y, width) < width * height
  {
    MulLeq(y, height - 1, width);
    assert (height - 1) * width + width == height * width;
  }

  /** A pixel's slot decodes back to the pixel. */
  lemma CoordOfIndex(x: nat, y: nat, width: nat)
    requires x < width
    ensures Column(Index(x, y, width), width) == x
    ensures Row(Index(x, y, width), width) == y
  {
    var i := Index(x, y, width);
    var q, r := i / width, i % width;
    assert (q - y) * width == x - r;
    ZeroMultiple(q - y, width);
  }

  /** Every slot below width * height is the slot of a pixel inside the grid. */
  lemma IndexOfCoord(i: nat, width: nat, height: nat)
    requires i < width * height
    ensures width > 0
    ensures Column(i, width) < width && Row(i, width) < height
    ensures Index(Column(i, width), Row(i, width), width) == i
  {
  }

  /** Distinct pixels of a grid have distinct slots. */
  lemma IndexInjective(x: nat, y: nat, x': nat, y': nat, width: nat)
    requires x < width && x' < width
    requires Index(x, y, width) == Index(x', y', width)
    ensures x == x' && y == y'
  {
    CoordOfIndex(x, y, width);
    CoordOfIndex(x', y', width);
  }

  /** The slots one row of the frame loop writes, left to right. */
  function RowSlots(y: nat, width: nat): (s: seq<nat>)
    ensures |s| == width
  {
    seq(width, x requires 0 <= x < width => Index(x, y, width))
  }

  /** The slots the nested y/x loops write, in the order they write them. */
  function VisitOrder(width: nat, height: nat): (s: seq<nat>)
  {
    if height == 0 then [] else VisitOrder(width, height - 1) + RowSlots(height - 1, width)
  }

  /** 0, 1, ..., n - 1. */
  function Slots(n: nat): (s: seq<nat>)
    ensures |s| == n
  {
    seq(n, i requires 0 <= i < n => i)
  }

  /**
    The row-major loops visit slots 0, 1, ..., width * height - 1 in order:
    every slot of the buffer is written exactly once.
   */
  lemma {:induction false} VisitOrderIsSlots(width: nat, height: nat)
    ensures VisitOrder(width, height) == Slots(width * height)
  {
    if height > 0 {
      VisitOrderIsSlots(width, height - 1);
      var n := width * (height - 1);
      assert n + width == width * height;
      var s := VisitOrder(width, height);
      assert s == Slots(n) + RowSlots(height - 1, width);
      forall i | 0 <= i < width * height
        ensures s[i] == i
      {
        if i >= n {
          assert s[i] == RowSlots(height - 1, width)[i - n];
        }
      }
    }
  }
}
