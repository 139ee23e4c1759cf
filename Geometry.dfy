/** Window geometry of the dense feature extractors: how many sliding-window
    positions fit along one image axis, with and without padding. */
module Geometry {

  /** Number of anchors start, start + step, start + 2*step, ... that lie
      strictly below extent (the length of Python's range(start, extent, step)
      for a positive step): the least n with start + n * step >= extent. */
  function WindowCount(start: int, extent: int, step: int): (n: nat)
    requires step >= 1
    ensures start + n * step >= extent
    ensures n > 0 ==> start + (n - 1) * step < extent
  {
    if start >= extent then 0
    else
      var d := extent - start + step - 1;
      assert d == (d / step) * step + d % step;
      d / step
  }

  /** The anchors themselves, enumerated one step at a time. */
  function Anchors(start: int, extent: int, step: int): (a: seq<int>)
    requires step >= 1
    ensures forall i :: 0 <= i < |a| ==> start <= a[i] < extent
    decreases extent - start
  {
    if start >= extent then [] else [start] + Anchors(start + step, extent, step)
  }

  lemma MulMonotone(i: int, j: int, step: int)
    requires 0 <= i <= j && step >= 1
    ensures i * step <= j * step
  {
  }

  lemma MultipleMod(q: int, step: int)
    requires step >= 1
    ensures (q * step) % step == 0 && (q * step) / step == q
  {
    var x := q * step;
    var r := x % step;
    var d := x / step;
    assert x == d * step + r && 0 <= r < step;
    assert (q - d) * step == r;
    if q - d >= 1 {
      MulMonotone(1, q - d, step);
    } else if q - d <= -1 {
      MulMonotone(1, d - q, step);
    }
  }

  /** WindowCount is the only count with its two ensures clauses. */
  lemma CountUnique(start: int, extent: int, step: int, n: nat)
    requires step >= 1
    requires start + n * step >= extent
    requires n > 0 ==> start + (n - 1) * step < extent
    ensures n == WindowCount(start, extent, step)
  {
    var m := WindowCount(start, extent, step);
    if n < m {
      MulMonotone(n, m - 1, step);
    } else if m < n {
      MulMonotone(m, n - 1, step);
    }
  }

  /** The enumerated anchors are exactly WindowCount evenly spaced positions. */
  lemma {:induction false} AnchorsShape(start: int, extent: int, step: int)
    requires step >= 1
    ensures |Anchors(start, extent, step)| == WindowCount(start, extent, step)
    ensures forall i :: 0 <= i < |Anchors(start, extent, step)| ==>
              Anchors(start, extent, step)[i] == start + i * step
    decreases extent - start
  {
    if start < extent {
      AnchorsShape(start + step, extent, step);
      var m := WindowCount(start + step, extent, step);
      assert (start + step) + m * step == start + (m + 1) * step;
      assert m > 0 ==> (start + step) + (m - 1) * step == start + m * step;
      CountUnique(start, extent, step, m + 1);
      var a := Anchors(start, extent, step);
      forall i | 0 <= i < |a| ensures a[i] == start + i * step {
        if i > 0 {
          assert a[i] == Anchors(start + step, extent, step)[i - 1];
          assert (start + step) + (i - 1) * step == start + i * step;
        }
      }
    }
  }

  /** A position is an anchor iff it lies in [start, extent) at a whole
      number of steps from start. */
  lemma AnchorsMembership(start: int, extent: int, step: int, x: int)
    requires step >= 1
    ensures x in Anchors(start, extent, step) <==>
              start <= x < extent && (x - start) % step == 0
  {
    AnchorsShape(start, extent, step);
    var a := Anchors(start, extent, step);
    if x in a {
      var i :| 0 <= i < |a| && a[i] == x;
      MultipleMod(i, step);
    }
    if start <= x < extent && (x - start) % step == 0 {
      var q := (x - start) / step;
      assert x - start == q * step + (x - start) % step;
      assert q >= 0;
      var n := WindowCount(start, extent, step);
      if n <= q {
        MulMonotone(n, q, step);
      }
      assert a[q] == x;
    }
  }

  /** With padding, anchors start at the first pixel: the count is the
      ceiling of extent / step. */
  function PaddedCount(extent: nat, step: int): (n: nat)
    requires step >= 1
    ensures n == (extent + step - 1) / step
    ensures n * step >= extent && (n > 0 ==> (n - 1) * step < extent)
  {
    WindowCount(0, extent, step)
  }

  /** Without padding, the first anchor is the last pixel of the first window
      (index windowSize - 1); there is no window at all when it does not fit. */
  function UnpaddedCount(windowSize: int, extent: nat, step: int): (n: nat)
    requires windowSize >= 1 && step >= 1
    ensures n == 0 <==> windowSize > extent
  {
    WindowCount(windowSize - 1, extent, step)
  }

  /** Without padding the anchors are exactly the last pixels of the windows
      that lie wholly inside the image and start a whole number of steps
      from its first pixel. */
  lemma UnpaddedWindowsFit(windowSize: int, extent: nat, step: int, last: int)
    requires windowSize >= 1 && step >= 1
    ensures last in Anchors(windowSize - 1, extent, step) <==>
              var first := last - (windowSize - 1);
              0 <= first && first + windowSize <= extent && first % step == 0
  {
    AnchorsMembership(windowSize - 1, extent, step, last);
  }

  /** Dropping padding never adds windows. */
  lemma UnpaddedAtMostPadded(windowSize: int, extent: nat, step: int)
    requires windowSize >= 1 && step >= 1
    ensures UnpaddedCount(windowSize, extent, step) <= PaddedCount(extent, step)
  {
    var u := UnpaddedCount(windowSize, extent, step);
    var p := PaddedCount(extent, step);
    if u > p {
      MulMonotone(p, u - 1, step);
    }
  }

  /** Dropping padding loses at least one window when the window is longer
      than the step. */
  lemma UnpaddedFewer(windowSize: int, extent: nat, step: int)
    requires step >= 1 && windowSize > step && extent >= 1
    ensures UnpaddedCount(windowSize, extent, step) < PaddedCount(extent, step)
  {
    var u := UnpaddedCount(windowSize, extent, step);
    var p := PaddedCount(extent, step);
    if u >= p {
      MulMonotone(p - 1, u - 1, step);
    }
  }

  /** Exactly one unpadded window fits when the extent holds the window but
      not a window one step further on. */
  lemma OneWindow(windowSize: int, extent: nat, step: int)
    requires 1 <= windowSize <= extent < windowSize + step
    ensures UnpaddedCount(windowSize, extent, step) == 1
  {
    CountUnique(windowSize - 1, extent, step, 1);
  }

  /** A window of 2 pixels stepped by 5 over 10 pixels gives the same two
      windows with and without padding: a window longer than one pixel does
      not by itself lose windows. */
  lemma PaddingCanTie()
    ensures UnpaddedCount(2, 10, 5) == PaddedCount(10, 5) == 2
  {
  }

  /** Output grid of a dense extractor: (vertical, horizontal) window counts. */
  datatype Grid = Grid(vertical: nat, horizontal: nat)

  /** The grid of window positions: ceil(extent / step) per axis with padding;
      without it, none on an axis the window does not fit, and never more
      than with padding. */
  function WindowGrid(height: nat, width: nat, windowHeight: int, windowWidth: int,
                      stepVertical: int, stepHorizontal: int, padding: bool): (g: Grid)
    requires windowHeight >= 1 && windowWidth >= 1
    requires stepVertical >= 1 && stepHorizontal >= 1
    ensures padding ==> g.vertical == (height + stepVertical - 1) / stepVertical
    ensures padding ==> g.horizontal == (width + stepHorizontal - 1) / stepHorizontal
    ensures !padding ==> (g.vertical == 0 <==> windowHeight > height)
    ensures !padding ==> (g.horizontal == 0 <==> windowWidth > width)
    ensures g.vertical <= PaddedCount(height, stepVertical) && g.horizontal <= PaddedCount(width, stepHorizontal)
  {
    if padding then
      Grid(PaddedCount(height, stepVertical), PaddedCount(width, stepHorizontal))
    else
      UnpaddedAtMostPadded(windowHeight, height, stepVertical);
      UnpaddedAtMostPadded(windowWidth, width, stepHorizontal);
      Grid(UnpaddedCount(windowHeight, height, stepVertical), UnpaddedCount(windowWidth, width, stepHorizontal))
  }
}
