/**
 * The footer's scanning ray: a band `RayWidth` columns wide that moves
 * `RaySpeed` columns to the right per frame and starts again just off the left
 * edge once it has passed the right one.
 */
module FooterAnimation {

  const RayWidth: int := 150
  const RaySpeed: int := 2

  /** The columns the gradient loop paints once it has run `i` rounds, for a ray at `rayX`. */
  function PaintedUpTo(rayX: int, width: int, i: nat): (r: seq<int>)
    ensures |r| <= i
  {
    if i == 0 then []
    else
      var x := rayX + i - 1;
      PaintedUpTo(rayX, width, i - 1) + (if 0 <= x <= width then [x] else [])
  }

  /** The columns one frame paints. */
  function Painted(rayX: int, width: int): seq<int> {
    PaintedUpTo(rayX, width, RayWidth as nat)
  }

  /** The ray's position after one frame: advance, and wrap once past the right edge. */
  function Advance(rayX: int, width: int): (r: int)
    ensures r == -RayWidth || (r == rayX + RaySpeed && r <= width + RayWidth)
  {
    var moved := rayX + RaySpeed;
    if moved > width + RayWidth then -RayWidth else moved
  }

  /** The ray's position after `k` frames without a resize. */
  function AdvanceBy(rayX: int, width: int, k: nat): int
    decreases k
  {
    if k == 0 then rayX else AdvanceBy(Advance(rayX, width), width, k - 1)
  }

  lemma {:induction false} PaintedUpToMembers(rayX: int, width: int, i: nat, x: int)
    ensures x in PaintedUpTo(rayX, width, i) <==> rayX <= x < rayX + i && 0 <= x <= width
  {
    if i > 0 {
      PaintedUpToMembers(rayX, width, i - 1, x);
    }
  }

  lemma {:induction false} PaintedUpToIncreasing(rayX: int, width: int, i: nat)
    ensures forall p, q :: 0 <= p < q < |PaintedUpTo(rayX, width, i)| ==>
      PaintedUpTo(rayX, width, i)[p] < PaintedUpTo(rayX, width, i)[q]
  {
    if i > 0 {
      PaintedUpToIncreasing(rayX, width, i - 1);
      var prev := PaintedUpTo(rayX, width, i - 1);
      var r := PaintedUpTo(rayX, width, i);
      forall p, q | 0 <= p < q < |r| ensures r[p] < r[q] {
        if q >= |prev| {
          assert r[q] == rayX + i - 1 && r[p] == prev[p] && prev[p] in prev;
          PaintedUpToMembers(rayX, width, i - 1, prev[p]);
        }
      }
    }
  }

  /**
   * A frame paints exactly the columns rayX + i, 0 <= i < RayWidth, that lie on
   * the canvas, left to right, each once, so at most RayWidth of them.
   */
  lemma PaintedColumns(rayX: int, width: int)
    ensures forall x :: x in Painted(rayX, width) <==> rayX <= x < rayX + RayWidth && 0 <= x <= width
    ensures forall p, q :: 0 <= p < q < |Painted(rayX, width)| ==> Painted(rayX, width)[p] < Painted(rayX, width)[q]
    ensures |Painted(rayX, width)| <= RayWidth
  {
    forall x ensures x in Painted(rayX, width) <==> rayX <= x < rayX + RayWidth && 0 <= x <= width {
      PaintedUpToMembers(rayX, width, RayWidth as nat, x);
    }
    PaintedUpToIncreasing(rayX, width, RayWidth as nat);
  }

  /** From any position no further left than the start, a frame leaves the ray within [-RayWidth, width + RayWidth]. */
  lemma AdvanceStaysInRange(rayX: int, width: nat)
    requires -RayWidth <= rayX
    ensures -RayWidth <= Advance(rayX, width) <= width + RayWidth
  {
  }

  /** Starting off the left edge, the ray sits at -RayWidth + k * RaySpeed for as long as that stays within range. */
  lemma {:induction false} Sweep(width: nat, k: nat)
    requires -RayWidth + k * RaySpeed <= width + RayWidth
    ensures AdvanceBy(-RayWidth, width, k) == -RayWidth + k * RaySpeed
  {
    if k > 0 {
      SweepFrom(-RayWidth, width, k);
    }
  }

  lemma {:induction false} SweepFrom(start: int, width: nat, k: nat)
    requires start + k * RaySpeed <= width + RayWidth
    ensures AdvanceBy(start, width, k) == start + k * RaySpeed
    decreases k
  {
    if k > 0 {
      assert Advance(start, width) == start + RaySpeed;
      SweepFrom(start + RaySpeed, width, k - 1);
    }
  }

  /** Once the ray has passed the right edge by more than its width, the next frame puts it back at the start. */
  lemma WrapsAfterRightEdge(rayX: int, width: int)
    requires rayX + RaySpeed > width + RayWidth
    ensures Advance(rayX, width) == -RayWidth
  {
  }

  /** The state of the footer sketch: the canvas width and the ray's position. */
  class FooterSketch {
    var width: nat
    var rayX: int

    /** The ray never sits further left than its start. */
    ghost predicate Valid()
      reads this
    {
      -RayWidth <= rayX
    }

    /** footerSketch and its setup: a canvas the window's width, the ray just off the left edge. */
    constructor(windowWidth: nat)
      ensures Valid() && width == windowWidth && rayX == -RayWidth
    {
      width := windowWidth;
      rayX := -RayWidth;
    }

    /** draw: paint the ray's columns, then advance it, wrapping past the right edge. */
    method Draw() returns (columns: seq<int>)
      requires Valid()
      modifies this
      ensures Valid() && rayX <= width + RayWidth
      ensures columns == Painted(old(rayX), width)
      ensures rayX == Advance(old(rayX), width) && width == old(width)
    {
      AdvanceStaysInRange(rayX, width);
      columns := [];
      var i := 0;
      while i < RayWidth
        invariant 0 <= i <= RayWidth
        invariant columns == PaintedUpTo(rayX, width, i)
      {
        var x := rayX + i;
        if x >= 0 && x <= width {
          columns := columns + [x];
        }
        i := i + 1;
      }
      rayX := rayX + RaySpeed;
      if rayX > width + RayWidth {
        rayX := -RayWidth;
      }
    }

    /** windowResized: the canvas takes the window's new width; the ray stays where it is. */
    method WindowResized(windowWidth: nat)
      requires Valid()
      modifies this
      ensures Valid() && width == windowWidth && rayX == old(rayX)
    {
      width := windowWidth;
    }
  }

  /**
   * A resize can leave the ray past the upper bound a draw establishes: after
   * 325 frames on a 400-column canvas the ray is at 500, within range; a
   * shrink to 100 columns leaves it out of range until the next draw wraps it.
   */
  lemma ShrinkLeavesRayOutOfRange()
    ensures AdvanceBy(-RayWidth, 400, 325) == 500 && 500 <= 400 + RayWidth
    ensures 500 > 100 + RayWidth && Advance(500, 100) == -RayWidth
  {
    Sweep(400, 325);
  }
}
