/** Post-layout recomputation of a scroll view's content size from the final
    frames of its subviews (`UIScrollView.__postRender`). */
module ContentExtent {
  import opened Geometry

  /** One step of the fold: the running maximum is replaced only when the
      edge is strictly greater than it. */
  function Step(acc: real, edge: real): real
  {
    if edge > acc then edge else acc
  }

  /** The running maximum of the subviews' far edges along `axis`, folded
      left to right from 0, exactly as the loop over `subviews` does. */
  function MaxEdge(subviews: seq<Frame>, axis: Axis): (r: real)
    ensures 0.0 <= r
    ensures forall f :: f in subviews ==> FarEdge(f, axis) <= r
    ensures r == 0.0 || exists f :: f in subviews && r == FarEdge(f, axis)
    decreases |subviews|
  {
    if |subviews| == 0 then 0.0
    else
      var init := subviews[..|subviews| - 1];
      var last := subviews[|subviews| - 1];
      assert subviews == init + [last];
      Step(MaxEdge(init, axis), FarEdge(last, axis))
  }

  /** The content size the post-render hook assigns. */
  function Extent(subviews: seq<Frame>): Size
  {
    Size(MaxEdge(subviews, Horizontal), MaxEdge(subviews, Vertical))
  }

  /** `r` is the least non-negative bound of the far edges: it bounds every
      edge, and it is either 0 or attained by some subview. */
  ghost predicate IsTightBound(subviews: seq<Frame>, axis: Axis, r: real)
  {
    && 0.0 <= r
    && (forall f :: f in subviews ==> FarEdge(f, axis) <= r)
    && (r == 0.0 || exists f :: f in subviews && r == FarEdge(f, axis))
  }

  /** The fold computes exactly the tight bound: a value is the recomputed
      extent along an axis if and only if it is the maximum of 0 and every
      subview's far edge. */
  lemma MaxEdgeIsTightBound(subviews: seq<Frame>, axis: Axis, r: real)
    ensures r == MaxEdge(subviews, axis) <==> IsTightBound(subviews, axis, r)
  {
    var m := MaxEdge(subviews, axis);
    if IsTightBound(subviews, axis, r) {
      TightBoundIsUnique(subviews, axis, r, m);
    }
  }

  /** At most one value is a tight bound. */
  lemma TightBoundIsUnique(subviews: seq<Frame>, axis: Axis, r1: real, r2: real)
    requires IsTightBound(subviews, axis, r1)
    requires IsTightBound(subviews, axis, r2)
    ensures r1 == r2
  {
    if r1 != 0.0 {
      var f1 :| f1 in subviews && r1 == FarEdge(f1, axis);
      assert r1 <= r2;
    }
    if r2 != 0.0 {
      var f2 :| f2 in subviews && r2 == FarEdge(f2, axis);
      assert r2 <= r1;
    }
  }

  /** The extent depends only on which frames occur among the subviews, not
      on their order or multiplicity: two subview lists holding the same
      frames, such as a permutation, give the same content size. */
  lemma ExtentIgnoresOrder(a: seq<Frame>, b: seq<Frame>)
    requires forall f :: f in a <==> f in b
    ensures Extent(a) == Extent(b)
  {
    forall axis: Axis ensures MaxEdge(a, axis) == MaxEdge(b, axis) {
      MaxEdgeIsTightBound(a, axis, MaxEdge(a, axis));
      MaxEdgeIsTightBound(b, axis, MaxEdge(a, axis));
    }
  }

  /** With no subviews the content size is (0, 0). */
  lemma ExtentOfNoSubviews()
    ensures Extent([]) == Size(0.0, 0.0)
  {
  }

  /** Two subviews at (0, 0, 50, 50) and (40, 40, 30, 30) give a content
      size of (70, 70). */
  lemma ExtentOfTwoOverlappingSubviews()
    ensures Extent([Frame(0.0, 0.0, 50.0, 50.0), Frame(40.0, 40.0, 30.0, 30.0)]) == Size(70.0, 70.0)
  {
    var s := [Frame(0.0, 0.0, 50.0, 50.0), Frame(40.0, 40.0, 30.0, 30.0)];
    assert s[..1] == [s[0]];
    assert s[..1][..0] == [];
  }

  /** The loop of `__postRender`: walks the subviews once, keeping the running
      maximum right and bottom edges, and returns them as the content size. */
  method RecomputeContentSize(subviews: seq<Frame>) returns (contentSize: Size)
    ensures contentSize == Extent(subviews)
    ensures IsTightBound(subviews, Horizontal, contentSize.width)
    ensures IsTightBound(subviews, Vertical, contentSize.height)
  {
    var x := 0.0;
    var y := 0.0;
    for i := 0 to |subviews|
      invariant x == MaxEdge(subviews[..i], Horizontal)
      invariant y == MaxEdge(subviews[..i], Vertical)
    {
      assert subviews[..i + 1][..i] == subviews[..i];
      x := if MaxX(subviews[i]) > x then MaxX(subviews[i]) else x;
      y := if MaxY(subviews[i]) > y then MaxY(subviews[i]) else y;
    }
    assert subviews[..|subviews|] == subviews;
    contentSize := Size(x, y);
    MaxEdgeIsTightBound(subviews, Horizontal, x);
    MaxEdgeIsTightBound(subviews, Vertical, y);
  }
}
