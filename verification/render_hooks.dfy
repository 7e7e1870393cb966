/** The render hooks of a flexbox-rendered view (`preRender` and `postRender`),
    with the runtime class probes replaced by a closed kind. */
module RenderHooks {
  import opened Geometry
  import opened ContentExtent

  /** What a view is, as far as the hooks can tell. Table and collection views
      are specialised scroll views; a volatile component view rebuilds its
      subviews on every render. */
  datatype ViewKind = Plain | Volatile | Scroll | Table | Collection

  predicate IsVolatileComponentView(k: ViewKind) { k.Volatile? }

  /** Table and collection views are scroll views too: they answer yes to the
      scroll-view probe. */
  predicate IsScrollView(k: ViewKind) { k.Scroll? || k.Table? || k.Collection? }

  predicate IsTableView(k: ViewKind) { k.Table? }

  predicate IsCollectionView(k: ViewKind) { k.Collection? }

  /** The work a hook hands off to: the volatile view's cleanup of its old
      subviews, or the scroll view's content-size recomputation. */
  datatype Hook = VolatileCleanup | ContentSizeRecompute

  /** The hooks run before the configure block. */
  function PreRender(k: ViewKind): (hooks: seq<Hook>)
    ensures VolatileCleanup in hooks <==> k == Volatile
    ensures ContentSizeRecompute !in hooks
    ensures k != Volatile ==> hooks == []
    ensures |hooks| <= 1
  {
    if IsVolatileComponentView(k) then [VolatileCleanup] else []
  }

  /** The hooks run after layout. Table and collection views return early
      (the failsafe), so only a plain scroll view recomputes its content size. */
  function PostRender(k: ViewKind): (hooks: seq<Hook>)
    ensures ContentSizeRecompute in hooks <==> k == Scroll
    ensures VolatileCleanup !in hooks
    ensures k != Scroll ==> hooks == []
    ensures |hooks| <= 1
  {
    if IsScrollView(k) then
      if IsTableView(k) then []
      else if IsCollectionView(k) then []
      else [ContentSizeRecompute]
    else []
  }

  /** The state of a view the hooks can observe or change. */
  datatype View = View(kind: ViewKind, subviews: seq<Frame>, contentSize: Size, scrollEnabled: bool)

  /** `__postRender` of a scroll view: the content size becomes the extent of
      the subviews and scrolling is switched on. */
  function RecomputeScrollView(v: View): (r: View)
    ensures r.kind == v.kind && r.subviews == v.subviews
    ensures r.scrollEnabled
    ensures IsTightBound(v.subviews, Horizontal, r.contentSize.width)
    ensures IsTightBound(v.subviews, Vertical, r.contentSize.height)
  {
    var r := v.(contentSize := Extent(v.subviews), scrollEnabled := true);
    MaxEdgeIsTightBound(v.subviews, Horizontal, r.contentSize.width);
    MaxEdgeIsTightBound(v.subviews, Vertical, r.contentSize.height);
    r
  }

  /** `postRender` applied to a view's state. */
  function PostRenderView(v: View): (r: View)
    ensures v.kind == Scroll ==> r == RecomputeScrollView(v)
    ensures v.kind != Scroll ==> r == v
  {
    if ContentSizeRecompute in PostRender(v.kind) then RecomputeScrollView(v) else v
  }

  /** Table and collection views are scroll views, yet `postRender` leaves
      them entirely unchanged. */
  lemma PostRenderSkipsListContainers(v: View)
    requires IsTableView(v.kind) || IsCollectionView(v.kind)
    ensures IsScrollView(v.kind)
    ensures PostRenderView(v) == v
  {
  }

  /** Running `postRender` a second time with the same subviews changes
      nothing: the recomputation is idempotent. */
  lemma PostRenderIsIdempotent(v: View)
    ensures PostRenderView(PostRenderView(v)) == PostRenderView(v)
  {
  }

  /** Two scroll views whose subviews have the same frames in any order end
      `postRender` with the same content size. */
  lemma PostRenderIgnoresSubviewOrder(v: View, w: View)
    requires v.kind == Scroll && w.kind == Scroll
    requires multiset(v.subviews) == multiset(w.subviews)
    ensures PostRenderView(v).contentSize == PostRenderView(w).contentSize
    ensures PostRenderView(v).scrollEnabled && PostRenderView(w).scrollEnabled
  {
    forall f ensures f in v.subviews <==> f in w.subviews {
      assert f in v.subviews <==> f in multiset(v.subviews);
      assert f in w.subviews <==> f in multiset(w.subviews);
    }
    ExtentIgnoresOrder(v.subviews, w.subviews);
  }

  /** A whole render pass runs at most one hook, and never both: a volatile
      component view is not a scroll view. */
  lemma RenderPassRunsAtMostOneHook(k: ViewKind)
    ensures |PreRender(k) + PostRender(k)| <= 1
    ensures |PreRender(k) + PostRender(k)| == 1 <==> k == Volatile || k == Scroll
  {
  }
}
