# FlexboxLayout render hooks, content extent and cell prototypes

A Dafny model of the UIKit extensions of FlexboxLayout
(`FlexboxLayout/Extensions.swift`), the glue between a rendered component
view and the UIKit containers that host it:

- **Render hooks.** `preRender` runs the volatile component view's cleanup of
  its old subviews. `postRender` runs a scroll view's content-size
  recomputation, except for table and collection views, which are skipped as a
  failsafe. The runtime `as?` probes become a closed `ViewKind`
  (`Plain | Volatile | Scroll | Table | Collection`). Table and collection
  views still count as scroll views, as they do in UIKit. (module `RenderHooks`)
- **Content extent.** `UIScrollView.__postRender` folds over the subviews'
  final frames. It keeps the running maximum of their right and bottom edges,
  starting from 0. The result becomes `contentSize`, and scrolling is switched
  on. It is modelled as a recursive specification (`ContentExtent.MaxEdge`)
  and as the loop itself (`ContentExtent.RecomputeContentSize`). (module `ContentExtent`)
- **Cell prototypes.** A table view keeps a map from reuse identifier to an
  off-screen component view. The map is attached lazily and starts empty.
  `registerPrototype` overwrites an entry. `heightForCellWithState` returns 0
  for an unknown identifier. For a known one, it gives the prototype the new
  state and renders it at the table's width with an undefined height. It then
  returns `bounds.height + frame.origin.y + margin.top + margin.bottom`.
  (module `PrototypeRegistry`)

Frames and sizes use exact `real` coordinates (module `Geometry`).
`CGRectGetMaxX`/`CGRectGetMaxY` standardise a rectangle before reading its
edge, so a frame with a negative width or height has its far edge at its
origin. `Geometry.MaxX` and `Geometry.MaxY` model that.

The flexbox solver behind `ComponentView.render` is not part of this model. It
is a function parameter `render: (Description<S>, Constraint) -> Layout`. It
maps a component's name, style and state, plus the constraining size, to the
bounds and frame the view ends with. The component state type is a type
parameter `S`.

`heightForCellWithState` returns `bounds.height + frame.origin.y +
margin.top + margin.bottom` (line 107). The height is the bounds height plus
both margins only when `frame.origin.y` is 0.
`PrototypeRegistry.HeightIncludesMargins` states both facts, and
`PrototypeRegistry.CellExample` shows a 30-point and a 35-point measurement of
the same cell.

## Model

| member | source | states |
|---|---|---|
| `ContentExtent.MaxEdge` | FlexboxLayout/Extensions.swift:48-54 | the running maximum of the subviews' far edges is at least 0, at least every subview's right (or bottom) edge, and is either 0 or the edge of some subview |
| `ContentExtent.MaxEdgeIsTightBound` | FlexboxLayout/Extensions.swift:48-56 | a value is the recomputed extent along an axis if and only if it is the maximum of 0 and every subview's far edge (both directions) |
| `ContentExtent.TightBoundIsUnique` | FlexboxLayout/Extensions.swift:48-56 | the maximum of 0 and the far edges is unique, so the extent is determined by that characterisation |
| `ContentExtent.ExtentIgnoresOrder` | FlexboxLayout/Extensions.swift:51-56 | two subview lists holding the same frames, in any order and with any repetition, give the same content size |
| `ContentExtent.ExtentOfNoSubviews` | FlexboxLayout/Extensions.swift:48-49 | a scroll view without subviews gets content size (0, 0) |
| `ContentExtent.ExtentOfTwoOverlappingSubviews` | FlexboxLayout/Extensions.swift:51-56 | subviews at (0,0,50,50) and (40,40,30,30) give content size (70, 70) |
| `ContentExtent.RecomputeContentSize` | FlexboxLayout/Extensions.swift:46-56 | the loop over the subviews returns the recursive extent, and each coordinate is the tight bound of the right or bottom edges |
| `Geometry.MaxX` | FlexboxLayout/Extensions.swift:52 | a frame's right edge is at least both its origin x and x + width, and equals one of them |
| `Geometry.MaxY` | FlexboxLayout/Extensions.swift:53 | a frame's bottom edge is at least both its origin y and y + height, and equals one of them |
| `RenderHooks.PreRender` | FlexboxLayout/Extensions.swift:18-25 | the volatile cleanup runs if and only if the view is a volatile component view; any other view runs no hook |
| `RenderHooks.PostRender` | FlexboxLayout/Extensions.swift:29-40 | the content-size recomputation runs if and only if the view is a scroll view that is neither a table view nor a collection view; otherwise no hook runs |
| `RenderHooks.RecomputeScrollView` | FlexboxLayout/Extensions.swift:46-58 | after recomputation scrolling is enabled, the subviews are unchanged and the content size is the tight bound of the right and bottom edges |
| `RenderHooks.PostRenderView` | FlexboxLayout/Extensions.swift:29-40 | a scroll view's state becomes the recomputed one; every other view, tables and collections included, is left unchanged |
| `RenderHooks.PostRenderSkipsListContainers` | FlexboxLayout/Extensions.swift:32-36 | table and collection views are scroll views, yet post-render leaves them unchanged |
| `RenderHooks.PostRenderIsIdempotent` | FlexboxLayout/Extensions.swift:46-58 | running post-render a second time on unchanged subviews changes nothing |
| `RenderHooks.PostRenderIgnoresSubviewOrder` | FlexboxLayout/Extensions.swift:51-57 | two scroll views whose subviews are permutations of each other end post-render with the same content size and scrolling enabled |
| `RenderHooks.RenderPassRunsAtMostOneHook` | FlexboxLayout/Extensions.swift:18-40 | one render pass runs at most one hook, and exactly one for volatile component views and plain scroll views |
| `PrototypeRegistry.NewTableView` | FlexboxLayout/Extensions.swift:76-81 | a table view with no store attached reads an empty prototype map |
| `PrototypeRegistry.Prototypes` | FlexboxLayout/Extensions.swift:74-84 | the getter returns the attached map when one exists, and an empty map when none has been attached |
| `PrototypeRegistry.LoadStore` | FlexboxLayout/Extensions.swift:74-84 | the getter attaches a missing store empty and changes nothing observable; an attached store is left as is |
| `PrototypeRegistry.RegisterPrototype` | FlexboxLayout/Extensions.swift:92-94 | afterwards the identifier maps to the given component, the key set gains only that identifier, and every other entry is unchanged |
| `PrototypeRegistry.RegisterLastWriteWins` | FlexboxLayout/Extensions.swift:92-94 | registering twice under one identifier is the same as registering only the second component |
| `PrototypeRegistry.RegisterDistinctCommutes` | FlexboxLayout/Extensions.swift:92-94 | registrations under different identifiers commute |
| `PrototypeRegistry.HeightForCell` | FlexboxLayout/Extensions.swift:97-111 | an unknown identifier gives 0 and leaves the prototype map unchanged; a known one gets the new state, is rendered at the table's width with undefined height, keeps that layout, and its measured height is returned; other entries and the table's bounds never change |
| `PrototypeRegistry.MeasuredHeight` | FlexboxLayout/Extensions.swift:106-108 | a rendered prototype's height exceeds its bounds height by its frame's origin y plus its top and bottom margins, so it is bounds height plus both margins when origin y is 0 |
| `PrototypeRegistry.MeasureAfterRegister` | FlexboxLayout/Extensions.swift:92-108 | measuring right after registering renders the registered component with the requested state |
| `PrototypeRegistry.HeightIncludesMargins` | FlexboxLayout/Extensions.swift:106-110 | the height exceeds the rendered bounds height by origin.y + margin.top + margin.bottom, and is bounds height plus both margins when origin.y is 0 |
| `PrototypeRegistry.MeasureIsRepeatable` | FlexboxLayout/Extensions.swift:97-111 | measuring again with the same state returns the same height and leaves the table view as it was |
| `PrototypeRegistry.MeasureOrderIrrelevant` | FlexboxLayout/Extensions.swift:97-111 | measurements for different identifiers give the same heights and final table view in either order |
| `PrototypeRegistry.CellExample` | FlexboxLayout/Extensions.swift:99-110 | a 20-point layout with 5-point margins measures 30 at origin 0 and 35 at origin 5; an unregistered identifier measures 0 |

## Left out

- `refreshComponentAtIndexPath` (lines 67-71) only forwards to UIKit's row reload, so it has no logic of its own to model.
- The Objective-C associated-object calls and their global handles (lines 61-62, 76-87) are not modelled. They become the explicit `store` field of `TableView`.
- Render is assumed to leave the prototype's style, and so its margins, unchanged. The height reads the margins as they were before the render, so a configure step that sets the root's margins from the new state is not represented.
- The volatile component view's own cleanup and `ComponentView.render` are not in this file. The model records only that the cleanup is invoked, and it takes render as a parameter.
- One `ComponentView` instance registered under two identifiers shares its state across both entries in the source. The value model treats each registration as its own instance.
- `CGFloat` rounding, NaN and infinite rectangles (`CGRectNull`, `CGRectInfinite`) are not modelled. Coordinates are exact reals. The `Undefined` sentinel is a `Dimension` tag, not a number.
- The view kinds are a closed set. The source probes classes at run time, so a class that is both volatile and a scroll view would get both hooks. The model has no such kind.
- `Demo/WithComponent.swift` is view-controller glue: lifecycle, delegate callback and centring. It is not modelled.
