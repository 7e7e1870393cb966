/** The table view's store of sizing prototypes (`registerPrototype`) and the
    measurement of a cell's height from a prototype (`heightForCellWithState`). */
module PrototypeRegistry {
  import opened Wrappers
  import opened Geometry

  /** The margins of a component's style that measurement reads. */
  datatype Margin = Margin(top: real, bottom: real)

  datatype Style = Style(margin: Margin)

  /** One side of a constraining size: a number of points, or the undefined
      sentinel meaning "size to content". */
  datatype Dimension = Points(value: real) | Undefined

  datatype Constraint = Constraint(width: Dimension, height: Dimension)

  /** What rendering leaves on a component view: its bounds size and its frame. */
  datatype Layout = Layout(bounds: Size, frame: Frame)

  /** What a render depends on: which component it is, its style and its
      current state `S`. */
  datatype Description<S> = Description(component: string, style: Style, state: S)

  /** An off-screen component view used only for measurement. */
  datatype ComponentView<S> = ComponentView(description: Description<S>, layout: Layout)

  /** A table view: its bounds and the associated prototype store, which is
      `None` until the store is first read or written. */
  datatype TableView<S> = TableView(bounds: Size, store: Option<map<string, ComponentView<S>>>)

  /** A table view that has never had a prototype store attached. */
  function NewTableView<S>(bounds: Size): (t: TableView<S>)
    ensures t.bounds == bounds
    ensures |Prototypes(t)| == 0
  {
    TableView(bounds, None)
  }

  /** The value the `prototypes` getter returns: the stored map, or a fresh
      empty one when none has been attached yet. */
  function Prototypes<S>(t: TableView<S>): (store: map<string, ComponentView<S>>)
    ensures t.store.None? ==> |store| == 0
    ensures t.store.Some? ==> store == t.store.value
  {
    t.store.GetOr(map[])
  }

  /** The getter's side effect: a missing store is created empty and attached.
      Nothing a reader of `prototypes` can observe changes. */
  function LoadStore<S>(t: TableView<S>): (r: TableView<S>)
    ensures r.bounds == t.bounds
    ensures r.store.Some?
    ensures Prototypes(r) == Prototypes(t)
    ensures t.store.Some? ==> r == t
  {
    t.(store := Some(Prototypes(t)))
  }

  /** Stores `component` under `reuseIdentifier`, replacing any earlier
      registration without complaint. */
  function RegisterPrototype<S>(t: TableView<S>, reuseIdentifier: string, component: ComponentView<S>): (r: TableView<S>)
    ensures r.bounds == t.bounds
    ensures reuseIdentifier in Prototypes(r) && Prototypes(r)[reuseIdentifier] == component
    ensures Prototypes(r).Keys == Prototypes(t).Keys + {reuseIdentifier}
    ensures forall id :: id in Prototypes(t) && id != reuseIdentifier ==>
              Prototypes(r)[id] == Prototypes(t)[id]
  {
    var store := Prototypes(t);
    t.(store := Some(store[reuseIdentifier := component]))
  }

  /** The constraint a prototype is rendered under: the table's width, and no
      limit on height. */
  function CellConstraint<S>(t: TableView<S>): Constraint
  {
    Constraint(Points(t.bounds.width), Undefined)
  }

  /** The height reported for a rendered prototype: its bounds height, plus
      its frame's vertical origin, plus its top and bottom margins. */
  function MeasuredHeight<S>(p: ComponentView<S>): (r: real)
    ensures r - p.layout.bounds.height
              == p.layout.frame.y + p.description.style.margin.top + p.description.style.margin.bottom
    ensures p.layout.frame.y == 0.0 ==>
              r == p.layout.bounds.height + p.description.style.margin.top + p.description.style.margin.bottom
  {
    p.layout.bounds.height + p.layout.frame.y
      + p.description.style.margin.top + p.description.style.margin.bottom
  }

  /** The reported height together with the table view after the call. */
  datatype Measurement<S> = Measurement(height: real, table: TableView<S>)

  /** `heightForCellWithState`. An unknown identifier gives 0. A known one has
      its prototype take the new state and be rendered by `render` (the
      flexbox solver, a parameter here) at the table's width and undefined
      height; the prototype keeps that layout and its measured height is
      returned. */
  function HeightForCell<S>(t: TableView<S>, reuseIdentifier: string, state: S,
                            render: (Description<S>, Constraint) -> Layout): (m: Measurement<S>)
    ensures m.table.bounds == t.bounds
    ensures Prototypes(m.table).Keys == Prototypes(t).Keys
    ensures forall id :: id in Prototypes(t) && id != reuseIdentifier ==>
              Prototypes(m.table)[id] == Prototypes(t)[id]
    ensures reuseIdentifier !in Prototypes(t) ==> m.height == 0.0 && m.table == LoadStore(t)
    ensures reuseIdentifier in Prototypes(t) ==>
              var p := Prototypes(m.table)[reuseIdentifier];
              && p.description == Prototypes(t)[reuseIdentifier].description.(state := state)
              && p.layout == render(p.description, Constraint(Points(t.bounds.width), Undefined))
              && m.height == MeasuredHeight(p)
  {
    var t := LoadStore(t);
    var store := Prototypes(t);
    if reuseIdentifier !in store then
      Measurement(0.0, t)
    else
      var prototype := store[reuseIdentifier];
      var description := prototype.description.(state := state);
      var rendered := ComponentView(description, render(description, CellConstraint(t)));
      Measurement(MeasuredHeight(rendered), t.(store := Some(store[reuseIdentifier := rendered])))
  }

  /** Registering twice under one identifier keeps only the second prototype. */
  lemma RegisterLastWriteWins<S>(t: TableView<S>, reuseIdentifier: string, first: ComponentView<S>, second: ComponentView<S>)
    ensures RegisterPrototype(RegisterPrototype(t, reuseIdentifier, first), reuseIdentifier, second)
         == RegisterPrototype(t, reuseIdentifier, second)
  {
    var store := Prototypes(t);
    assert Prototypes(RegisterPrototype(t, reuseIdentifier, first)) == store[reuseIdentifier := first];
    assert store[reuseIdentifier := first][reuseIdentifier := second] == store[reuseIdentifier := second];
  }

  /** Registrations under different identifiers do not interfere, so their
      order does not matter. */
  lemma RegisterDistinctCommutes<S>(t: TableView<S>, id1: string, c1: ComponentView<S>, id2: string, c2: ComponentView<S>)
    requires id1 != id2
    ensures RegisterPrototype(RegisterPrototype(t, id1, c1), id2, c2)
         == RegisterPrototype(RegisterPrototype(t, id2, c2), id1, c1)
  {
    var store := Prototypes(t);
    assert Prototypes(RegisterPrototype(t, id1, c1)) == store[id1 := c1];
    assert Prototypes(RegisterPrototype(t, id2, c2)) == store[id2 := c2];
    assert store[id1 := c1][id2 := c2] == store[id2 := c2][id1 := c1];
  }

  /** Measuring right after registering renders the registered component with
      the requested state. */
  lemma MeasureAfterRegister<S>(t: TableView<S>, reuseIdentifier: string, component: ComponentView<S>,
                                state: S, render: (Description<S>, Constraint) -> Layout)
    ensures var d := component.description.(state := state);
            HeightForCell(RegisterPrototype(t, reuseIdentifier, component), reuseIdentifier, state, render).height
              == MeasuredHeight(ComponentView(d, render(d, Constraint(Points(t.bounds.width), Undefined))))
  {
  }

  /** The reported height exceeds the rendered bounds height by exactly the
      frame's vertical origin plus the top and bottom margins; when the origin
      is 0 the height is the content height plus both margins. */
  lemma HeightIncludesMargins<S>(t: TableView<S>, reuseIdentifier: string, state: S,
                                 render: (Description<S>, Constraint) -> Layout)
    requires reuseIdentifier in Prototypes(t)
    ensures var m := HeightForCell(t, reuseIdentifier, state, render);
            var p := Prototypes(m.table)[reuseIdentifier];
            && m.height - p.layout.bounds.height
                 == p.layout.frame.y + p.description.style.margin.top + p.description.style.margin.bottom
            && (p.layout.frame.y == 0.0 ==>
                 m.height == p.layout.bounds.height + p.description.style.margin.top + p.description.style.margin.bottom)
  {
  }

  /** Measuring again with the same state reports the same height and leaves
      the table view as the first measurement left it. */
  lemma MeasureIsRepeatable<S>(t: TableView<S>, reuseIdentifier: string, state: S,
                               render: (Description<S>, Constraint) -> Layout)
    ensures var m1 := HeightForCell(t, reuseIdentifier, state, render);
            var m2 := HeightForCell(m1.table, reuseIdentifier, state, render);
            m2 == m1
  {
    var m1 := HeightForCell(t, reuseIdentifier, state, render);
    var store := Prototypes(LoadStore(t));
    if reuseIdentifier in store {
      var p := Prototypes(m1.table)[reuseIdentifier];
      assert p.description.state == state;
      assert Prototypes(m1.table)[reuseIdentifier := p] == Prototypes(m1.table);
    }
  }

  /** Measurements for different identifiers may be made in either order:
      each reports the same height, and the table view ends the same. */
  lemma MeasureOrderIrrelevant<S>(t: TableView<S>, id1: string, s1: S, id2: string, s2: S,
                                  render: (Description<S>, Constraint) -> Layout)
    requires id1 != id2
    ensures var a1 := HeightForCell(t, id1, s1, render);
            var a2 := HeightForCell(a1.table, id2, s2, render);
            var b2 := HeightForCell(t, id2, s2, render);
            var b1 := HeightForCell(b2.table, id1, s1, render);
            a1.height == b1.height && a2.height == b2.height && a2.table == b1.table
  {
    var a1 := HeightForCell(t, id1, s1, render);
    var b2 := HeightForCell(t, id2, s2, render);
    var store := Prototypes(t);
    if id1 in store && id2 in store {
      var p1 := Prototypes(a1.table)[id1];
      var p2 := Prototypes(b2.table)[id2];
      assert Prototypes(a1.table) == store[id1 := p1];
      assert Prototypes(b2.table) == store[id2 := p2];
      assert store[id1 := p1][id2 := p2] == store[id2 := p2][id1 := p1];
    }
  }

  /** A component with a 20-point-high layout and top and bottom margins of 5,
      registered as "cell" on a 200-point-wide table, measures 30 when its
      frame origin is at 0, and 35 when the frame sits 5 points down. */
  lemma CellExample(state: int)
    ensures var table := NewTableView<int>(Size(200.0, 400.0));
            var cell := ComponentView(Description("PostComponentView", Style(Margin(5.0, 5.0)), 0),
                                      Layout(Size(0.0, 0.0), Frame(0.0, 0.0, 0.0, 0.0)));
            var atOrigin := (d: Description<int>, c: Constraint) =>
              Layout(Size(100.0, 20.0), Frame(0.0, 0.0, 100.0, 20.0));
            var shifted := (d: Description<int>, c: Constraint) =>
              Layout(Size(100.0, 20.0), Frame(0.0, 5.0, 100.0, 20.0));
            && HeightForCell(RegisterPrototype(table, "cell", cell), "cell", state, atOrigin).height == 30.0
            && HeightForCell(RegisterPrototype(table, "cell", cell), "cell", state, shifted).height == 35.0
            && HeightForCell(table, "cell", state, atOrigin).height == 0.0
  {
  }
}
