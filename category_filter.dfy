/** The category filter of the points list and of the map markers. */
module CategoryFilter {
  import opened Records
  import opened Filtering

  /** Whether a record passes the filter `currentFilter`: every record when
      the filter is "all", otherwise exactly the records of that category. */
  predicate Shown(filter: string, p: Point)
  {
    filter == All || p.category == filter
  }

  /** The test `p.category === currentFilter`. */
  function InCategory(filter: string): Point -> bool
  {
    (p: Point) => p.category == filter
  }

  /** `Shown` as a test to filter with. */
  function ShownBy(filter: string): Point -> bool
  {
    (p: Point) => Shown(filter, p)
  }

  /** `filteredPoints`: the collection itself under "all", otherwise the
      records of the chosen category. */
  function Filtered(ps: seq<Point>, filter: string): (r: seq<Point>)
    ensures |r| <= |ps|
    ensures forall p :: p in r <==> p in ps && Shown(filter, p)
  {
    if filter == All then ps else Keep(ps, InCategory(filter))
  }

  /** Both branches of the projection are one order-preserving selection by `Shown`. */
  lemma FilteredIsSelection(ps: seq<Point>, filter: string)
    ensures Filtered(ps, filter) == Keep(ps, ShownBy(filter))
  {
  }

  /** A stored record passes the visibility test exactly when the sidebar
      lists it, so marker visibility and the list use one criterion. */
  lemma ShownIffListed(ps: seq<Point>, filter: string, p: Point)
    requires p in ps
    ensures Shown(filter, p) <==> p in Filtered(ps, filter)
  {
  }

  /** Under "all" the list is the stored collection, all of it and in order. */
  lemma FilterAllIsIdentity(ps: seq<Point>)
    ensures Filtered(ps, All) == ps
  {
  }

  /** The projection keeps the stored order: filtering a concatenation is
      concatenating the filtered parts. */
  lemma FilteredInOrder(ps: seq<Point>, qs: seq<Point>, filter: string)
    ensures Filtered(ps + qs, filter) == Filtered(ps, filter) + Filtered(qs, filter)
  {
    FilteredIsSelection(ps + qs, filter);
    FilteredIsSelection(ps, filter);
    FilteredIsSelection(qs, filter);
    KeepConcat(ps, qs, ShownBy(filter));
  }

  /** Choosing the same category twice shows the same list. */
  lemma FilteredIdempotent(ps: seq<Point>, filter: string)
    ensures Filtered(Filtered(ps, filter), filter) == Filtered(ps, filter)
  {
    FilteredIsSelection(ps, filter);
    FilteredIsSelection(Filtered(ps, filter), filter);
    KeepTwice(ps, ShownBy(filter));
  }

  /** The shown count is the number of stored records that pass the filter,
      so it is zero exactly when none does. */
  lemma FilteredCount(ps: seq<Point>, filter: string)
    ensures |Filtered(ps, filter)| == 0 <==> forall p :: p in ps ==> !Shown(filter, p)
  {
    if forall p :: p in ps ==> !Shown(filter, p) {
      FilteredIsSelection(ps, filter);
      KeepNone(ps, ShownBy(filter));
    } else {
      var p :| p in ps && Shown(filter, p);
      assert p in Filtered(ps, filter);
    }
  }
}
