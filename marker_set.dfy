/** The `markers` array both clients keep beside `points`: how it is rebuilt,
    how the filter shows and hides its markers, and how a marker is found by
    the id of the record it shows. */
module MarkerSet {
  import opened Records
  import opened Filtering
  import opened CategoryFilter

  /** `markers[i].pointData == points[i]` at every position, and the two
      arrays have the same length. */
  predicate Aligned(ps: seq<Point>, ms: seq<Marker>)
  {
    |ms| == |ps| && forall i :: 0 <= i < |ps| ==> ms[i].pointData == ps[i]
  }

  /** `points.forEach(point => addMarkerToMap(point))` on an emptied `markers`:
      one marker per record, in record order, each placed on the map. */
  method Rebuild(ps: seq<Point>) returns (ms: seq<Marker>)
    ensures Aligned(ps, ms)
    ensures forall i :: 0 <= i < |ms| ==> ms[i].visible
  {
    ms := [];
    var i := 0;
    while i < |ps|
      invariant 0 <= i <= |ps|
      invariant Aligned(ps[..i], ms)
      invariant forall j :: 0 <= j < |ms| ==> ms[j].visible
    {
      ms := ms + [Marker(ps[i], true)];
      i := i + 1;
    }
  }

  /** `updateMarkersVisibility`: every marker stays in place and shows the
      same record, and it is on the map exactly when its record passes the filter. */
  method ApplyFilter(ms: seq<Marker>, filter: string) returns (r: seq<Marker>)
    ensures |r| == |ms|
    ensures forall i :: 0 <= i < |ms| ==>
              r[i].pointData == ms[i].pointData && r[i].visible == Shown(filter, ms[i].pointData)
  {
    r := ms;
    var i := 0;
    while i < |r|
      invariant 0 <= i <= |r| == |ms|
      invariant forall j :: 0 <= j < |ms| ==> r[j].pointData == ms[j].pointData
      invariant forall j :: 0 <= j < i ==> r[j].visible == Shown(filter, ms[j].pointData)
    {
      var point := r[i].pointData;
      r := r[i := Marker(point, Shown(filter, point))];
      i := i + 1;
    }
  }

  /** The position `markers.findIndex(m => m.pointData.id === id)` reports:
      the first marker showing that id, or -1 when there is none. */
  function FirstMatch(ms: seq<Marker>, id: int): (k: int)
    ensures -1 <= k < |ms|
    ensures k == -1 <==> forall i :: 0 <= i < |ms| ==> ms[i].pointData.id != id
    ensures 0 <= k ==> ms[k].pointData.id == id && forall i :: 0 <= i < k ==> ms[i].pointData.id != id
  {
    if ms == [] then -1
    else if ms[0].pointData.id == id then 0
    else
      var k := FirstMatch(ms[1..], id);
      if k == -1 then -1 else k + 1
  }

  /** The `findIndex` scan itself. */
  method FindMarkerIndex(ms: seq<Marker>, id: int) returns (k: int)
    ensures k == FirstMatch(ms, id)
  {
    k := 0;
    while k < |ms|
      invariant 0 <= k <= |ms|
      invariant forall i :: 0 <= i < k ==> ms[i].pointData.id != id
    {
      if ms[k].pointData.id == id {
        return;
      }
      k := k + 1;
    }
    k := -1;
  }

  /** The records whose markers are on the map, in marker order. */
  function VisiblePoints(ms: seq<Marker>): seq<Point>
  {
    if ms == [] then []
    else (if ms[0].visible then [ms[0].pointData] else []) + VisiblePoints(ms[1..])
  }

  /** After the filter is applied to aligned markers, the map shows exactly
      the records of the sidebar list, in the same order. */
  lemma {:induction false} MapMatchesList(ps: seq<Point>, ms: seq<Marker>, filter: string)
    requires Aligned(ps, ms)
    requires forall i :: 0 <= i < |ms| ==> ms[i].visible == Shown(filter, ms[i].pointData)
    ensures VisiblePoints(ms) == Filtered(ps, filter)
  {
    FilteredIsSelection(ps, filter);
    if ms != [] {
      assert Aligned(ps[1..], ms[1..]);
      MapMatchesList(ps[1..], ms[1..], filter);
      FilteredIsSelection(ps[1..], filter);
    }
  }
}
