/** The local-only point store of `script.js`. Besides `points`, `markers`
    and `currentFilter` it keeps the click–submit–cancel state of the add
    form: the selected location and the temporary marker shown there. */
module LocalClient {
  import opened Records
  import opened ImportMerge
  import opened CategoryFilter
  import opened MarkerSet
  import opened Deletion

  class LocalPointStore {
    var points: seq<Point>
    var markers: seq<Marker>
    var selectedLocation: Option<LatLng>
    var currentFilter: string
    /** `tempMarker`: where the temporary marker stands, if there is one. */
    var tempMarker: Option<LatLng>
    /** The `hkMapPoints` slot of local storage. */
    var storage: seq<Point>
    /** How many temporary markers are on the map. */
    ghost var tempOnMap: nat

    /** The temporary marker stands exactly at the selected location, and it
        is the only temporary marker on the map. */
    ghost predicate Valid()
      reads this
    {
      tempMarker == selectedLocation &&
      tempOnMap == (if tempMarker.Some? then 1 else 0)
    }

    /** The page load: the records stored locally, one marker per record in
        record order, no selection and the filter on "all". */
    constructor (storage: seq<Point>)
      ensures Valid()
      ensures this.storage == storage && points == storage
      ensures Aligned(points, markers)
      ensures forall i :: 0 <= i < |markers| ==> markers[i].visible
      ensures selectedLocation == None && tempMarker == None && currentFilter == All
    {
      this.storage := storage;
      points := storage;
      selectedLocation := None;
      currentFilter := All;
      tempMarker := None;
      tempOnMap := 0;
      new;
      markers := Rebuild(points);
    }

    /** The map click handler: select the clicked location and move the
        temporary marker there, removing the earlier one, so that at most one
        temporary marker is ever on the map. */
    method MapClick(at: LatLng)
      requires Valid()
      modifies this`selectedLocation, this`tempMarker, this`tempOnMap
      ensures Valid()
      ensures selectedLocation == Some(at) && tempMarker == Some(at) && tempOnMap == 1
    {
      selectedLocation := Some(at);
      if tempMarker.Some? {
        tempOnMap := tempOnMap - 1;
      }
      tempMarker := Some(at);
      tempOnMap := tempOnMap + 1;
    }

    /** The form submit handler. Without a selected location nothing happens.
        Otherwise one record with the clock reading as id is appended and
        stored, one marker for it is appended, and the temporary marker and
        the selection are cleared. */
    method Submit(form: Form, clock: int, timestamp: string)
      requires Valid()
      modifies this`points, this`markers, this`storage, this`selectedLocation, this`tempMarker, this`tempOnMap
      ensures Valid()
      ensures selectedLocation == None && tempMarker == None && tempOnMap == 0
      ensures old(selectedLocation) == None ==>
                points == old(points) && markers == old(markers) && storage == old(storage)
      ensures old(selectedLocation).Some? ==>
                var at := old(selectedLocation).value;
                var p := NewPoint(at, form, clock, timestamp);
                points == old(points) + [p] && markers == old(markers) + [Marker(p, true)] &&
                storage == points
      ensures Aligned(old(points), old(markers)) ==> Aligned(points, markers)
    {
      if selectedLocation == None {
        return;
      }
      var point := NewPoint(selectedLocation.value, form, clock, timestamp);
      points := points + [point];
      storage := points;
      markers := markers + [Marker(point, true)];
      if tempMarker.Some? {
        tempOnMap := tempOnMap - 1;
        tempMarker := None;
      }
      selectedLocation := None;
    }

    /** The cancel button: remove the temporary marker and drop the selection;
        records and markers are untouched. */
    method Cancel()
      requires Valid()
      modifies this`selectedLocation, this`tempMarker, this`tempOnMap
      ensures Valid()
      ensures selectedLocation == None && tempMarker == None && tempOnMap == 0
    {
      if tempMarker.Some? {
        tempOnMap := tempOnMap - 1;
        tempMarker := None;
      }
      selectedLocation := None;
    }

    /** `updatePointsList`: the records the sidebar lists and the count it shows. */
    method PointsList() returns (items: seq<Point>, count: nat)
      ensures items == Filtered(points, currentFilter)
      ensures count == |items|
    {
      items := Filtered(points, currentFilter);
      count := |items|;
    }

    /** The category filter's change handler followed by `updateMarkersVisibility`.
        When markers and records are aligned, the map then shows exactly the
        listed records. */
    method SetFilter(filter: string)
      modifies this`currentFilter, this`markers
      ensures currentFilter == filter
      ensures |markers| == |old(markers)|
      ensures forall i :: 0 <= i < |markers| ==>
                markers[i].pointData == old(markers)[i].pointData &&
                markers[i].visible == Shown(filter, markers[i].pointData)
      ensures Aligned(points, old(markers)) ==>
                Aligned(points, markers) && VisiblePoints(markers) == Filtered(points, filter)
    {
      currentFilter := filter;
      markers := ApplyFilter(markers, currentFilter);
      if Aligned(points, old(markers)) {
        MapMatchesList(points, markers, filter);
      }
    }

    /** The file input's load handler. Text that is not JSON raises the
        invalid-format alert and JSON that is not an array is ignored, both
        leaving the store as it was; an array is merged by id, stored, and the
        markers rebuilt, and the alert reports how many records were appended. */
    method ImportFile(payload: Payload) returns (alert: Option<Alert>)
      modifies this`points, this`markers, this`storage
      ensures !payload.Records? ==>
                points == old(points) && markers == old(markers) && storage == old(storage)
      ensures payload.Unparsable? ==> alert == Some(InvalidFileFormat)
      ensures (payload.NoFile? || payload.NotAnArray?) ==> alert == None
      ensures payload.Records? ==>
                points == Merge(old(points), payload.items) &&
                alert == Some(Imported(|points| - |old(points)|)) &&
                storage == points &&
                Aligned(points, markers) &&
                (forall i :: 0 <= i < |markers| ==> markers[i].visible)
    {
      match payload {
        case NoFile =>
          alert := None;
        case Unparsable =>
          alert := Some(InvalidFileFormat);
        case NotAnArray =>
          alert := None;
        case Records(imported) =>
          var newPoints := NewRecords(points, imported);
          points := points + newPoints;
          storage := points;
          markers := Rebuild(points);
          alert := Some(Imported(|newPoints|));
      }
    }

    /** `deletePoint`. A declined confirmation changes nothing. Otherwise every
        record with the id goes, the rest are stored, and only the first marker
        showing the id is spliced out. */
    method DeletePoint(pointId: int, confirmed: bool)
      modifies this`points, this`markers, this`storage
      ensures !confirmed ==>
                points == old(points) && markers == old(markers) && storage == old(storage)
      ensures confirmed ==>
                points == RemoveId(old(points), pointId) &&
                markers == RemoveFirstMarker(old(markers), pointId) &&
                storage == points
      ensures UniqueIds(old(points)) && Aligned(old(points), old(markers)) ==> Aligned(points, markers)
    {
      if !confirmed {
        return;
      }
      ghost var before, beforeMarkers := points, markers;
      points := RemoveId(points, pointId);
      storage := points;
      var markerIndex := FindMarkerIndex(markers, pointId);
      if markerIndex != -1 {
        markers := markers[..markerIndex] + markers[markerIndex + 1..];
      }
      if UniqueIds(before) && Aligned(before, beforeMarkers) {
        DeleteKeepsAlignment(before, beforeMarkers, pointId);
      }
    }
  }
}
