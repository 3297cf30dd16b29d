/** The point store of `script-enhanced.js`. One configuration flag chooses
    between local storage and a server; the handlers below reassign the
    module-level `points`, `markers`, `selectedLocation` and `currentFilter`. */
module EnhancedClient {
  import opened Records
  import opened ImportMerge
  import opened CategoryFilter
  import opened MarkerSet
  import opened Deletion

  /** The instruction the sidebar shows in place of an empty list. */
  datatype Hint = AddFirstPoint | NoneInCategory(category: string)

  class PointStore {
    /** `USE_SERVER`: points come from and go to the server instead of local storage. */
    const useServer: bool
    var points: seq<Point>
    var markers: seq<Marker>
    var selectedLocation: Option<LatLng>
    var currentFilter: string
    /** The `hkMapPoints` slot of local storage. */
    var storage: seq<Point>

    /** The page load: empty state, then `loadPoints`. `fetched` is the
        server's answer, `None` when the request failed. */
    constructor (useServer: bool, storage: seq<Point>, fetched: Option<seq<Point>>)
      ensures this.useServer == useServer && this.storage == storage
      ensures points == (if useServer && fetched.Some? then fetched.value else storage)
      ensures Aligned(points, markers)
      ensures forall i :: 0 <= i < |markers| ==> markers[i].visible
      ensures selectedLocation == None && currentFilter == All
    {
      this.useServer := useServer;
      this.storage := storage;
      points := [];
      markers := [];
      selectedLocation := None;
      currentFilter := All;
      new;
      LoadPoints(fetched);
    }

    /** `loadPoints`: replace the records by the server's answer (local storage
        when the request failed) or by local storage, and rebuild one marker
        per record. The filter is not re-applied, so every marker is on the map. */
    method LoadPoints(fetched: Option<seq<Point>>)
      modifies this`points, this`markers
      ensures points == (if useServer && fetched.Some? then fetched.value else storage)
      ensures Aligned(points, markers)
      ensures forall i :: 0 <= i < |markers| ==> markers[i].visible
    {
      points := if useServer && fetched.Some? then fetched.value else storage;
      markers := Rebuild(points);
    }

    /** `savePoints`: writes the whole collection to local storage, and only in local mode. */
    method SavePoints()
      modifies this`storage
      ensures storage == if useServer then old(storage) else points
    {
      if !useServer {
        storage := points;
      }
    }

    /** The map click handler: remember where the new point goes. */
    method MapClick(at: LatLng)
      modifies this`selectedLocation
      ensures selectedLocation == Some(at)
    {
      selectedLocation := Some(at);
    }

    /** The form submit handler. Without a selected location nothing happens.
        In local mode the new record takes the clock reading as id; in server
        mode the record is the server's answer, and a save whose request
        failed (`None`) adds nothing. Either way the selection is cleared. */
    method Submit(form: Form, clock: int, timestamp: string, saved: Option<Point>)
      modifies this`points, this`markers, this`selectedLocation, this`storage
      ensures selectedLocation == None
      ensures old(selectedLocation) == None ==>
                points == old(points) && markers == old(markers) && storage == old(storage)
      ensures old(selectedLocation).Some? && useServer ==>
                storage == old(storage) &&
                points == old(points) + (if saved.Some? then [saved.value] else []) &&
                markers == old(markers) + (if saved.Some? then [Marker(saved.value, true)] else [])
      ensures old(selectedLocation).Some? && !useServer ==>
                var at := old(selectedLocation).value;
                var p := NewPoint(at, form, clock, timestamp);
                points == old(points) + [p] && markers == old(markers) + [Marker(p, true)] &&
                storage == points
      ensures Aligned(old(points), old(markers)) ==> Aligned(points, markers)
    {
      if selectedLocation == None {
        return;
      }
      var point: Option<Point>;
      if useServer {
        point := saved;
        if point.Some? {
          points := points + [point.value];
        }
      } else {
        point := Some(NewPoint(selectedLocation.value, form, clock, timestamp));
        points := points + [point.value];
        SavePoints();
      }
      if point.Some? {
        markers := markers + [Marker(point.value, true)];
      }
      selectedLocation := None;
    }

    /** The cancel button: drop the selected location. */
    method Cancel()
      modifies this`selectedLocation
      ensures selectedLocation == None
    {
      selectedLocation := None;
    }

    /** `updatePointsList`: the records the sidebar lists, the count it shows,
        and the instruction it shows instead when the list is empty. */
    method PointsList() returns (items: seq<Point>, count: nat, hint: Option<Hint>)
      ensures items == Filtered(points, currentFilter)
      ensures count == |items|
      ensures hint.Some? <==> items == []
      ensures hint.Some? ==>
                hint.value == if currentFilter == All then AddFirstPoint else NoneInCategory(currentFilter)
    {
      items := Filtered(points, currentFilter);
      if |items| == 0 {
        hint := Some(if currentFilter == All then AddFirstPoint else NoneInCategory(currentFilter));
        count := 0;
        return;
      }
      hint := None;
      count := |items|;
    }

    /** `updateMarkersVisibility`: each marker is on the map exactly when its
        record passes the current filter. */
    method UpdateMarkersVisibility()
      modifies this`markers
      ensures |markers| == |old(markers)|
      ensures forall i :: 0 <= i < |markers| ==>
                markers[i].pointData == old(markers)[i].pointData &&
                markers[i].visible == Shown(currentFilter, markers[i].pointData)
    {
      markers := ApplyFilter(markers, currentFilter);
    }

    /** The category filter's change handler. When markers and records are
        aligned, the map then shows exactly the listed records. */
    method SetFilter(filter: string)
      modifies this`currentFilter, this`markers
      ensures currentFilter == filter
      ensures |markers| == |old(markers)|
      ensures forall i :: 0 <= i < |markers| ==>
                markers[i].pointData == old(markers)[i].pointData &&
                markers[i].visible == Shown(filter, markers[i].pointData)
      ensures Aligned(points, old(markers)) ==>
                Aligned(points, markers) && VisiblePoints(markers) == Filtered(points, filter)
    {
      currentFilter := filter;
      UpdateMarkersVisibility();
      if Aligned(points, old(markers)) {
        MapMatchesList(points, markers, filter);
      }
    }

    /** The file input's load handler. Text that is not JSON raises the
        invalid-format alert and JSON that is not an array is ignored, both
        leaving the store as it was; an array is merged by id, saved, and the
        markers rebuilt, and the alert reports how many records were appended. */
    method ImportFile(payload: Payload) returns (alert: Option<Alert>)
      modifies this`points, this`markers, this`storage
      ensures !payload.Records? ==>
                points == old(points) && markers == old(markers) && storage == old(storage)
      ensures payload.Unparsable? ==> alert == Some(InvalidFileFormat)
      ensures (payload.NoFile? || payload.NotAnArray?) ==> alert == None
      ensures payload.Records? ==>
                points == Merge(old(points), payload.items) &&
                alert == Some(Imported(|points| - |old(points)|)) &&
                storage == (if useServer then old(storage) else points) &&
                Aligned(points, markers) &&
                (forall i :: 0 <= i < |markers| ==> markers[i].visible)
    {
      match payload {
        case NoFile =>
          alert := None;
        case Unparsable =>
          alert := Some(InvalidFileFormat);
        case NotAnArray =>
          alert := None;
        case Records(imported) =>
          var newPoints := NewRecords(points, imported);
          points := points + newPoints;
          SavePoints();
          markers := Rebuild(points);
          alert := Some(Imported(|newPoints|));
      }
    }

    /** `deletePoint`. A declined confirmation changes nothing; in server mode
        so does a delete request that failed to reach the server, which raises an
        alert; an HTTP error answer counts as success. Otherwise every
        record with the id goes, and the first marker showing it is spliced out. */
    method DeletePoint(pointId: int, confirmed: bool, deleteRequestSucceeded: bool) returns (alert: Option<Alert>)
      modifies this`points, this`markers, this`storage
      ensures alert == if confirmed && useServer && !deleteRequestSucceeded then Some(DeleteFailed) else None
      ensures (!confirmed || (useServer && !deleteRequestSucceeded)) ==>
                points == old(points) && markers == old(markers) && storage == old(storage)
      ensures confirmed && (!useServer || deleteRequestSucceeded) ==>
                points == RemoveId(old(points), pointId) &&
                markers == RemoveFirstMarker(old(markers), pointId) &&
                storage == (if useServer then old(storage) else points)
      ensures UniqueIds(old(points)) && Aligned(old(points), old(markers)) ==> Aligned(points, markers)
    {
      alert := None;
      if !confirmed {
        return;
      }
      if useServer && !deleteRequestSucceeded {
        alert := Some(DeleteFailed);
        return;
      }
      ghost var before, beforeMarkers := points, markers;
      points := RemoveId(points, pointId);
      SavePoints();
      var markerIndex := FindMarkerIndex(markers, pointId);
      if markerIndex != -1 {
        markers := markers[..markerIndex] + markers[markerIndex + 1..];
      }
      if UniqueIds(before) && Aligned(before, beforeMarkers) {
        DeleteKeepsAlignment(before, beforeMarkers, pointId);
      }
    }
  }
}
