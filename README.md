# HK Map Share: the point-annotation store

HK Map Share lets a user drop categorised points of interest on a map of Hong
Kong, list them in a sidebar filtered by category, delete them, and export or
import them as a JSON file. This project models the client-side point store.
The client exists in two versions:

- `script.js` is local-only. Besides the points and markers, it keeps the
  click–submit–cancel state of the add form: the selected location and one
  temporary marker.
- `script-enhanced.js` can also keep points on a server, chosen by the
  `USE_SERVER` flag.

Both versions keep a `points` array of records and a parallel `markers` array.
Each marker shows one record (`pointData`). Both also keep a `currentFilter`
and a selected location. Event handlers change that state step by step. The
model keeps this form:

- `Records`: the point record, a marker reduced to `(pointData, visible)`, the
  form values, the parsed import file and the alerts.
- `Filtering`: `Keep`, the order-preserving `Array.prototype.filter` that
  merge, category filter and delete are all built on, with its lemmas.
- `ImportMerge`: the id-based merge run on import, and its properties.
- `CategoryFilter`: the projection the sidebar lists.
- `MarkerSet`: the marker loops (`forEach` rebuild, visibility toggle,
  `findIndex`) and the alignment of markers with records.
- `Deletion`: deleting by id, and what that does to alignment.
- `EnhancedClient.PointStore`: the `script-enhanced.js` handlers as methods
  of a class whose fields are the module-level variables.
- `LocalClient.LocalPointStore`: the same for `script.js`, plus the
  temporary marker.

The clock (`Date.now()`, `toLocaleString()`), the answer of `confirm`, the form
fields, the server's answers and the parsed import file are all parameters of
the methods. The `hkMapPoints` local-storage slot is a field, `storage`. The
save operations write it and the load operations read it.

Markers and records stay aligned (`markers[i].pointData == points[i]`, same
length) after load, import and add. Delete keeps them aligned when ids are
distinct (`Deletion.DeleteKeepsAlignment`). When several records share the
deleted id, delete removes them all but only the first matching marker
(`Deletion.DuplicateIdsBreakAlignment`).
Repeated ids can arise in two ways: two `Date.now()` readings that collide, or
an import file that has the same new id twice. This is why alignment is a
property the methods preserve under stated conditions, not a class invariant.

A newly added marker is always put on the map, and so is every rebuilt marker,
whatever the current filter is. The source only re-applies the filter when the
filter changes, and the model does the same.

## Model

| member | source | states |
|---|---|---|
| Records.Ids | script-enhanced.js:176 | every record's id is in the set, and every id in the set belongs to some record |
| Filtering.Keep | script-enhanced.js:177 | the result contains exactly the input elements that pass the test, and is no longer than the input |
| Filtering.KeepConcat | script-enhanced.js:177 | filtering distributes over concatenation, so surviving elements keep their relative order |
| ImportMerge.NewRecords | script-enhanced.js:176-177 | the appended records are exactly the imported records whose id is not among the existing ids |
| ImportMerge.Merge | script-enhanced.js:179 | the existing records followed by `NewRecords`, in file order: at least as long as the store and at most store plus file; a record is in the result exactly when it was in the store, or it is in the file with an id the store did not have |
| ImportMerge.MergeKeepsExisting | script-enhanced.js:176-179 | the old records are an unchanged prefix of the merge; every later record comes from the file and has a new id; a merged record whose id existed before is an existing record, so nothing existing is overwritten |
| ImportMerge.MergeCoversImported | script-enhanced.js:176-179 | after a merge, every imported record's id is present in the store |
| ImportMerge.NewRecordsInFileOrder | script-enhanced.js:177 | records are appended in the order of the file |
| ImportMerge.ReimportAddsNothing | script-enhanced.js:176-179 | re-importing the same file right after a merge appends nothing, so the merge is idempotent |
| ImportMerge.MergeAbsorbsItsResult | script-enhanced.js:176-179 | merging the merged collection back into the old records gives the same merged collection |
| ImportMerge.ExportImportRoundTrip | script-enhanced.js:151-179 | importing an exported collection into an empty store gives back exactly that collection, ids included |
| ImportMerge.MergeKeepsIdsUnique | script-enhanced.js:176-179 | if the store and the file each have distinct ids, so does the merged collection |
| CategoryFilter.Filtered | script-enhanced.js:230 | the list contains exactly the stored records that pass the filter (all records under "all", otherwise those of the category) and is no longer than the store |
| CategoryFilter.ShownIffListed | script-enhanced.js:273 | the marker visibility test `Shown` accepts a stored record exactly when the sidebar list contains it |
| CategoryFilter.FilteredIsSelection | script-enhanced.js:230 | both branches of the projection are one order-preserving selection by the visibility predicate |
| CategoryFilter.FilterAllIsIdentity | script-enhanced.js:230 | under "all" the list is the stored collection itself |
| CategoryFilter.FilteredInOrder | script-enhanced.js:230 | the projection keeps stored order |
| CategoryFilter.FilteredIdempotent | script-enhanced.js:230 | filtering a filtered list by the same category changes nothing |
| CategoryFilter.FilteredCount | script-enhanced.js:232-240 | the count is zero exactly when no stored record passes the filter |
| MarkerSet.Rebuild | script-enhanced.js:72-76 | one marker per record, in record order (aligned), each on the map |
| MarkerSet.ApplyFilter | script-enhanced.js:270-279 | each marker keeps its place and record, and is on the map exactly when its record passes the filter |
| MarkerSet.FirstMatch | script-enhanced.js:296 | the index is the first marker whose record has the id, or -1 exactly when no marker has it |
| MarkerSet.FindMarkerIndex | script-enhanced.js:296 | the `findIndex` loop returns that first index, or -1 |
| MarkerSet.MapMatchesList | script-enhanced.js:269-279 | once the filter is applied to aligned markers, the records on the map are exactly the sidebar list, in the same order |
| Deletion.RemoveId | script-enhanced.js:292 | no record with the id remains, and every record with another id does |
| Deletion.RemoveFirstMarker | script-enhanced.js:296-300 | dropping the first marker that shows the id equals splicing at the index `findIndex` reports; when it reports -1, the markers are unchanged |
| Deletion.RemoveIdInOrder | script-enhanced.js:292 | the remaining records keep their relative order |
| Deletion.RemoveIdIdempotent | script-enhanced.js:292 | deleting an absent id changes nothing; deleting twice is deleting once |
| Deletion.DeletedNeverListed | script-enhanced.js:292 | after a delete, no filter lists a record with that id |
| Deletion.DeleteKeepsAlignment | script-enhanced.js:292-300 | with distinct ids, removing the records and splicing the first matching marker keeps markers aligned with records |
| Deletion.DuplicateIdsBreakAlignment | script.js:219-227 | with two records sharing an id, delete removes both records but only one marker, which breaks alignment |
| Records.NewPoint | script-enhanced.js:99-124 | the locally built record has the clock value as id, the given timestamp, the selected latitude and longitude and the form's category, tag and comment; its username is "Anonymous" when the field was empty and the entered one otherwise |
| EnhancedClient.PointStore.constructor | script-enhanced.js:14-17 | initial state (no selection, filter "all"), then the load of line 312 |
| EnhancedClient.PointStore.LoadPoints | script-enhanced.js:64-78 | records come from the server's answer (local storage if the request failed) or from local storage; markers are rebuilt aligned and all on the map |
| EnhancedClient.PointStore.SavePoints | script-enhanced.js:81-85 | local storage receives the whole collection in local mode and is untouched in server mode |
| EnhancedClient.PointStore.MapClick | script-enhanced.js:88-91 | the clicked location becomes the selection |
| EnhancedClient.PointStore.Submit | script-enhanced.js:94-139 | with no selection, nothing changes. In local mode, one record is appended with the selected location, the form fields, the username defaulting to "Anonymous" and the clock value as id; one marker for it is appended and the store is saved. In server mode, the server's record is appended, or nothing when the save returned null. The selection is always cleared and alignment is preserved |
| EnhancedClient.PointStore.Cancel | script-enhanced.js:142-147 | the selection is cleared; records and markers are untouched (frame) |
| EnhancedClient.PointStore.PointsList | script-enhanced.js:226-267 | the list is the filtered projection; the count is its length, 0 when it is empty; the instruction is shown exactly when the list is empty and depends on whether the filter is "all" |
| EnhancedClient.PointStore.UpdateMarkersVisibility | script-enhanced.js:270-279 | each marker is on the map exactly when its record passes the current filter |
| EnhancedClient.PointStore.SetFilter | script-enhanced.js:198-202 | the filter is set, marker visibility follows it, and with aligned markers the map shows exactly the listed records |
| EnhancedClient.PointStore.ImportFile | script-enhanced.js:166-195 | an unparsable file raises the invalid-format alert and a non-array is ignored, both leaving the state unchanged. An array is merged by id and saved; markers are rebuilt aligned, and the alert count equals the number of records appended |
| EnhancedClient.PointStore.DeletePoint | script-enhanced.js:282-304 | a declined confirmation, or a failed server delete (with its alert), changes nothing. Otherwise every record with the id goes and only the first matching marker is spliced; alignment is kept when ids are distinct |
| LocalClient.LocalPointStore.constructor | script.js:9-14 | records are read from local storage and one marker per record is built in record order (line 234); no selection, no temporary marker |
| LocalClient.LocalPointStore.MapClick | script.js:26-39 | the click selects the location and moves the temporary marker there, replacing any earlier one, so at most one temporary marker is on the map and it stands at the selection |
| LocalClient.LocalPointStore.Submit | script.js:42-79 | with no selection, nothing changes. Otherwise one record is appended with the clock value as id and the username defaulting to "Anonymous", the whole collection is stored, one marker for the record is appended, and the temporary marker and the selection are cleared |
| LocalClient.LocalPointStore.Cancel | script.js:82-93 | the temporary marker and the selection are cleared; records and markers are untouched (frame) |
| LocalClient.LocalPointStore.PointsList | script.js:172-202 | the list is the filtered projection, and the count is its length |
| LocalClient.LocalPointStore.SetFilter | script.js:144-148 | the filter is set, marker visibility follows it (lines 205-214), and with aligned markers the map shows exactly the listed records |
| LocalClient.LocalPointStore.ImportFile | script.js:112-141 | an unparsable file alerts and a non-array is ignored, both leaving the state unchanged. An array is merged by id and stored; markers are rebuilt aligned, and the alert count equals the number appended |
| LocalClient.LocalPointStore.DeletePoint | script.js:217-231 | a declined confirmation changes nothing. Otherwise every record with the id goes, the rest are stored, and only the first matching marker is spliced; alignment is kept when ids are distinct |

## Left out

- Leaflet is left out: map, tile layer, icons, popups, `setView`, and the
  marker objects themselves. A marker is only the record it shows and
  whether it is on the map. A marker the filter takes off the map stays in
  `markers` with `visible` false. A marker the source also discards (the
  rebuild's `markers = []`, the delete's `splice`) is dropped from `markers`.
- The DOM is left out: form field resets, display toggles and the wording
  of instruction texts. The sidebar's instruction is a tag (`Hint`). The
  count is the number the source writes into `pointCount`; the conversion to
  text is not modelled.
- JSON encoding of local storage is left out. The `hkMapPoints` slot holds the
  record sequence itself, so encoding and decoding are assumed lossless. A
  corrupt slot that makes `JSON.parse` throw at page load (script.js:10) is not
  modelled.
- `fetch` is left out: `loadPointsFromServer`, `savePointToServer` and
  `deletePointFromServer`. Their outcomes are parameters: the fetched
  collection or `None`, the saved record or `None`, and whether the delete
  request went through. A server answer that is not a record array is not
  modelled. `server.js` is not part of this model.
- `FileReader` and the parsed file are left out. The handler receives the
  file already parsed as a `Payload`. Array elements that are not
  point-shaped (a `null` element makes `p.id` throw, which ends in the
  invalid-format alert) are not modelled: imported elements are typed records.
- The export download (Blob, object URL, file name) is left out. Only its
  content matters, and `ImportMerge.ExportImportRoundTrip` covers that.
- `Date.now()` and `toLocaleString()` are parameters. Id uniqueness is not
  claimed: clock readings can collide, and a merge does not remove duplicates
  within the imported file.
- Timing is left out: the 30-second `setInterval(loadPoints)` polling and the
  interleaving of other events with the awaits of the async handlers.
  `LoadPoints` may be called at any point.
- Latitude and longitude are JavaScript numbers. The model carries them as
  `real` values and does no arithmetic with them.
- Route building, vertex hit-testing, preview-marker index compaction,
  pictures, point editing and route import/export have no code in these
  files and are not part of this model.
- Local-storage writes are assumed to succeed. A `setItem` that throws (a
  full quota, say) would leave `points` changed and `markers` stale: the
  record already appended but no marker added (script.js:63-64), the merge
  already applied but the markers not rebuilt, with the invalid-format alert
  raised (script-enhanced.js:179-180, 191), or the records filtered but the
  marker not spliced (script-enhanced.js:292-293, script.js:219-220). The
  alignment that Submit, ImportFile and DeletePoint preserve holds only
  for writes that succeed.
- A save answer that is not a record is not modelled. An HTTP error body
  such as `{error: ...}` makes `fetch` resolve, so the source would append it
  as a point and build a marker for it (script-enhanced.js:46, 115-117, 129-130). The
  saved-record parameter is a record, or `None` when the request failed.
- A delete request that reaches the server counts as success even when the
  server answers with an HTTP error (script-enhanced.js:55-56). The
  `deleteRequestSucceeded` parameter is whether the request went through, so
  in that case the local delete goes ahead while the server keeps the point.
- EnhancedClient.PointStore.Submit: in server mode, the appended record is
  whatever the server returned. The model does not relate it to the form
  fields, because that record is built by `server.js`.

## Behaviour worth knowing

These are behaviours of the source that a caller may not expect. The model
keeps each one as the code has it:

- Deleting an id that is not present is a silent no-op.
- An import that parses to something other than an array is silently
  ignored. Unparsable text raises the invalid-format alert.
- In server mode, an import merges into memory only. `savePoints` does not
  write anything, so the next poll of the server replaces the merged records.
