/** The records both versions of the map client keep in memory: a point
    annotation, the marker that shows it on the map, and the inputs the
    event handlers receive (form fields, a clicked location, an import file). */
module Records {

  datatype Option<+T> = None | Some(value: T)

  /** A clicked map location. Latitude and longitude are only carried from the
      click into the stored record, never computed with. */
  datatype LatLng = LatLng(lat: real, lng: real)

  /** A point annotation as stored in the `hkMapPoints` slot and in `points`. */
  datatype Point = Point(
    id: int,
    lat: real,
    lng: real,
    category: string,
    tag: string,
    comment: string,
    username: string,
    timestamp: string)

  /** A map marker, reduced to the record it shows and whether it is on the map. */
  datatype Marker = Marker(pointData: Point, visible: bool)

  /** The values of the add-point form when it is submitted. */
  datatype Form = Form(username: string, category: string, tag: string, comment: string)

  /** What the file-input handler has in hand once the reader has loaded:
      no file chosen, text that is not JSON, JSON that is not an array,
      or an array of point records. */
  datatype Payload = NoFile | Unparsable | NotAnArray | Records(items: seq<Point>)

  /** The blocking notifications the handlers raise. */
  datatype Alert = Imported(count: nat) | InvalidFileFormat | DeleteFailed

  /** The filter value that shows every category. */
  const All: string := "all"

  /** The name recorded when the username field is left empty. */
  const Anonymous: string := "Anonymous"

  /** The ids present in a collection of points. */
  function Ids(ps: seq<Point>): (r: set<int>)
    ensures forall i :: 0 <= i < |ps| ==> ps[i].id in r
    ensures forall id :: id in r ==> exists i :: 0 <= i < |ps| && ps[i].id == id
  {
    set p | p in ps :: p.id
  }

  /** No two records of the collection share an id. */
  predicate UniqueIds(ps: seq<Point>)
  {
    forall i, j :: 0 <= i < j < |ps| ==> ps[i].id != ps[j].id
  }

  /** The record a local submit builds: the selected location, the form fields,
      the clock reading as id and the locale time as timestamp. */
  function NewPoint(at: LatLng, form: Form, clock: int, timestamp: string): (p: Point)
    ensures p.id == clock && p.timestamp == timestamp
    ensures p.lat == at.lat && p.lng == at.lng
    ensures p.category == form.category && p.tag == form.tag && p.comment == form.comment
    ensures form.username == "" ==> p.username == Anonymous
    ensures form.username != "" ==> p.username == form.username
  {
    Point(clock, at.lat, at.lng, form.category, form.tag, form.comment,
          if form.username == "" then Anonymous else form.username, timestamp)
  }
}
