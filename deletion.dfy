/** Deleting a point: `points.filter(p => p.id !== pointId)` on the records,
    and a splice of the first marker showing that id. */
module Deletion {
  import opened Records
  import opened Filtering
  import opened CategoryFilter
  import opened MarkerSet

  /** The test `p.id !== pointId`. */
  function Other(id: int): Point -> bool
  {
    (p: Point) => p.id != id
  }

  /** The records left after deleting `id`: every record with another id, in order. */
  function RemoveId(ps: seq<Point>, id: int): (r: seq<Point>)
    ensures |r| <= |ps|
    ensures forall p :: p in r <==> p in ps && p.id != id
  {
    Keep(ps, Other(id))
  }

  /** The markers left after deleting `id`: the first marker showing that id
      is dropped, the rest stay in order. This is `markers.splice(markerIndex, 1)`
      at the index `findIndex` reports, and the same array when it reports -1. */
  function RemoveFirstMarker(ms: seq<Marker>, id: int): (r: seq<Marker>)
    ensures FirstMatch(ms, id) == -1 ==> r == ms
    ensures FirstMatch(ms, id) != -1 ==>
              r == ms[..FirstMatch(ms, id)] + ms[FirstMatch(ms, id) + 1..]
  {
    if ms == [] then []
    else if ms[0].pointData.id == id then ms[1..]
    else
      SpliceBehindHead(ms, FirstMatch(ms[1..], id));
      [ms[0]] + RemoveFirstMarker(ms[1..], id)
  }

  /** Splicing out a position `k` of the tail is splicing out position
      `k + 1` of the whole sequence and keeping the head (-1: no position). */
  lemma SpliceBehindHead<T>(s: seq<T>, k: int)
    requires s != [] && -1 <= k < |s| - 1
    ensures k != -1 ==> s[..k + 1] + s[k + 2..] == [s[0]] + (s[1..][..k] + s[1..][k + 1..])
  {
  }

  /** Deleting keeps the other records in their relative order. */
  lemma RemoveIdInOrder(ps: seq<Point>, qs: seq<Point>, id: int)
    ensures RemoveId(ps + qs, id) == RemoveId(ps, id) + RemoveId(qs, id)
  {
    KeepConcat(ps, qs, Other(id));
  }

  /** Deleting an id that is not present changes nothing, and deleting twice
      is deleting once. */
  lemma RemoveIdIdempotent(ps: seq<Point>, id: int)
    ensures id !in Ids(ps) ==> RemoveId(ps, id) == ps
    ensures RemoveId(RemoveId(ps, id), id) == RemoveId(ps, id)
  {
    if id !in Ids(ps) {
      KeepAll(ps, Other(id));
    }
    KeepTwice(ps, Other(id));
  }

  /** Once a point is deleted, no filter lists it again. */
  lemma DeletedNeverListed(ps: seq<Point>, id: int, filter: string)
    ensures id !in Ids(Filtered(RemoveId(ps, id), filter))
  {
  }

  /** With distinct ids, the marker removal mirrors the record removal, so
      records and markers stay aligned after a delete. */
  lemma {:induction false} DeleteKeepsAlignment(ps: seq<Point>, ms: seq<Marker>, id: int)
    requires UniqueIds(ps) && Aligned(ps, ms)
    ensures Aligned(RemoveId(ps, id), RemoveFirstMarker(ms, id))
  {
    if ps != [] {
      var restPs, restMs := ps[1..], ms[1..];
      assert Aligned(restPs, restMs);
      if ps[0].id == id {
        RemoveOnlyHead(ps, id);
        assert FirstMatch(ms, id) == 0;
        assert RemoveFirstMarker(ms, id) == restMs;
      } else {
        assert UniqueIds(restPs);
        DeleteKeepsAlignment(restPs, restMs, id);
        assert RemoveId(ps, id) == [ps[0]] + RemoveId(restPs, id);
        AlignedCons(ps[0], ms[0], RemoveId(restPs, id), RemoveFirstMarker(restMs, id));
      }
    }
  }

  /** A marker showing a record, put in front of aligned markers, keeps them aligned. */
  lemma AlignedCons(p: Point, m: Marker, ps: seq<Point>, ms: seq<Marker>)
    requires m.pointData == p && Aligned(ps, ms)
    ensures Aligned([p] + ps, [m] + ms)
  {
  }

  /** With distinct ids, a record with the deleted id at the head is the only one. */
  lemma RemoveOnlyHead(ps: seq<Point>, id: int)
    requires UniqueIds(ps) && ps != [] && ps[0].id == id
    ensures RemoveId(ps, id) == ps[1..]
  {
    forall p | p in ps[1..]
      ensures Other(id)(p)
    {
      var j :| 0 <= j < |ps[1..]| && ps[1..][j] == p;
      assert ps[j + 1] == p;
    }
    KeepAll(ps[1..], Other(id));
  }

  /** With a repeated id, a delete removes every record with that id but only
      the first of their markers, so the two arrays fall out of alignment. */
  lemma DuplicateIdsBreakAlignment(a: Point, b: Point)
    requires a.id == b.id
    ensures Aligned([a, b], [Marker(a, true), Marker(b, true)])
    ensures RemoveId([a, b], a.id) == []
    ensures RemoveFirstMarker([Marker(a, true), Marker(b, true)], a.id) == [Marker(b, true)]
    ensures !Aligned(RemoveId([a, b], a.id), RemoveFirstMarker([Marker(a, true), Marker(b, true)], a.id))
  {
    var ms := [Marker(a, true), Marker(b, true)];
    KeepNone([a, b], Other(a.id));
    assert FirstMatch(ms, a.id) == 0;
    assert ms[1..] == [Marker(b, true)];
    assert [a, b][1..] == [b];
    assert [b][1..] == [];
  }
}
