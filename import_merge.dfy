/** The id-based merge both clients run when a file of points is imported:
    existing records stay as they are, and imported records whose id is not
    already present are appended in the order of the file. */
module ImportMerge {
  import opened Records
  import opened Filtering

  /** The test `!existingIds.has(p.id)`. */
  function Absent(ids: set<int>): Point -> bool
  {
    (p: Point) => p.id !in ids
  }

  /** `newPoints`: the imported records whose id is not among the existing ids. */
  function NewRecords(existing: seq<Point>, imported: seq<Point>): (r: seq<Point>)
    ensures |r| <= |imported|
    ensures forall p :: p in r <==> p in imported && p.id !in Ids(existing)
  {
    Keep(imported, Absent(Ids(existing)))
  }

  /** `[...points, ...newPoints]`: the existing records followed by the new
      ones in file order. A record is in the result exactly when it was in the
      store, or it is in the file with an id the store did not have. */
  function Merge(existing: seq<Point>, imported: seq<Point>): (r: seq<Point>)
    ensures |existing| <= |r| <= |existing| + |imported|
    ensures forall p :: p in r <==> p in existing || (p in imported && p.id !in Ids(existing))
  {
    existing + NewRecords(existing, imported)
  }

  /** The existing records survive the merge unchanged and in place as a prefix;
      every record after them comes from the file and has an id the store did
      not have, so no existing record is ever replaced by an imported one. */
  lemma MergeKeepsExisting(existing: seq<Point>, imported: seq<Point>)
    ensures |Merge(existing, imported)| == |existing| + |NewRecords(existing, imported)|
    ensures Merge(existing, imported)[..|existing|] == existing
    ensures forall k :: |existing| <= k < |Merge(existing, imported)| ==>
              Merge(existing, imported)[k] in imported &&
              Merge(existing, imported)[k].id !in Ids(existing)
    ensures forall p :: p in Merge(existing, imported) && p.id in Ids(existing) ==> p in existing
  {
  }

  /** Every imported record ends up in the store: either it is appended, or a
      record with its id was already there. */
  lemma MergeCoversImported(existing: seq<Point>, imported: seq<Point>)
    ensures forall p :: p in imported ==> p.id in Ids(Merge(existing, imported))
  {
  }

  /** The imported records are appended in file order: splitting the file
      splits the appended records the same way. */
  lemma NewRecordsInFileOrder(existing: seq<Point>, first: seq<Point>, rest: seq<Point>)
    ensures NewRecords(existing, first + rest) == NewRecords(existing, first) + NewRecords(existing, rest)
  {
    KeepConcat(first, rest, Absent(Ids(existing)));
  }

  /** Importing the same file again right after a merge appends nothing. */
  lemma ReimportAddsNothing(existing: seq<Point>, imported: seq<Point>)
    ensures NewRecords(Merge(existing, imported), imported) == []
    ensures Merge(Merge(existing, imported), imported) == Merge(existing, imported)
  {
    MergeCoversImported(existing, imported);
    KeepNone(imported, Absent(Ids(Merge(existing, imported))));
  }

  /** Importing a file that is the merged collection itself adds nothing
      beyond what the first merge added. */
  lemma MergeAbsorbsItsResult(existing: seq<Point>, imported: seq<Point>)
    ensures Merge(existing, Merge(existing, imported)) == Merge(existing, imported)
  {
    var ids := Ids(existing);
    var added := NewRecords(existing, imported);
    KeepConcat(existing, added, Absent(ids));
    forall p | p in existing
      ensures !Absent(ids)(p)
    {
      var i :| 0 <= i < |existing| && existing[i] == p;
    }
    KeepNone(existing, Absent(ids));
    forall p | p in added
      ensures Absent(ids)(p)
    {
    }
    KeepAll(added, Absent(ids));
    calc {
      NewRecords(existing, Merge(existing, imported));
      Keep(existing + added, Absent(ids));
      Keep(existing, Absent(ids)) + Keep(added, Absent(ids));
      added;
    }
  }

  /** Exporting a store and importing the file into an empty store gives back
      exactly the exported records, ids included. */
  lemma ExportImportRoundTrip(exported: seq<Point>)
    ensures Merge([], exported) == exported
  {
    KeepAll(exported, Absent(Ids([])));
  }

  /** When the store and the file each have distinct ids, so does the merge. */
  lemma MergeKeepsIdsUnique(existing: seq<Point>, imported: seq<Point>)
    requires UniqueIds(existing) && UniqueIds(imported)
    ensures UniqueIds(Merge(existing, imported))
  {
    var m := Merge(existing, imported);
    var added := NewRecords(existing, imported);
    KeepUnique(imported, Absent(Ids(existing)));
    forall i, j | 0 <= i < j < |m|
      ensures m[i].id != m[j].id
    {
      if j >= |existing| {
        assert m[j] == added[j - |existing|] && m[j] in added;
        if i < |existing| {
          assert m[i] == existing[i];
        } else {
          assert m[i] == added[i - |existing|];
        }
      }
    }
  }

  /** Selecting from a collection with distinct ids keeps the ids distinct. */
  lemma {:induction false} KeepUnique(s: seq<Point>, keep: Point -> bool)
    requires UniqueIds(s)
    ensures UniqueIds(Keep(s, keep))
  {
    if s != [] {
      var tail := Keep(s[1..], keep);
      KeepUnique(s[1..], keep);
      forall k | 0 <= k < |tail|
        ensures tail[k].id != s[0].id
      {
        assert tail[k] in s[1..];
        var j :| 0 <= j < |s[1..]| && s[1..][j] == tail[k];
        assert s[j + 1] == tail[k];
      }
    }
  }
}
