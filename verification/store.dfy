/** The hosted database, replaced by in-memory tables. Each table is a
    sequence of rows kept newest first (the `created_at` descending order the
    list endpoints ask for); ids are assigned from a per-table counter like a
    serial column. The join table `package_hotels` stores exactly the two
    numbers a handler sends. The store enforces no constraints: a join row may
    name a package or hotel that does not exist. */
module Store {
  import opened Options
  import opened Sequences
  import opened JsNumbers
  import opened JsValues

  datatype Row = Row(id: int, cols: Object)

  /** A `package_hotels` row. */
  datatype Link = Link(packageId: JsNum, hotelId: JsNum)

  /** What a handler sends: `res.status(status).json(body)`, or `send()`
      with no body for 204. */
  datatype Response = Response(status: int, body: JsValue)

  /** The store calls a handler makes; a request's faults say which of them
      come back with an error, and its message. */
  datatype StoreCall =
    | ReadTable | LookupRow | InsertRow | UpdateRow | DeleteRow
    | DeleteJoinRows | InsertJoinRows | FetchRelations
    | LookupDestination | LookupPackage | DestinationName | PackageName
  type Faults = map<StoreCall, string>

  /** The body the application-wide error handler sends for an exception
      (server/src/index.js:36-41). */
  const SomethingWentWrong: string := "Something went wrong."

  function ErrorResponse(status: int, message: string): (r: Response)
    ensures r.status == status && r.body.Obj? && Get(r.body.fields, "error") == Str(message)
  {
    Response(status, Obj(map["error" := Str(message)]))
  }

  function DataResponse(status: int, data: JsValue): (r: Response)
    ensures r.status == status && r.body.Obj? && Get(r.body.fields, "data") == data
  {
    Response(status, Obj(map["data" := data]))
  }

  const NoContent: Response := Response(204, Undefined)

  /** `res.json({ data: rows, meta: { count, empty } })` of the list
      endpoints. */
  function ListResponse(rows: seq<JsValue>): (r: Response)
    ensures r.status == 200 && r.body.Obj?
    ensures Get(r.body.fields, "data") == Arr(rows)
  {
    Response(200, Obj(map["data" := Arr(rows), "meta" := Meta(|rows|)]))
  }

  function Meta(count: nat): JsValue {
    Obj(map["count" := IntValueOf(count), "empty" := Bool(count == 0)])
  }

  /** The metadata counts the rows sent, and is empty exactly when none is. */
  lemma ListMeta(rows: seq<JsValue>)
    ensures var meta := Get(ListResponse(rows).body.fields, "meta");
      && meta.Obj?
      && Get(meta.fields, "count") == IntValueOf(|rows|)
      && (Get(meta.fields, "empty") == Bool(true) <==> |rows| == 0)
  {
  }

  /** A row as `select("*")` returns it: its columns and its id. */
  function AsObject(r: Row): (o: Object)
    ensures Get(o, "id") == IntValueOf(r.id)
    ensures forall k :: k != "id" ==> Get(o, k) == Get(r.cols, k)
  {
    r.cols["id" := IntValueOf(r.id)]
  }

  // -----------------------------------------------------------------------
  // Tables

  /** A row as `select("*, destinations(id, name, slug)")` returns it: the
      row with its destination's id, name and slug embedded, or `null` when
      its `destination_id` names no destination. */
  function EmbedDestination(destinations: seq<Row>, row: Row): JsValue {
    var ref := Get(row.cols, "destination_id");
    var embedded :=
      if !ref.Num? then Null
      else match Find(destinations, ref.n)
        case None => Null
        case Some(d) => Obj(map["id" := IntValueOf(d.id), "name" := Get(d.cols, "name"), "slug" := Get(d.cols, "slug")]);
    Obj(AsObject(row)["destinations" := embedded])
  }

  function EmbedDestinations(destinations: seq<Row>, rows: seq<Row>): (r: seq<JsValue>)
    ensures |r| == |rows|
    ensures forall i :: 0 <= i < |rows| ==> r[i] == EmbedDestination(destinations, rows[i])
  {
    if |rows| == 0 then [] else [EmbedDestination(destinations, rows[0])] + EmbedDestinations(destinations, rows[1..])
  }

  /** Ids are positive, below the counter and distinct. */
  ghost predicate GoodTable(rows: seq<Row>, next: int) {
    && (forall i :: 0 <= i < |rows| ==> 1 <= rows[i].id < next)
    && (forall i, j :: 0 <= i < j < |rows| ==> rows[i].id != rows[j].id)
  }

  /** `.eq("id", key)`: the first row whose id equals the key. */
  function Find(rows: seq<Row>, key: JsNum): (r: Option<Row>)
    ensures r.Some? ==> r.value in rows && MatchesInt(key, r.value.id)
    ensures r.None? <==> forall i :: 0 <= i < |rows| ==> !MatchesInt(key, rows[i].id)
  {
    if |rows| == 0 then None
    else if MatchesInt(key, rows[0].id) then Some(rows[0])
    else Find(rows[1..], key)
  }

  /** `.delete().eq("id", key)`: every row with that id goes. */
  function Remove(rows: seq<Row>, key: JsNum): (r: seq<Row>)
    ensures forall x :: x in r <==> x in rows && !MatchesInt(key, x.id)
  {
    if |rows| == 0 then []
    else if MatchesInt(key, rows[0].id) then Remove(rows[1..], key)
    else [rows[0]] + Remove(rows[1..], key)
  }

  /** `.update(patch).eq("id", key)`: the matching rows take the patch's
      values, key by key; their other columns stay. */
  function Patch(rows: seq<Row>, key: JsNum, patch: Object): (r: seq<Row>)
    ensures |r| == |rows|
    ensures forall i :: 0 <= i < |rows| ==> r[i].id == rows[i].id
  {
    if |rows| == 0 then []
    else
      var head := if MatchesInt(key, rows[0].id) then Row(rows[0].id, rows[0].cols + patch) else rows[0];
      [head] + Patch(rows[1..], key, patch)
  }

  /** Two ids a key matches are the same id. */
  lemma KeyMatchesOneId(key: JsNum, a: int, b: int)
    requires MatchesInt(key, a) && MatchesInt(key, b)
    ensures a == b
  {
    assert Normalize(FromInt(a)) == FromInt(a);
    assert Normalize(FromInt(b)) == FromInt(b);
  }

  /** The key of one integer matches no other integer. */
  lemma IntKeysDiffer(a: int, b: int)
    requires a != b
    ensures !MatchesInt(FromInt(a), b)
  {
    assert Normalize(FromInt(a)) == FromInt(a);
    assert Normalize(FromInt(b)) == FromInt(b);
  }

  /** A fresh id above every existing one keeps the table well formed. */
  lemma InsertKeepsTable(rows: seq<Row>, next: int, cols: Object)
    requires GoodTable(rows, next) && next >= 1
    ensures GoodTable([Row(next, cols)] + rows, next + 1)
  {
  }

  /** The next serial id is not taken, and the row inserted under it is
      the one found for it. */
  lemma InsertedRowFresh(rows: seq<Row>, next: int, cols: Object)
    requires GoodTable(rows, next) && next >= 1
    ensures Find(rows, FromInt(next)).None?
    ensures GoodTable([Row(next, cols)] + rows, next + 1)
    ensures Find([Row(next, cols)] + rows, FromInt(next)) == Some(Row(next, cols))
  {
    InsertKeepsTable(rows, next, cols);
    forall i | 0 <= i < |rows| ensures !MatchesInt(FromInt(next), rows[i].id) {
      IntKeysDiffer(next, rows[i].id);
    }
    assert MatchesInt(FromInt(next), next);
  }

  /** Removing keeps exactly the rows with other ids, in their order. */
  lemma RemoveFacts(rows: seq<Row>, key: JsNum, next: int)
    requires GoodTable(rows, next)
    ensures GoodTable(Remove(rows, key), next)
    ensures IsSubsequence(Remove(rows, key), rows)
    ensures Find(Remove(rows, key), key).None?
  {
    RemoveKeepsTable(rows, key, next);
    RemoveIsSubsequence(rows, key);
  }

  lemma {:induction false} RemoveIsSubsequence(rows: seq<Row>, key: JsNum)
    ensures IsSubsequence(Remove(rows, key), rows)
  {
    if |rows| > 0 {
      RemoveIsSubsequence(rows[1..], key);
      if !MatchesInt(key, rows[0].id) {
        assert ([rows[0]] + Remove(rows[1..], key))[1..] == Remove(rows[1..], key);
      }
    }
  }

  lemma {:induction false} RemoveKeepsTable(rows: seq<Row>, key: JsNum, next: int)
    requires GoodTable(rows, next)
    ensures GoodTable(Remove(rows, key), next)
  {
    if |rows| > 0 {
      assert GoodTable(rows[1..], next);
      RemoveKeepsTable(rows[1..], key, next);
      var tail := Remove(rows[1..], key);
      if !MatchesInt(key, rows[0].id) {
        forall j | 0 <= j < |tail| ensures tail[j].id != rows[0].id {
          HeadIdUnique(rows, next, tail[j]);
        }
        ConsKeepsTable(rows[0], tail, next);
      }
    }
  }

  /** No later row shares the first row's id. */
  lemma HeadIdUnique(rows: seq<Row>, next: int, x: Row)
    requires GoodTable(rows, next) && |rows| > 0 && x in rows[1..]
    ensures x.id != rows[0].id
  {
    var k :| 0 <= k < |rows[1..]| && rows[1..][k] == x;
    assert rows[k + 1] == x;
  }

  lemma ConsKeepsTable(x: Row, tail: seq<Row>, next: int)
    requires GoodTable(tail, next) && 1 <= x.id < next
    requires forall j :: 0 <= j < |tail| ==> tail[j].id != x.id
    ensures GoodTable([x] + tail, next)
  {
    var r := [x] + tail;
    assert forall i :: 0 < i < |r| ==> r[i] == tail[i - 1];
  }

  /** Removing an id that is present drops exactly one row. */
  lemma {:induction false} RemovePresentShrinks(rows: seq<Row>, key: JsNum, next: int)
    requires GoodTable(rows, next) && Find(rows, key).Some?
    ensures |Remove(rows, key)| == |rows| - 1
  {
    if !MatchesInt(key, rows[0].id) {
      assert GoodTable(rows[1..], next);
      RemovePresentShrinks(rows[1..], key, next);
    } else {
      RemoveNone(rows[1..], key);
    }
  }

  lemma {:induction false} RemoveNone(rows: seq<Row>, key: JsNum)
    requires forall i :: 0 <= i < |rows| ==> !MatchesInt(key, rows[i].id)
    ensures Remove(rows, key) == rows
  {
    if |rows| > 0 {
      RemoveNone(rows[1..], key);
      assert [rows[0]] + rows[1..] == rows;
    }
  }

  /** Patching changes only the row with that id, and only in the patched
      columns; the ids, and so the table's shape, stay. */
  lemma PatchFacts(rows: seq<Row>, key: JsNum, patch: Object, next: int)
    requires GoodTable(rows, next)
    ensures GoodTable(Patch(rows, key, patch), next)
    ensures forall i :: 0 <= i < |rows| && !MatchesInt(key, rows[i].id) ==> Patch(rows, key, patch)[i] == rows[i]
    ensures forall i :: 0 <= i < |rows| && MatchesInt(key, rows[i].id) ==>
              Patch(rows, key, patch)[i].cols == rows[i].cols + patch
    ensures Find(Patch(rows, key, patch), key).Some? <==> Find(rows, key).Some?
  {
    PatchKeepsTable(rows, key, patch, next);
    PatchRows(rows, key, patch);
  }

  lemma PatchKeepsTable(rows: seq<Row>, key: JsNum, patch: Object, next: int)
    requires GoodTable(rows, next)
    ensures GoodTable(Patch(rows, key, patch), next)
  {
  }

  lemma {:induction false} PatchRows(rows: seq<Row>, key: JsNum, patch: Object)
    ensures forall i :: 0 <= i < |rows| && !MatchesInt(key, rows[i].id) ==> Patch(rows, key, patch)[i] == rows[i]
    ensures forall i :: 0 <= i < |rows| && MatchesInt(key, rows[i].id) ==>
              Patch(rows, key, patch)[i].cols == rows[i].cols + patch
    ensures Find(Patch(rows, key, patch), key).Some? <==> Find(rows, key).Some?
  {
    if |rows| > 0 {
      PatchRows(rows[1..], key, patch);
      var r := Patch(rows, key, patch);
      assert r[1..] == Patch(rows[1..], key, patch);
      forall i | 0 < i < |rows| ensures r[i] == Patch(rows[1..], key, patch)[i - 1] && rows[i] == rows[1..][i - 1] {
      }
    }
  }

  // -----------------------------------------------------------------------
  // The join table

  predicate OfPackage(key: JsNum, l: Link) {
    SameNumber(l.packageId, key)
  }

  /** `.eq("package_id", key)` on `package_hotels`. */
  function LinksOf(links: seq<Link>, key: JsNum): (r: seq<Link>)
    ensures forall i :: 0 <= i < |r| ==> OfPackage(key, r[i])
    ensures forall l :: l in r <==> l in links && OfPackage(key, l)
  {
    if |links| == 0 then []
    else if OfPackage(key, links[0]) then [links[0]] + LinksOf(links[1..], key)
    else LinksOf(links[1..], key)
  }

  /** `.delete().eq("package_id", key)` on `package_hotels`. */
  function RemoveLinks(links: seq<Link>, key: JsNum): (r: seq<Link>)
    ensures |r| <= |links|
  {
    if |links| == 0 then []
    else if OfPackage(key, links[0]) then RemoveLinks(links[1..], key)
    else [links[0]] + RemoveLinks(links[1..], key)
  }

  /** The delete keeps exactly the join rows of other packages. */
  lemma {:induction false} RemoveLinksMembers(links: seq<Link>, key: JsNum, l: Link)
    ensures l in RemoveLinks(links, key) <==> l in links && !OfPackage(key, l)
  {
    if |links| > 0 {
      RemoveLinksMembers(links[1..], key, l);
      assert links == [links[0]] + links[1..];
    }
  }

  /** The rows `hotelIds.map((hotelId) => ({ package_id, hotel_id }))`. */
  function MakeLinks(packageId: JsNum, hotelIds: seq<JsNum>): (r: seq<Link>)
    ensures |r| == |hotelIds|
    ensures forall i :: 0 <= i < |r| ==> r[i].packageId == packageId && r[i].hotelId == hotelIds[i]
  {
    if |hotelIds| == 0 then [] else [Link(packageId, hotelIds[0])] + MakeLinks(packageId, hotelIds[1..])
  }

  /** Delete every join row of the package, then add the new ones. */
  function ReplaceLinks(links: seq<Link>, key: JsNum, hotelIds: seq<JsNum>): seq<Link>
  {
    RemoveLinks(links, key) + MakeLinks(key, hotelIds)
  }

  lemma {:induction false} LinksOfAppend(a: seq<Link>, b: seq<Link>, key: JsNum)
    ensures LinksOf(a + b, key) == LinksOf(a, key) + LinksOf(b, key)
  {
    if |a| > 0 {
      LinksOfAppend(a[1..], b, key);
      assert (a + b)[1..] == a[1..] + b;
      if OfPackage(key, a[0]) {
        var x := [a[0]];
        assert x + (LinksOf(a[1..], key) + LinksOf(b, key)) == (x + LinksOf(a[1..], key)) + LinksOf(b, key);
      }
    } else {
      assert a + b == b;
    }
  }

  lemma {:induction false} RemoveLinksAppend(a: seq<Link>, b: seq<Link>, key: JsNum)
    ensures RemoveLinks(a + b, key) == RemoveLinks(a, key) + RemoveLinks(b, key)
  {
    if |a| > 0 {
      RemoveLinksAppend(a[1..], b, key);
      assert (a + b)[1..] == a[1..] + b;
      if !OfPackage(key, a[0]) {
        var x := [a[0]];
        assert x + (RemoveLinks(a[1..], key) + RemoveLinks(b, key)) == (x + RemoveLinks(a[1..], key)) + RemoveLinks(b, key);
      }
    } else {
      assert a + b == b;
    }
  }

  lemma {:induction false} LinksOfRemoved(links: seq<Link>, key: JsNum, other: JsNum)
    ensures LinksOf(RemoveLinks(links, key), other) ==
            if SameNumber(key, other) then [] else LinksOf(links, other)
  {
    if |links| > 0 {
      LinksOfRemoved(links[1..], key, other);
      if SameNumber(key, other) {
        if !OfPackage(key, links[0]) {
          assert !OfPackage(other, links[0]);
        }
      } else if OfPackage(key, links[0]) {
        assert !OfPackage(other, links[0]);
      }
    }
  }

  lemma {:induction false} LinksOfMade(key: JsNum, hotelIds: seq<JsNum>, other: JsNum)
    requires key.Finite?
    ensures LinksOf(MakeLinks(key, hotelIds), other) ==
            if SameNumber(key, other) then MakeLinks(key, hotelIds) else []
  {
    if |hotelIds| > 0 {
      LinksOfMade(key, hotelIds[1..], other);
    }
  }

  lemma {:induction false} RemoveLinksOfOwn(key: JsNum, hotelIds: seq<JsNum>)
    requires key.Finite?
    ensures RemoveLinks(MakeLinks(key, hotelIds), key) == []
  {
    if |hotelIds| > 0 {
      RemoveLinksOfOwn(key, hotelIds[1..]);
    }
  }

  lemma {:induction false} RemoveLinksTwice(links: seq<Link>, key: JsNum)
    ensures RemoveLinks(RemoveLinks(links, key), key) == RemoveLinks(links, key)
  {
    if |links| > 0 {
      RemoveLinksTwice(links[1..], key);
    }
  }

  /** After the replacement the package's join rows are exactly the new
      list, in order, and every other package keeps its join rows. */
  lemma ReplaceLinksExact(links: seq<Link>, key: JsNum, hotelIds: seq<JsNum>, other: JsNum)
    requires key.Finite?
    ensures LinksOf(ReplaceLinks(links, key, hotelIds), key) == MakeLinks(key, hotelIds)
    ensures !SameNumber(key, other) ==>
              LinksOf(ReplaceLinks(links, key, hotelIds), other) == LinksOf(links, other)
  {
    LinksOfAppend(RemoveLinks(links, key), MakeLinks(key, hotelIds), key);
    LinksOfRemoved(links, key, key);
    LinksOfMade(key, hotelIds, key);
    LinksOfAppend(RemoveLinks(links, key), MakeLinks(key, hotelIds), other);
    LinksOfRemoved(links, key, other);
    LinksOfMade(key, hotelIds, other);
  }

  /** Replacing with the same list twice is replacing once. */
  lemma ReplaceLinksIdempotent(links: seq<Link>, key: JsNum, hotelIds: seq<JsNum>)
    requires key.Finite?
    ensures ReplaceLinks(ReplaceLinks(links, key, hotelIds), key, hotelIds) == ReplaceLinks(links, key, hotelIds)
  {
    RemoveLinksAppend(RemoveLinks(links, key), MakeLinks(key, hotelIds), key);
    RemoveLinksTwice(links, key);
    RemoveLinksOfOwn(key, hotelIds);
    assert RemoveLinks(links, key) + [] == RemoveLinks(links, key);
  }

  /** With the empty list the package has no join rows left. */
  lemma ReplaceWithNothingClears(links: seq<Link>, key: JsNum)
    requires key.Finite?
    ensures LinksOf(ReplaceLinks(links, key, []), key) == []
  {
    ReplaceLinksExact(links, key, [], key);
  }

  // -----------------------------------------------------------------------
  // The database

  /** The content of every table, with the next id of each serial column. */
  datatype Tables = Tables(
    destinations: seq<Row>, packages: seq<Row>, hotels: seq<Row>, leads: seq<Row>,
    links: seq<Link>,
    nextDestination: int, nextPackage: int, nextHotel: int, nextLead: int)

  ghost predicate GoodTables(t: Tables) {
    && t.nextDestination >= 1 && t.nextPackage >= 1 && t.nextHotel >= 1 && t.nextLead >= 1
    && GoodTable(t.destinations, t.nextDestination)
    && GoodTable(t.packages, t.nextPackage)
    && GoodTable(t.hotels, t.nextHotel)
    && GoodTable(t.leads, t.nextLead)
  }

  /** What a request does: the response it sends and the tables it leaves. */
  datatype Outcome = Outcome(response: Response, after: Tables)

  class Database {
    var destinations: seq<Row>
    var packages: seq<Row>
    var hotels: seq<Row>
    var leads: seq<Row>
    var links: seq<Link>
    var nextDestination: int
    var nextPackage: int
    var nextHotel: int
    var nextLead: int

    function Snapshot(): Tables
      reads this
    {
      Tables(destinations, packages, hotels, leads, links,
             nextDestination, nextPackage, nextHotel, nextLead)
    }

    ghost predicate Valid()
      reads this
    {
      GoodTables(Snapshot())
    }

    constructor ()
      ensures Valid()
      ensures Snapshot() == Tables([], [], [], [], [], 1, 1, 1, 1)
    {
      destinations := [];
      packages := [];
      hotels := [];
      leads := [];
      links := [];
      nextDestination := 1;
      nextPackage := 1;
      nextHotel := 1;
      nextLead := 1;
    }

    /** `.from("leads").insert([cols]).select("*").single()`: the new row
        takes the next serial id and goes in front of the older leads. */
    method InsertLead(cols: Object) returns (row: Row)
      requires Valid()
      modifies this
      ensures Valid()
      ensures row == Row(old(nextLead), cols)
      ensures Snapshot() == old(Snapshot()).(leads := [row] + old(leads), nextLead := old(nextLead) + 1)
    {
      row := Row(nextLead, cols);
      InsertKeepsTable(leads, nextLead, cols);
      leads := [row] + leads;
      nextLead := nextLead + 1;
    }

    /** `.from("destinations").insert([cols]).select("*").single()`. */
    method InsertDestination(cols: Object) returns (row: Row)
      modifies this
      ensures row == Row(old(nextDestination), cols)
      ensures Snapshot() == old(Snapshot()).(destinations := [row] + old(destinations), nextDestination := old(nextDestination) + 1)
    {
      row := Row(nextDestination, cols);
      destinations, nextDestination := [row] + destinations, nextDestination + 1;
    }

    /** `.from("destinations").update(patch).eq("id", key)`. */
    method PatchDestination(key: JsNum, patch: Object)
      modifies this
      ensures Snapshot() == old(Snapshot()).(destinations := Patch(old(destinations), key, patch))
    {
      destinations := Patch(destinations, key, patch);
    }

    /** `.from("hotels").insert([cols]).select("*").single()`. */
    method InsertHotel(cols: Object) returns (row: Row)
      modifies this
      ensures row == Row(old(nextHotel), cols)
      ensures Snapshot() == old(Snapshot()).(hotels := [row] + old(hotels), nextHotel := old(nextHotel) + 1)
    {
      row := Row(nextHotel, cols);
      hotels, nextHotel := [row] + hotels, nextHotel + 1;
    }

    /** `.from("hotels").update(patch).eq("id", key)`. */
    method PatchHotel(key: JsNum, patch: Object)
      modifies this
      ensures Snapshot() == old(Snapshot()).(hotels := Patch(old(hotels), key, patch))
    {
      hotels := Patch(hotels, key, patch);
    }

    /** `.from("packages").insert([cols]).select("id").single()`. */
    method InsertPackage(cols: Object) returns (row: Row)
      modifies this
      ensures row == Row(old(nextPackage), cols)
      ensures Snapshot() == old(Snapshot()).(packages := [row] + old(packages), nextPackage := old(nextPackage) + 1)
    {
      row := Row(nextPackage, cols);
      packages, nextPackage := [row] + packages, nextPackage + 1;
    }

    /** `.from("packages").update(patch).eq("id", key)`. */
    method PatchPackage(key: JsNum, patch: Object)
      modifies this
      ensures Snapshot() == old(Snapshot()).(packages := Patch(old(packages), key, patch))
    {
      packages := Patch(packages, key, patch);
    }

    /** `.from("package_hotels").insert(rows)`: the join rows go after the
        existing ones. */
    method AppendLinks(rows: seq<Link>)
      modifies this
      ensures Snapshot() == old(Snapshot()).(links := old(links) + rows)
    {
      links := links + rows;
    }

    /** `.from("package_hotels").delete().eq("package_id", key)`. */
    method DeleteLinks(key: JsNum)
      modifies this
      ensures Snapshot() == old(Snapshot()).(links := RemoveLinks(old(links), key))
    {
      links := RemoveLinks(links, key);
    }
  }
}
