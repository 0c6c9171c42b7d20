/** The admin destination endpoints
    (server/src/controllers/admin/destinationController.js). */
module AdminDestinations {
  import opened Options
  import opened Sequences
  import opened JsNumbers
  import opened JsValues
  import opened Helpers
  import opened Store

  const DestinationFields: set<string> :=
    {"name", "slug", "state", "hero_image", "short_description", "long_description", "best_time"}

  const DestinationRequired: string := "name and slug are required."
  const InvalidDestinationId: string := "Invalid destination id."
  const DestinationNotFound: string := "Destination not found."
  const NoFields: string := "No fields provided for update."

  /** Both create and update write the allow-listed fields as given. */
  function Payload(body: Object): (p: Object)
    ensures forall k :: k in p <==> k in DestinationFields && Get(body, k) != Undefined
    ensures forall k :: k in p ==> p[k] == Get(body, k)
  {
    PickFields(Obj(body), DestinationFields)
  }

  function WithDestination(t: Tables, p: Object): Tables {
    t.(destinations := [Row(t.nextDestination, p)] + t.destinations, nextDestination := t.nextDestination + 1)
  }

  /** `createDestination`: 400 when the name or slug is falsy, otherwise
      insert and answer 201 with the new row. */
  function CreateDestinationSpec(t: Tables, body: Object, faults: Faults): Outcome
  {
    var p := Payload(body);
    if !Truthy(Get(p, "name")) || !Truthy(Get(p, "slug")) then
      Outcome(ErrorResponse(400, DestinationRequired), t)
    else if InsertRow in faults then Outcome(ErrorResponse(500, faults[InsertRow]), t)
    else Outcome(DataResponse(201, Obj(AsObject(Row(t.nextDestination, p)))), WithDestination(t, p))
  }

  /** `updateDestination`: 400 for a bad id, 400 for a body without
      allow-listed fields (before any store call), 404 for an absent
      destination, otherwise the patched row. */
  function UpdateDestinationSpec(t: Tables, idParam: JsValue, body: Object, faults: Faults): Outcome
  {
    var destinationId := ParseId(idParam);
    var p := Payload(body);
    if !Truthy(destinationId) then Outcome(ErrorResponse(400, InvalidDestinationId), t)
    else if |p| == 0 then Outcome(ErrorResponse(400, NoFields), t)
    else if UpdateRow in faults then Outcome(ErrorResponse(500, faults[UpdateRow]), t)
    else match Find(t.destinations, destinationId.n)
      case None => Outcome(ErrorResponse(404, DestinationNotFound), t)
      case Some(row) =>
        Outcome(DataResponse(200, Obj(AsObject(Row(row.id, row.cols + p)))),
                t.(destinations := Patch(t.destinations, destinationId.n, p)))
  }

  /** `deleteDestination`: existence check, then delete. Packages and hotels
      of the destination are left as they are. */
  function DeleteDestinationSpec(t: Tables, idParam: JsValue, faults: Faults): Outcome
  {
    var destinationId := ParseId(idParam);
    if !Truthy(destinationId) then Outcome(ErrorResponse(400, InvalidDestinationId), t)
    else if LookupRow in faults then Outcome(ErrorResponse(500, faults[LookupRow]), t)
    else if Find(t.destinations, destinationId.n).None? then Outcome(ErrorResponse(404, DestinationNotFound), t)
    else if DeleteRow in faults then Outcome(ErrorResponse(500, faults[DeleteRow]), t)
    else Outcome(NoContent, t.(destinations := Remove(t.destinations, destinationId.n)))
  }

  function AsObjects(rows: seq<Row>): (r: seq<JsValue>)
    ensures |r| == |rows|
    ensures forall i :: 0 <= i < |rows| ==> r[i] == Obj(AsObject(rows[i]))
  {
    if |rows| == 0 then [] else [Obj(AsObject(rows[0]))] + AsObjects(rows[1..])
  }

  /** `listDestinations`: every destination, newest first. */
  function ListDestinationsSpec(t: Tables, faults: Faults): Response {
    if ReadTable in faults then ErrorResponse(500, faults[ReadTable])
    else ListResponse(AsObjects(t.destinations))
  }

  // -----------------------------------------------------------------------
  // Properties

  /** A missing name or slug is a 400 and writes nothing. */
  lemma CreateRejectsIncomplete(t: Tables, body: Object, faults: Faults)
    requires !Truthy(Get(body, "name")) || !Truthy(Get(body, "slug"))
    ensures CreateDestinationSpec(t, body, faults) == Outcome(ErrorResponse(400, DestinationRequired), t)
  {
    assert "name" in DestinationFields && "slug" in DestinationFields;
  }

  /** A created destination gets a fresh id and holds exactly the
      allow-listed fields the body supplies. */
  lemma CreateInserts(t: Tables, body: Object, faults: Faults)
    requires GoodTables(t)
    requires Truthy(Get(body, "name")) && Truthy(Get(body, "slug")) && InsertRow !in faults
    ensures var o := CreateDestinationSpec(t, body, faults);
      var key := FromInt(t.nextDestination);
      && GoodTables(o.after)
      && Find(t.destinations, key).None?
      && Find(o.after.destinations, key) == Some(Row(t.nextDestination, Payload(body)))
      && o.response.status == 201
      && o.after.packages == t.packages && o.after.hotels == t.hotels
  {
    assert "name" in DestinationFields && "slug" in DestinationFields;
    InsertKeepsTable(t.destinations, t.nextDestination, Payload(body));
  }

  /** An id that does not parse to a truthy number (text that is not a
      number, "", "0") is a 400 that touches nothing, whatever the body. */
  lemma UpdateRejectsBadId(t: Tables, idParam: JsValue, body: Object, faults: Faults)
    requires !Truthy(ParseId(idParam))
    ensures UpdateDestinationSpec(t, idParam, body, faults) == Outcome(ErrorResponse(400, InvalidDestinationId), t)
  {
  }

  /** A body with no allow-listed field is a 400 and touches nothing. */
  lemma UpdateRejectsEmpty(t: Tables, idParam: JsValue, body: Object, faults: Faults)
    requires Truthy(ParseId(idParam))
    requires forall k :: k in DestinationFields ==> Get(body, k) == Undefined
    ensures UpdateDestinationSpec(t, idParam, body, faults) == Outcome(ErrorResponse(400, NoFields), t)
  {
    assert Payload(body) == map[];
  }

  /** An update writes only the supplied fields of that one destination; an
      absent destination is a 404 that writes nothing. */
  lemma UpdateChangesOnlySupplied(t: Tables, idParam: JsValue, body: Object, faults: Faults)
    requires GoodTables(t) && Truthy(ParseId(idParam)) && UpdateRow !in faults
    requires |Payload(body)| > 0
    ensures var o := UpdateDestinationSpec(t, idParam, body, faults);
      var key := ParseId(idParam).n;
      var p := Payload(body);
      && (Find(t.destinations, key).None? ==> o == Outcome(ErrorResponse(404, DestinationNotFound), t))
      && (Find(t.destinations, key).Some? ==>
            && o.response.status == 200
            && GoodTables(o.after)
            && |o.after.destinations| == |t.destinations|
            && (forall i :: 0 <= i < |t.destinations| && !MatchesInt(key, t.destinations[i].id) ==>
                  o.after.destinations[i] == t.destinations[i])
            && (forall i :: 0 <= i < |t.destinations| && MatchesInt(key, t.destinations[i].id) ==>
                  o.after.destinations[i] == Row(t.destinations[i].id, t.destinations[i].cols + p))
            && o.after.packages == t.packages && o.after.hotels == t.hotels)
  {
    var key := ParseId(idParam).n;
    var p := Payload(body);
    if Find(t.destinations, key).Some? {
      var row := Find(t.destinations, key).value;
      var after := t.(destinations := Patch(t.destinations, key, p));
      PatchedDestinationsGood(t, key, p);
      assert UpdateDestinationSpec(t, idParam, body, faults)
          == Outcome(DataResponse(200, Obj(AsObject(Row(row.id, row.cols + p)))), after);
    }
  }

  lemma PatchedDestinationsGood(t: Tables, key: JsNum, p: Object)
    requires GoodTables(t)
    ensures var after := t.(destinations := Patch(t.destinations, key, p));
      && GoodTables(after)
      && |after.destinations| == |t.destinations|
      && (forall i :: 0 <= i < |t.destinations| && !MatchesInt(key, t.destinations[i].id) ==> after.destinations[i] == t.destinations[i])
      && (forall i :: 0 <= i < |t.destinations| && MatchesInt(key, t.destinations[i].id) ==>
            after.destinations[i] == Row(t.destinations[i].id, t.destinations[i].cols + p))
  {
    PatchRows(t.destinations, key, p);
    PatchKeepsTable(t.destinations, key, p, t.nextDestination);
  }

  /** Delete: 400 for a bad id, 404 (writing nothing) for an absent
      destination, otherwise exactly that row goes and the answer is 204. */
  lemma DeleteOutcomes(t: Tables, idParam: JsValue, faults: Faults)
    requires GoodTables(t) && LookupRow !in faults && DeleteRow !in faults
    ensures var o := DeleteDestinationSpec(t, idParam, faults);
      var destinationId := ParseId(idParam);
      && (!Truthy(destinationId) ==> o == Outcome(ErrorResponse(400, InvalidDestinationId), t))
      && (Truthy(destinationId) && Find(t.destinations, destinationId.n).None? ==>
            o == Outcome(ErrorResponse(404, DestinationNotFound), t))
      && (Truthy(destinationId) && Find(t.destinations, destinationId.n).Some? ==>
            && o.response == NoContent
            && GoodTables(o.after)
            && Find(o.after.destinations, destinationId.n).None?
            && |o.after.destinations| == |t.destinations| - 1
            && IsSubsequence(o.after.destinations, t.destinations)
            && o.after.packages == t.packages && o.after.hotels == t.hotels)
  {
    var destinationId := ParseId(idParam);
    if Truthy(destinationId) && Find(t.destinations, destinationId.n).Some? {
      RemoveFacts(t.destinations, destinationId.n, t.nextDestination);
      RemovePresentShrinks(t.destinations, destinationId.n, t.nextDestination);
    }
  }

  /** The list's metadata counts the destinations. */
  lemma ListCounts(t: Tables, faults: Faults)
    requires ReadTable !in faults
    ensures var r := ListDestinationsSpec(t, faults);
      var meta := Get(r.body.fields, "meta");
      && r.status == 200
      && Get(r.body.fields, "data") == Arr(AsObjects(t.destinations))
      && meta.Obj?
      && Get(meta.fields, "count") == IntValueOf(|t.destinations|)
      && (Get(meta.fields, "empty") == Bool(true) <==> |t.destinations| == 0)
  {
    ListMeta(AsObjects(t.destinations));
  }

  /** Whatever the body and the store failures, a create leaves every
      table with distinct ids below its counter. */
  lemma CreateKeepsTables(t: Tables, body: Object, faults: Faults)
    requires GoodTables(t)
    ensures GoodTables(CreateDestinationSpec(t, body, faults).after)
  {
    InsertKeepsTable(t.destinations, t.nextDestination, Payload(body));
  }

  /** Whatever the id, the body and the store failures, an update leaves
      every table with distinct ids below its counter. */
  lemma UpdateKeepsTables(t: Tables, idParam: JsValue, body: Object, faults: Faults)
    requires GoodTables(t)
    ensures GoodTables(UpdateDestinationSpec(t, idParam, body, faults).after)
  {
    var destinationId := ParseId(idParam);
    if Truthy(destinationId) {
      PatchKeepsTable(t.destinations, destinationId.n, Payload(body), t.nextDestination);
    }
  }

  // -----------------------------------------------------------------------
  // The handlers

  method CreateDestination(db: Database, body: Object, faults: Faults) returns (res: Response)
    requires db.Valid()
    modifies db
    ensures Outcome(res, db.Snapshot()) == CreateDestinationSpec(old(db.Snapshot()), body, faults)
    ensures db.Valid()
  {
    CreateKeepsTables(db.Snapshot(), body, faults);
    var payload := Payload(body);
    if !Truthy(Get(payload, "name")) || !Truthy(Get(payload, "slug")) {
      return ErrorResponse(400, DestinationRequired);
    }
    if InsertRow in faults {
      return ErrorResponse(500, faults[InsertRow]);
    }
    var row := db.InsertDestination(payload);
    return DataResponse(201, Obj(AsObject(row)));
  }

  method UpdateDestination(db: Database, idParam: JsValue, body: Object, faults: Faults) returns (res: Response)
    requires db.Valid()
    modifies db
    ensures Outcome(res, db.Snapshot()) == UpdateDestinationSpec(old(db.Snapshot()), idParam, body, faults)
    ensures db.Valid()
  {
    UpdateKeepsTables(db.Snapshot(), idParam, body, faults);
    var destinationId := ParseId(idParam);
    if !Truthy(destinationId) {
      return ErrorResponse(400, InvalidDestinationId);
    }
    var payload := Payload(body);
    if |payload| == 0 {
      return ErrorResponse(400, NoFields);
    }
    if UpdateRow in faults {
      return ErrorResponse(500, faults[UpdateRow]);
    }
    var found := Find(db.destinations, destinationId.n);
    if found.None? {
      return ErrorResponse(404, DestinationNotFound);
    }
    db.PatchDestination(destinationId.n, payload);
    return DataResponse(200, Obj(AsObject(Row(found.value.id, found.value.cols + payload))));
  }

  method DeleteDestination(db: Database, idParam: JsValue, faults: Faults) returns (res: Response)
    requires db.Valid()
    modifies db
    ensures db.Valid()
    ensures Outcome(res, db.Snapshot()) == DeleteDestinationSpec(old(db.Snapshot()), idParam, faults)
  {
    var destinationId := ParseId(idParam);
    if !Truthy(destinationId) {
      return ErrorResponse(400, InvalidDestinationId);
    }
    if LookupRow in faults {
      return ErrorResponse(500, faults[LookupRow]);
    }
    if Find(db.destinations, destinationId.n).None? {
      return ErrorResponse(404, DestinationNotFound);
    }
    if DeleteRow in faults {
      return ErrorResponse(500, faults[DeleteRow]);
    }
    RemoveFacts(db.destinations, destinationId.n, db.nextDestination);
    db.destinations := Remove(db.destinations, destinationId.n);
    return NoContent;
  }
}
