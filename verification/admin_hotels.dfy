/** The admin hotel endpoints (server/src/controllers/admin/hotelController.js). */
module AdminHotels {
  import opened Options
  import opened Sequences
  import opened JsNumbers
  import opened JsValues
  import opened Helpers
  import opened Store

  const HotelFields: set<string> :=
    {"destination_id", "name", "slug", "star_rating", "price_per_night",
     "summary", "amenities", "address", "cover_image"}

  const HotelRequired: string := "name, slug and destination_id are required for hotels."
  const InvalidHotelId: string := "Invalid hotel id."
  const HotelNotFound: string := "Hotel not found."
  const NoFields: string := "No fields provided for update."

  /** `parseId` for the destination, `v ? Number(v) : null` for the rating
      and the price, `normalizeArray` for the amenities; other fields pass
      unchanged. */
  function CoerceHotelField(k: string, v: JsValue): JsValue {
    if k == "destination_id" then ParseId(v)
    else if k == "star_rating" || k == "price_per_night" then NumberOrNull(v)
    else if k == "amenities" then Arr(NormalizeArray(v))
    else v
  }

  predicate AlwaysWritten(k: string) {
    k == "destination_id" || k == "star_rating" || k == "price_per_night" || k == "amenities"
  }

  /** The insert payload of `createHotel`: the allow-listed keys the body
      defines, plus the four coerced ones, which are always written. */
  function CreatePayload(body: Object): (p: Object)
    ensures forall k :: k in p <==> k in HotelFields && (Get(body, k) != Undefined || AlwaysWritten(k))
    ensures forall k :: k in p ==> p[k] == CoerceHotelField(k, Get(body, k))
  {
    var picked := PickFields(Obj(body), HotelFields);
    map k | k in HotelFields && (k in picked || AlwaysWritten(k)) :: CoerceHotelField(k, Get(picked, k))
  }

  /** The update payload of `updateHotel`: coercion only for the keys the
      body supplies. */
  function UpdatePayload(body: Object): (p: Object)
    ensures forall k :: k in p <==> k in HotelFields && Get(body, k) != Undefined
    ensures forall k :: k in p ==> p[k] == CoerceHotelField(k, Get(body, k))
  {
    var picked := PickFields(Obj(body), HotelFields);
    map k | k in picked :: CoerceHotelField(k, picked[k])
  }

  /** What each column of a created hotel holds. */
  lemma CreatePayloadColumns(body: Object)
    ensures var p := CreatePayload(body);
      && Get(p, "destination_id") == ParseId(Get(body, "destination_id"))
      && Get(p, "star_rating") == NumberOrNull(Get(body, "star_rating"))
      && Get(p, "price_per_night") == NumberOrNull(Get(body, "price_per_night"))
      && Get(p, "amenities") == Arr(NormalizeArray(Get(body, "amenities")))
      && Get(p, "name") == Get(body, "name") && Get(p, "slug") == Get(body, "slug")
  {
    assert "destination_id" in HotelFields && "star_rating" in HotelFields;
    assert "price_per_night" in HotelFields && "amenities" in HotelFields;
  }

  // -----------------------------------------------------------------------
  // The handlers as specifications

  function WithHotel(t: Tables, p: Object): Tables {
    t.(hotels := [Row(t.nextHotel, p)] + t.hotels, nextHotel := t.nextHotel + 1)
  }

  /** `createHotel`: 400 before any store call when the name, slug or
      parsed destination id is falsy; otherwise insert and answer 201 with
      the new row. */
  function CreateHotelSpec(t: Tables, body: Object, faults: Faults): Outcome
  {
    var p := CreatePayload(body);
    if !Truthy(Get(p, "name")) || !Truthy(Get(p, "slug")) || !Truthy(Get(p, "destination_id")) then
      Outcome(ErrorResponse(400, HotelRequired), t)
    else if InsertRow in faults then Outcome(ErrorResponse(500, faults[InsertRow]), t)
    else Outcome(DataResponse(201, Obj(AsObject(Row(t.nextHotel, p)))), WithHotel(t, p))
  }

  /** `updateHotel`: 400 for a bad id, 400 for a body without allow-listed
      fields (before any store call), 404 for an absent hotel, otherwise
      the patched row. */
  function UpdateHotelSpec(t: Tables, idParam: JsValue, body: Object, faults: Faults): Outcome
  {
    var hotelId := ParseId(idParam);
    var p := UpdatePayload(body);
    if !Truthy(hotelId) then Outcome(ErrorResponse(400, InvalidHotelId), t)
    else if |p| == 0 then Outcome(ErrorResponse(400, NoFields), t)
    else if UpdateRow in faults then Outcome(ErrorResponse(500, faults[UpdateRow]), t)
    else match Find(t.hotels, hotelId.n)
      case None => Outcome(ErrorResponse(404, HotelNotFound), t)
      case Some(row) =>
        Outcome(DataResponse(200, Obj(AsObject(Row(row.id, row.cols + p)))),
                t.(hotels := Patch(t.hotels, hotelId.n, p)))
  }

  /** `deleteHotel`: existence check, then delete. */
  function DeleteHotelSpec(t: Tables, idParam: JsValue, faults: Faults): Outcome
  {
    var hotelId := ParseId(idParam);
    if !Truthy(hotelId) then Outcome(ErrorResponse(400, InvalidHotelId), t)
    else if LookupRow in faults then Outcome(ErrorResponse(500, faults[LookupRow]), t)
    else if Find(t.hotels, hotelId.n).None? then Outcome(ErrorResponse(404, HotelNotFound), t)
    else if DeleteRow in faults then Outcome(ErrorResponse(500, faults[DeleteRow]), t)
    else Outcome(NoContent, t.(hotels := Remove(t.hotels, hotelId.n)))
  }

  /** `listHotels`: every hotel, newest first, with its destination. */
  function ListHotelsSpec(t: Tables, faults: Faults): Response {
    if ReadTable in faults then ErrorResponse(500, faults[ReadTable])
    else ListResponse(EmbedDestinations(t.destinations, t.hotels))
  }

  // -----------------------------------------------------------------------
  // Properties

  /** A missing name or slug, or a destination id that parses to nothing or
      0, is a 400 and writes nothing. */
  lemma CreateRejectsIncomplete(t: Tables, body: Object, faults: Faults)
    requires !Truthy(Get(body, "name")) || !Truthy(Get(body, "slug"))
             || !Truthy(ParseId(Get(body, "destination_id")))
    ensures CreateHotelSpec(t, body, faults) == Outcome(ErrorResponse(400, HotelRequired), t)
  {
    CreatePayloadColumns(body);
  }

  /** A created hotel gets a fresh id, holds only allow-listed columns,
      and is answered with 201. */
  lemma CreateInserts(t: Tables, body: Object, faults: Faults)
    requires GoodTables(t)
    requires Truthy(Get(body, "name")) && Truthy(Get(body, "slug"))
             && Truthy(ParseId(Get(body, "destination_id")))
    requires InsertRow !in faults
    ensures var o := CreateHotelSpec(t, body, faults);
      var key := FromInt(t.nextHotel);
      && GoodTables(o.after)
      && Find(t.hotels, key).None?
      && Find(o.after.hotels, key) == Some(Row(t.nextHotel, CreatePayload(body)))
      && (forall k :: k in CreatePayload(body) ==> k in HotelFields)
      && o.response.status == 201
      && o.after.packages == t.packages && o.after.links == t.links
  {
    var p := CreatePayload(body);
    CreatePayloadColumns(body);
    assert CreateHotelSpec(t, body, faults) == Outcome(DataResponse(201, Obj(AsObject(Row(t.nextHotel, p)))), WithHotel(t, p));
    InsertedHotelFresh(t, p);
  }

  /** The serial id is fresh, and the new row is found under it. */
  lemma InsertedHotelFresh(t: Tables, p: Object)
    requires GoodTables(t)
    ensures Find(t.hotels, FromInt(t.nextHotel)).None?
    ensures GoodTables(WithHotel(t, p))
    ensures Find(WithHotel(t, p).hotels, FromInt(t.nextHotel)) == Some(Row(t.nextHotel, p))
  {
    InsertedRowFresh(t.hotels, t.nextHotel, p);
  }

  /** An id that does not parse to a truthy number (text that is not a
      number, "", "0") is a 400 that touches nothing, whatever the body. */
  lemma UpdateRejectsBadId(t: Tables, idParam: JsValue, body: Object, faults: Faults)
    requires !Truthy(ParseId(idParam))
    ensures UpdateHotelSpec(t, idParam, body, faults) == Outcome(ErrorResponse(400, InvalidHotelId), t)
  {
  }

  /** A body with no allow-listed field is a 400 and touches nothing. */
  lemma UpdateRejectsEmpty(t: Tables, idParam: JsValue, body: Object, faults: Faults)
    requires Truthy(ParseId(idParam))
    requires forall k :: k in HotelFields ==> Get(body, k) == Undefined
    ensures UpdateHotelSpec(t, idParam, body, faults) == Outcome(ErrorResponse(400, NoFields), t)
  {
    assert UpdatePayload(body) == map[];
  }

  /** An update changes only the supplied columns of that one hotel; an
      absent hotel is a 404 that writes nothing. */
  lemma UpdateChangesOnlySupplied(t: Tables, idParam: JsValue, body: Object, faults: Faults)
    requires GoodTables(t) && Truthy(ParseId(idParam)) && UpdateRow !in faults
    requires |UpdatePayload(body)| > 0
    ensures var o := UpdateHotelSpec(t, idParam, body, faults);
      var key := ParseId(idParam).n;
      var p := UpdatePayload(body);
      && (Find(t.hotels, key).None? ==> o == Outcome(ErrorResponse(404, HotelNotFound), t))
      && (Find(t.hotels, key).Some? ==>
            && o.response.status == 200
            && GoodTables(o.after)
            && |o.after.hotels| == |t.hotels|
            && (forall i :: 0 <= i < |t.hotels| && !MatchesInt(key, t.hotels[i].id) ==>
                  o.after.hotels[i] == t.hotels[i])
            && (forall i :: 0 <= i < |t.hotels| && MatchesInt(key, t.hotels[i].id) ==>
                  o.after.hotels[i] == Row(t.hotels[i].id, t.hotels[i].cols + p))
            && o.after.destinations == t.destinations && o.after.packages == t.packages)
  {
    var key := ParseId(idParam).n;
    var p := UpdatePayload(body);
    if Find(t.hotels, key).Some? {
      var row := Find(t.hotels, key).value;
      var after := t.(hotels := Patch(t.hotels, key, p));
      PatchedHotelsGood(t, key, p);
      assert UpdateHotelSpec(t, idParam, body, faults)
          == Outcome(DataResponse(200, Obj(AsObject(Row(row.id, row.cols + p)))), after);
    }
  }

  lemma PatchedHotelsGood(t: Tables, key: JsNum, p: Object)
    requires GoodTables(t)
    ensures var after := t.(hotels := Patch(t.hotels, key, p));
      && GoodTables(after)
      && |after.hotels| == |t.hotels|
      && (forall i :: 0 <= i < |t.hotels| && !MatchesInt(key, t.hotels[i].id) ==> after.hotels[i] == t.hotels[i])
      && (forall i :: 0 <= i < |t.hotels| && MatchesInt(key, t.hotels[i].id) ==>
            after.hotels[i] == Row(t.hotels[i].id, t.hotels[i].cols + p))
  {
    PatchRows(t.hotels, key, p);
    PatchKeepsTable(t.hotels, key, p, t.nextHotel);
  }

  /** Delete: 400 for a bad id, 404 (writing nothing) for an absent hotel,
      otherwise exactly that row goes and the answer is 204. */
  lemma DeleteOutcomes(t: Tables, idParam: JsValue, faults: Faults)
    requires GoodTables(t) && LookupRow !in faults && DeleteRow !in faults
    ensures var o := DeleteHotelSpec(t, idParam, faults);
      var hotelId := ParseId(idParam);
      && (!Truthy(hotelId) ==> o == Outcome(ErrorResponse(400, InvalidHotelId), t))
      && (Truthy(hotelId) && Find(t.hotels, hotelId.n).None? ==>
            o == Outcome(ErrorResponse(404, HotelNotFound), t))
      && (Truthy(hotelId) && Find(t.hotels, hotelId.n).Some? ==>
            && o.response == NoContent
            && GoodTables(o.after)
            && Find(o.after.hotels, hotelId.n).None?
            && |o.after.hotels| == |t.hotels| - 1
            && IsSubsequence(o.after.hotels, t.hotels))
  {
    var hotelId := ParseId(idParam);
    if Truthy(hotelId) && Find(t.hotels, hotelId.n).Some? {
      RemoveFacts(t.hotels, hotelId.n, t.nextHotel);
      RemovePresentShrinks(t.hotels, hotelId.n, t.nextHotel);
    }
  }

  /** The list sends one entry per hotel, in table order, each with its
      embedded destination, and its metadata counts them. */
  lemma ListCounts(t: Tables, faults: Faults)
    requires ReadTable !in faults
    ensures var r := ListHotelsSpec(t, faults);
      var meta := Get(r.body.fields, "meta");
      && r.status == 200
      && Get(r.body.fields, "data") == Arr(EmbedDestinations(t.destinations, t.hotels))
      && meta.Obj?
      && Get(meta.fields, "count") == IntValueOf(|t.hotels|)
      && (Get(meta.fields, "empty") == Bool(true) <==> |t.hotels| == 0)
  {
    ListMeta(EmbedDestinations(t.destinations, t.hotels));
  }

  /** Whatever the body and the store failures, a create leaves every
      table with distinct ids below its counter. */
  lemma CreateKeepsTables(t: Tables, body: Object, faults: Faults)
    requires GoodTables(t)
    ensures GoodTables(CreateHotelSpec(t, body, faults).after)
  {
    InsertKeepsTable(t.hotels, t.nextHotel, CreatePayload(body));
  }

  /** Whatever the id, the body and the store failures, an update leaves
      every table with distinct ids below its counter. */
  lemma UpdateKeepsTables(t: Tables, idParam: JsValue, body: Object, faults: Faults)
    requires GoodTables(t)
    ensures GoodTables(UpdateHotelSpec(t, idParam, body, faults).after)
  {
    var hotelId := ParseId(idParam);
    if Truthy(hotelId) {
      PatchKeepsTable(t.hotels, hotelId.n, UpdatePayload(body), t.nextHotel);
    }
  }

  // -----------------------------------------------------------------------
  // The handlers

  method CreateHotel(db: Database, body: Object, faults: Faults) returns (res: Response)
    requires db.Valid()
    modifies db
    ensures Outcome(res, db.Snapshot()) == CreateHotelSpec(old(db.Snapshot()), body, faults)
    ensures db.Valid()
  {
    CreateKeepsTables(db.Snapshot(), body, faults);
    ghost var t := db.Snapshot();
    var payload := CreatePayload(body);
    if !Truthy(Get(payload, "name")) || !Truthy(Get(payload, "slug")) || !Truthy(Get(payload, "destination_id")) {
      return ErrorResponse(400, HotelRequired);
    }
    if InsertRow in faults {
      return ErrorResponse(500, faults[InsertRow]);
    }
    var row := db.InsertHotel(payload);
    assert db.Snapshot() == WithHotel(t, payload);
    return DataResponse(201, Obj(AsObject(row)));
  }

  method UpdateHotel(db: Database, idParam: JsValue, body: Object, faults: Faults) returns (res: Response)
    requires db.Valid()
    modifies db
    ensures Outcome(res, db.Snapshot()) == UpdateHotelSpec(old(db.Snapshot()), idParam, body, faults)
    ensures db.Valid()
  {
    UpdateKeepsTables(db.Snapshot(), idParam, body, faults);
    var hotelId := ParseId(idParam);
    if !Truthy(hotelId) {
      return ErrorResponse(400, InvalidHotelId);
    }
    var payload := UpdatePayload(body);
    if |payload| == 0 {
      return ErrorResponse(400, NoFields);
    }
    if UpdateRow in faults {
      return ErrorResponse(500, faults[UpdateRow]);
    }
    var found := Find(db.hotels, hotelId.n);
    if found.None? {
      return ErrorResponse(404, HotelNotFound);
    }
    db.PatchHotel(hotelId.n, payload);
    return DataResponse(200, Obj(AsObject(Row(found.value.id, found.value.cols + payload))));
  }

  method DeleteHotel(db: Database, idParam: JsValue, faults: Faults) returns (res: Response)
    requires db.Valid()
    modifies db
    ensures db.Valid()
    ensures Outcome(res, db.Snapshot()) == DeleteHotelSpec(old(db.Snapshot()), idParam, faults)
  {
    var hotelId := ParseId(idParam);
    if !Truthy(hotelId) {
      return ErrorResponse(400, InvalidHotelId);
    }
    if LookupRow in faults {
      return ErrorResponse(500, faults[LookupRow]);
    }
    if Find(db.hotels, hotelId.n).None? {
      return ErrorResponse(404, HotelNotFound);
    }
    if DeleteRow in faults {
      return ErrorResponse(500, faults[DeleteRow]);
    }
    RemoveFacts(db.hotels, hotelId.n, db.nextHotel);
    db.hotels := Remove(db.hotels, hotelId.n);
    return NoContent;
  }
}
