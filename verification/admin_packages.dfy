/** The admin package endpoints (server/src/controllers/admin/packageController.js):
    create, update with the package-hotel join replacement, delete, list,
    and the package-with-hotels read they answer with. */
module AdminPackages {
  import opened Options
  import opened Sequences
  import opened JsNumbers
  import opened JsValues
  import opened Helpers
  import opened Store

  const PackageFields: set<string> :=
    {"destination_id", "name", "slug", "duration_days", "price_from",
     "summary", "highlights", "cover_image", "is_featured"}

  const PackageRequired: string := "name, slug and destination_id are required for packages."
  const InvalidPackageId: string := "Invalid package id."
  const PackageNotFound: string := "Package not found."

  /** Reading an allow-listed key of the picked payload reads the body. */
  lemma PickedReads(body: Object, fields: set<string>, k: string)
    requires k in fields
    ensures Get(PickFields(Obj(body), fields), k) == Get(body, k)
  {
  }

  // -----------------------------------------------------------------------
  // Payloads

  /** The per-field coercion both package handlers apply: `parseId` for
      the destination, `v ? Number(v) : null` for the two numbers,
      `normalizeArray` for the highlights, `Boolean` for the flag; other
      fields pass unchanged. */
  function CoercePackageField(k: string, v: JsValue): JsValue {
    if k == "destination_id" then ParseId(v)
    else if k == "duration_days" || k == "price_from" then NumberOrNull(v)
    else if k == "highlights" then Arr(NormalizeArray(v))
    else if k == "is_featured" then Bool(Truthy(v))
    else v
  }

  /** The fields `createPackage` writes whether or not the body has them. */
  predicate AlwaysWritten(k: string) {
    k == "destination_id" || k == "duration_days" || k == "price_from" || k == "highlights" || k == "is_featured"
  }

  /** The insert payload of `createPackage`: the allow-listed keys the body
      defines, plus the five coerced ones, which are always written. */
  function CreatePayload(body: Object): (p: Object)
    ensures forall k :: k in p <==> k in PackageFields && (Get(body, k) != Undefined || AlwaysWritten(k))
    ensures forall k :: k in p ==> p[k] == CoercePackageField(k, Get(body, k))
  {
    var picked := PickFields(Obj(body), PackageFields);
    map k | k in PackageFields && (k in picked || AlwaysWritten(k)) :: CoercePackageField(k, Get(picked, k))
  }

  /** The update payload of `updatePackage`: the same coercions, applied
      only to keys the body supplies, so it holds exactly the allow-listed
      keys the body defines. */
  function UpdatePayload(body: Object): (p: Object)
    ensures forall k :: k in p <==> k in PackageFields && Get(body, k) != Undefined
    ensures forall k :: k in p ==> p[k] == CoercePackageField(k, Get(body, k))
  {
    var picked := PickFields(Obj(body), PackageFields);
    map k | k in picked :: CoercePackageField(k, picked[k])
  }

  /** What each column of a created package holds. */
  lemma CreatePayloadColumns(body: Object)
    ensures var p := CreatePayload(body);
      && Get(p, "destination_id") == ParseId(Get(body, "destination_id"))
      && Get(p, "duration_days") == NumberOrNull(Get(body, "duration_days"))
      && Get(p, "price_from") == NumberOrNull(Get(body, "price_from"))
      && Get(p, "highlights") == Arr(NormalizeArray(Get(body, "highlights")))
      && Get(p, "is_featured") == Bool(Truthy(Get(body, "is_featured")))
      && Get(p, "name") == Get(body, "name") && Get(p, "slug") == Get(body, "slug")
      && Get(p, "summary") == Get(body, "summary") && Get(p, "cover_image") == Get(body, "cover_image")
  {
    assert "destination_id" in PackageFields && "duration_days" in PackageFields;
    assert "price_from" in PackageFields && "highlights" in PackageFields && "is_featured" in PackageFields;
  }

  /** The update coerces like the create, but only what the body supplies. */
  lemma UpdateCoercesLikeCreate(body: Object, k: string)
    requires k in UpdatePayload(body)
    ensures UpdatePayload(body)[k] == CreatePayload(body)[k]
  {
  }

  /** `items.map(parseId).filter(Boolean)`. */
  function IdsOf(items: seq<JsValue>): (r: seq<JsNum>)
    ensures |r| <= |items|
    ensures forall i :: 0 <= i < |r| ==> r[i].Finite? && IsTruthyNumber(r[i])
  {
    if |items| == 0 then []
    else
      var id := ParseId(items[0]);
      if Truthy(id) then [id.n] + IdsOf(items[1..]) else IdsOf(items[1..])
  }

  /** The hotel ids of a body: `normalizeArray(hotel_ids)` through `parseId`,
      falsy results dropped. */
  function HotelIds(v: JsValue): seq<JsNum> {
    IdsOf(NormalizeArray(v))
  }

  /** Ids are kept as often as they are given: no de-duplication. */
  lemma {:induction false} IdsOfAppend(a: seq<JsValue>, b: seq<JsValue>)
    ensures IdsOf(a + b) == IdsOf(a) + IdsOf(b)
  {
    if |a| == 0 {
      assert a + b == b;
    } else {
      assert (a + b)[1..] == a[1..] + b;
      IdsOfAppend(a[1..], b);
    }
  }

  /** A printed positive id survives into the hotel id list. */
  lemma IdsOfPrinted(k: int)
    requires k >= 1
    ensures IdsOf([Str(IntText(k))]) == [FromInt(k)]
  {
    ParseIdOfIntText(k);
  }

  // -----------------------------------------------------------------------
  // fetchPackageWithRelations

  /** The embedded `hotels(*)` of each join row: the hotel, or `null` when
      the join row names no existing hotel. */
  function Embedded(hotels: seq<Row>, ls: seq<Link>): (r: seq<JsValue>)
    ensures |r| == |ls|
  {
    if |ls| == 0 then []
    else
      var h := match Find(hotels, ls[0].hotelId)
               case Some(row) => Obj(AsObject(row))
               case None => Null;
      [h] + Embedded(hotels, ls[1..])
  }

  /** The hotels the join rows name and that exist, in join-row order. */
  function PresentHotels(hotels: seq<Row>, ls: seq<Link>): seq<JsValue>
  {
    if |ls| == 0 then []
    else match Find(hotels, ls[0].hotelId)
      case Some(row) => [Obj(AsObject(row))] + PresentHotels(hotels, ls[1..])
      case None => PresentHotels(hotels, ls[1..])
  }

  /** `.map((row) => row.hotels).filter(Boolean)` keeps exactly the hotels
      that exist, in join-row order. */
  lemma {:induction false} EmbeddedTruthy(hotels: seq<Row>, ls: seq<Link>)
    ensures Filter(Embedded(hotels, ls), Truthy) == PresentHotels(hotels, ls)
  {
    if |ls| > 0 {
      EmbeddedTruthy(hotels, ls[1..]);
      assert Embedded(hotels, ls)[1..] == Embedded(hotels, ls[1..]);
    }
  }

  /** `fetchPackageWithRelations(packageId)`: nothing when no package has
      the id; otherwise the package row with `hotels` set to the existing
      hotels of its join rows, in join-row order. */
  function FetchPackage(t: Tables, key: JsNum): (r: Option<Object>)
    ensures r.None? <==> Find(t.packages, key).None?
    ensures r.Some? ==> Get(r.value, "hotels") == Arr(PresentHotels(t.hotels, LinksOf(t.links, key)))
    ensures r.Some? ==> Get(r.value, "id") == IntValueOf(Find(t.packages, key).value.id)
    ensures r.Some? ==> forall k :: k != "hotels" && k != "id" ==>
              Get(r.value, k) == Get(Find(t.packages, key).value.cols, k)
  {
    match Find(t.packages, key)
    case None => None
    case Some(row) =>
      var embedded := Embedded(t.hotels, LinksOf(t.links, key));
      EmbeddedTruthy(t.hotels, LinksOf(t.links, key));
      Some(AsObject(row)["hotels" := Arr(Filter(embedded, Truthy))])
  }

  function AsData(r: Option<Object>): JsValue {
    match r
    case None => Null
    case Some(o) => Obj(o)
  }

  // -----------------------------------------------------------------------
  // The handlers as specifications

  /** The insert of a package row under the next serial id. */
  function WithPackage(t: Tables, p: Object): Tables {
    t.(packages := [Row(t.nextPackage, p)] + t.packages, nextPackage := t.nextPackage + 1)
  }

  /** The insert of the join rows, skipped when there are none. */
  function WithLinks(t: Tables, key: JsNum, ids: seq<JsNum>): Tables {
    if |ids| > 0 then t.(links := t.links + MakeLinks(key, ids)) else t
  }

  /** `createPackage`: 400 before any store call when the name, slug or
      parsed destination id is falsy; otherwise insert the row, then one
      join row per hotel id, then answer 201 with the fetched package. */
  function CreatePackageSpec(t: Tables, body: Object, faults: Faults): Outcome
  {
    var p := CreatePayload(body);
    if !Truthy(Get(p, "name")) || !Truthy(Get(p, "slug")) || !Truthy(Get(p, "destination_id")) then
      Outcome(ErrorResponse(400, PackageRequired), t)
    else if InsertRow in faults then
      Outcome(ErrorResponse(500, faults[InsertRow]), t)
    else CreateLinksStep(WithPackage(t, p), t.nextPackage, HotelIds(Get(body, "hotel_ids")), faults)
  }

  /** After the row insert: the join rows of the new package `id`, then the
      read that answers 201. */
  function CreateLinksStep(t1: Tables, id: int, ids: seq<JsNum>, faults: Faults): Outcome
  {
    if |ids| > 0 && InsertJoinRows in faults then
      Outcome(ErrorResponse(500, faults[InsertJoinRows]), t1)
    else
      var t2 := WithLinks(t1, FromInt(id), ids);
      if FetchRelations in faults then Outcome(ErrorResponse(500, SomethingWentWrong), t2)
      else Outcome(DataResponse(201, AsData(FetchPackage(t2, FromInt(id)))), t2)
  }

  /** `updatePackage`: 400 for an id that is not a truthy number, then the
      row update, then the join replacement, then the read. */
  function UpdatePackageSpec(t: Tables, idParam: JsValue, body: Object, faults: Faults): Outcome
  {
    var packageId := ParseId(idParam);
    if !Truthy(packageId) then Outcome(ErrorResponse(400, InvalidPackageId), t)
    else UpdateRowStep(t, packageId.n, body, faults)
  }

  /** The row update runs only when the body supplies an allow-listed
      field; then an absent package is a 404 before anything is written. */
  function UpdateRowStep(t: Tables, key: JsNum, body: Object, faults: Faults): Outcome
  {
    var p := UpdatePayload(body);
    if |p| == 0 then ReplaceLinksStep(t, key, body, faults)
    else if UpdateRow in faults then Outcome(ErrorResponse(500, faults[UpdateRow]), t)
    else if Find(t.packages, key).None? then Outcome(ErrorResponse(404, PackageNotFound), t)
    else ReplaceLinksStep(t.(packages := Patch(t.packages, key, p)), key, body, faults)
  }

  /** When the body has `hotel_ids`: delete the package's join rows, then
      insert the new ones; a failed insert leaves the deletion in place. */
  function ReplaceLinksStep(t: Tables, key: JsNum, body: Object, faults: Faults): Outcome
  {
    if Get(body, "hotel_ids") == Undefined then FetchStep(t, key, faults)
    else
      var ids := HotelIds(Get(body, "hotel_ids"));
      if DeleteJoinRows in faults then Outcome(ErrorResponse(500, faults[DeleteJoinRows]), t)
      else if |ids| > 0 && InsertJoinRows in faults then
        Outcome(ErrorResponse(500, faults[InsertJoinRows]), t.(links := RemoveLinks(t.links, key)))
      else FetchStep(t.(links := ReplaceLinks(t.links, key, ids)), key, faults)
  }

  /** The closing `fetchPackageWithRelations`: 200 with the package, or 404. */
  function FetchStep(t: Tables, key: JsNum, faults: Faults): Outcome
  {
    if FetchRelations in faults then Outcome(ErrorResponse(500, SomethingWentWrong), t)
    else match FetchPackage(t, key)
      case None => Outcome(ErrorResponse(404, PackageNotFound), t)
      case Some(o) => Outcome(DataResponse(200, Obj(o)), t)
  }

  /** `deletePackage`: look the row up first, so that an absent package is
      a 404, then delete it. */
  function DeletePackageSpec(t: Tables, idParam: JsValue, faults: Faults): Outcome
  {
    var packageId := ParseId(idParam);
    if !Truthy(packageId) then Outcome(ErrorResponse(400, InvalidPackageId), t)
    else if LookupRow in faults then Outcome(ErrorResponse(500, faults[LookupRow]), t)
    else if Find(t.packages, packageId.n).None? then Outcome(ErrorResponse(404, PackageNotFound), t)
    else if DeleteRow in faults then Outcome(ErrorResponse(500, faults[DeleteRow]), t)
    else Outcome(NoContent, t.(packages := Remove(t.packages, packageId.n)))
  }

  /** `listPackages`: every package, newest first, with its destination. */
  function ListPackagesSpec(t: Tables, faults: Faults): Response {
    if ReadTable in faults then ErrorResponse(500, faults[ReadTable])
    else ListResponse(EmbedDestinations(t.destinations, t.packages))
  }

  // -----------------------------------------------------------------------
  // Properties

  /** A missing name or slug, or a destination id that parses to nothing or
      to 0, is a 400 and writes nothing. */
  lemma CreateRejectsIncomplete(t: Tables, body: Object, faults: Faults)
    requires !Truthy(Get(body, "name")) || !Truthy(Get(body, "slug"))
             || !Truthy(ParseId(Get(body, "destination_id")))
    ensures CreatePackageSpec(t, body, faults) == Outcome(ErrorResponse(400, PackageRequired), t)
  {
    CreatePayloadColumns(body);
  }

  /** The serial id is fresh, and the new row is found under it. */
  lemma InsertedPackageFresh(t: Tables, p: Object)
    requires GoodTables(t)
    ensures Find(t.packages, FromInt(t.nextPackage)).None?
    ensures GoodTables(WithPackage(t, p))
    ensures Find(WithPackage(t, p).packages, FromInt(t.nextPackage)) == Some(Row(t.nextPackage, p))
  {
    InsertedRowFresh(t.packages, t.nextPackage, p);
  }

  /** The new join rows follow whatever the id already had, in order. */
  lemma InsertedLinks(t: Tables, key: JsNum, ids: seq<JsNum>)
    requires key.Finite?
    ensures LinksOf(WithLinks(t, key, ids).links, key) == LinksOf(t.links, key) + MakeLinks(key, ids)
  {
    if |ids| > 0 {
      LinksOfAppend(t.links, MakeLinks(key, ids), key);
      LinksOfMade(key, ids, key);
    } else {
      assert LinksOf(t.links, key) + [] == LinksOf(t.links, key);
    }
  }

  /** A created package gets a fresh id and holds the create payload; its
      join rows are the body's hotel ids, in order and with repeats; and
      the response is 201 with the package and its hotels. */
  lemma CreateInserts(t: Tables, body: Object, faults: Faults)
    requires GoodTables(t)
    requires Truthy(Get(body, "name")) && Truthy(Get(body, "slug"))
             && Truthy(ParseId(Get(body, "destination_id")))
    requires InsertRow !in faults && InsertJoinRows !in faults && FetchRelations !in faults
    ensures var o := CreatePackageSpec(t, body, faults);
      var key := FromInt(t.nextPackage);
      && GoodTables(o.after)
      && Find(t.packages, key).None?
      && Find(o.after.packages, key) == Some(Row(t.nextPackage, CreatePayload(body)))
      && LinksOf(o.after.links, key) == LinksOf(t.links, key) + MakeLinks(key, HotelIds(Get(body, "hotel_ids")))
      && o.response == DataResponse(201, AsData(FetchPackage(o.after, key)))
  {
    var p := CreatePayload(body);
    var key := FromInt(t.nextPackage);
    var ids := HotelIds(Get(body, "hotel_ids"));
    CreatePayloadColumns(body);
    InsertedPackageFresh(t, p);
    InsertedLinks(WithPackage(t, p), key, ids);
  }

  /** An id that is not a truthy number is a 400 and changes nothing. */
  lemma UpdateRejectsBadId(t: Tables, idParam: JsValue, body: Object, faults: Faults)
    requires !Truthy(ParseId(idParam))
    ensures UpdatePackageSpec(t, idParam, body, faults) == Outcome(ErrorResponse(400, InvalidPackageId), t)
  {
  }

  /** With allow-listed fields but no such package, the answer is 404 and
      the join rows are untouched. */
  lemma UpdateMissingIs404(t: Tables, idParam: JsValue, body: Object, faults: Faults)
    requires Truthy(ParseId(idParam)) && |UpdatePayload(body)| > 0 && UpdateRow !in faults
    requires Find(t.packages, ParseId(idParam).n).None?
    ensures UpdatePackageSpec(t, idParam, body, faults) == Outcome(ErrorResponse(404, PackageNotFound), t)
  {
  }

  /** With `hotel_ids` present and both join writes succeeding, the
      package's join rows afterwards are exactly the new list, and every
      other package keeps its own. */
  lemma UpdateReplacesLinks(t: Tables, idParam: JsValue, body: Object, faults: Faults, other: JsNum)
    requires Truthy(ParseId(idParam))
    requires UpdateRow !in faults && DeleteJoinRows !in faults && InsertJoinRows !in faults
    requires |UpdatePayload(body)| == 0 || Find(t.packages, ParseId(idParam).n).Some?
    requires Get(body, "hotel_ids") != Undefined
    ensures var key := ParseId(idParam).n;
      var after := UpdatePackageSpec(t, idParam, body, faults).after;
      && LinksOf(after.links, key) == MakeLinks(key, HotelIds(Get(body, "hotel_ids")))
      && (!SameNumber(key, other) ==> LinksOf(after.links, other) == LinksOf(t.links, other))
  {
    var key := ParseId(idParam).n;
    ReplacedLinks(t, key, body, faults);
    ReplaceLinksExact(t.links, key, HotelIds(Get(body, "hotel_ids")), other);
  }

  /** The closing read writes nothing. */
  lemma FetchStepKeeps(t: Tables, key: JsNum, faults: Faults)
    ensures FetchStep(t, key, faults).after == t
  {
  }

  /** When the join writes go through, the join rows after an update are
      the replacement of the package's join rows. */
  lemma ReplacedLinks(t: Tables, key: JsNum, body: Object, faults: Faults)
    requires UpdateRow !in faults && DeleteJoinRows !in faults
    requires |UpdatePayload(body)| == 0 || Find(t.packages, key).Some?
    requires Get(body, "hotel_ids") != Undefined
    requires |HotelIds(Get(body, "hotel_ids"))| == 0 || InsertJoinRows !in faults
    ensures UpdateRowStep(t, key, body, faults).after.links == ReplaceLinks(t.links, key, HotelIds(Get(body, "hotel_ids")))
  {
    var p := UpdatePayload(body);
    var t1 := if |p| > 0 then t.(packages := Patch(t.packages, key, p)) else t;
    var ids := HotelIds(Get(body, "hotel_ids"));
    assert UpdateRowStep(t, key, body, faults) == ReplaceLinksStep(t1, key, body, faults);
    FetchStepKeeps(t1.(links := ReplaceLinks(t1.links, key, ids)), key, faults);
  }

  /** An empty `hotel_ids` clears the package's join rows. */
  lemma UpdateWithNoHotelsClears(t: Tables, idParam: JsValue, body: Object, faults: Faults)
    requires Truthy(ParseId(idParam))
    requires UpdateRow !in faults && DeleteJoinRows !in faults
    requires |UpdatePayload(body)| == 0 || Find(t.packages, ParseId(idParam).n).Some?
    requires Get(body, "hotel_ids") != Undefined && HotelIds(Get(body, "hotel_ids")) == []
    ensures LinksOf(UpdatePackageSpec(t, idParam, body, faults).after.links, ParseId(idParam).n) == []
  {
    ReplacedLinks(t, ParseId(idParam).n, body, faults);
    ReplaceWithNothingClears(t.links, ParseId(idParam).n);
  }

  /** The join replacement is not atomic: when the insert of the new join
      rows fails after the delete succeeded, the answer is a 500 and the
      package is left with no join rows at all. */
  lemma UpdateLinkGap(t: Tables, idParam: JsValue, body: Object, faults: Faults)
    requires Truthy(ParseId(idParam))
    requires UpdateRow !in faults && DeleteJoinRows !in faults && InsertJoinRows in faults
    requires |UpdatePayload(body)| == 0 || Find(t.packages, ParseId(idParam).n).Some?
    requires Get(body, "hotel_ids") != Undefined && |HotelIds(Get(body, "hotel_ids"))| > 0
    ensures var o := UpdatePackageSpec(t, idParam, body, faults);
      && o.response == ErrorResponse(500, faults[InsertJoinRows])
      && LinksOf(o.after.links, ParseId(idParam).n) == []
  {
    LinksOfRemoved(t.links, ParseId(idParam).n, ParseId(idParam).n);
  }

  /** A body with no allow-listed field and no `hotel_ids` writes nothing
      and is not rejected: it answers with the current package, or 404. */
  lemma UpdateEmptyBodyReads(t: Tables, idParam: JsValue, body: Object, faults: Faults)
    requires Truthy(ParseId(idParam)) && FetchRelations !in faults
    requires |UpdatePayload(body)| == 0 && Get(body, "hotel_ids") == Undefined
    ensures var o := UpdatePackageSpec(t, idParam, body, faults);
      && o.after == t
      && (Find(t.packages, ParseId(idParam).n).None? ==> o.response == ErrorResponse(404, PackageNotFound))
      && (Find(t.packages, ParseId(idParam).n).Some? ==>
            o.response == DataResponse(200, AsData(FetchPackage(t, ParseId(idParam).n))))
  {
  }

  lemma {:induction false} PatchTwice(rows: seq<Row>, key: JsNum, p: Object)
    ensures Patch(Patch(rows, key, p), key, p) == Patch(rows, key, p)
  {
    if |rows| > 0 {
      PatchTwice(rows[1..], key, p);
      var r := Patch(rows, key, p);
      assert r[1..] == Patch(rows[1..], key, p);
      if MatchesInt(key, rows[0].id) {
        assert rows[0].cols + p + p == rows[0].cols + p;
      }
    }
  }

  /** The tables a fully successful update leaves. */
  function UpdatedTables(t: Tables, key: JsNum, body: Object): Tables {
    var p := UpdatePayload(body);
    var t1 := if |p| > 0 then t.(packages := Patch(t.packages, key, p)) else t;
    if Get(body, "hotel_ids") == Undefined then t1
    else t1.(links := ReplaceLinks(t1.links, key, HotelIds(Get(body, "hotel_ids"))))
  }

  /** Without store errors the update leaves the tables a full success
      leaves, except that a row update that finds no package stops there. */
  lemma UpdateWithoutFaults(t: Tables, key: JsNum, body: Object, faults: Faults)
    requires UpdateRow !in faults && DeleteJoinRows !in faults && InsertJoinRows !in faults
    ensures |UpdatePayload(body)| > 0 && Find(t.packages, key).None? ==>
              UpdateRowStep(t, key, body, faults).after == t
    ensures |UpdatePayload(body)| == 0 || Find(t.packages, key).Some? ==>
              UpdateRowStep(t, key, body, faults).after == UpdatedTables(t, key, body)
  {
    var p := UpdatePayload(body);
    if |p| == 0 {
      ReplaceLinksStepAfter(t, key, body, faults);
    } else if Find(t.packages, key).Some? {
      ReplaceLinksStepAfter(t.(packages := Patch(t.packages, key, p)), key, body, faults);
    }
  }

  /** Without store errors the join step leaves the join rows replaced when
      the body has `hotel_ids`, and the tables as they were otherwise. */
  lemma ReplaceLinksStepAfter(t: Tables, key: JsNum, body: Object, faults: Faults)
    requires DeleteJoinRows !in faults && InsertJoinRows !in faults
    ensures Get(body, "hotel_ids") == Undefined ==> ReplaceLinksStep(t, key, body, faults).after == t
    ensures Get(body, "hotel_ids") != Undefined ==>
              ReplaceLinksStep(t, key, body, faults).after
                == t.(links := ReplaceLinks(t.links, key, HotelIds(Get(body, "hotel_ids"))))
  {
    FetchStepKeeps(t, key, faults);
    if Get(body, "hotel_ids") != Undefined {
      FetchStepKeeps(t.(links := ReplaceLinks(t.links, key, HotelIds(Get(body, "hotel_ids")))), key, faults);
    }
  }

  /** Sending the same successful update twice leaves the tables as sending
      it once. */
  lemma UpdateIdempotent(t: Tables, idParam: JsValue, body: Object, faults: Faults)
    requires UpdateRow !in faults && DeleteJoinRows !in faults && InsertJoinRows !in faults
    requires GoodTables(t)
    ensures var once := UpdatePackageSpec(t, idParam, body, faults).after;
      UpdatePackageSpec(once, idParam, body, faults).after == once
  {
    var packageId := ParseId(idParam);
    if Truthy(packageId) {
      var key := packageId.n;
      var p := UpdatePayload(body);
      UpdateWithoutFaults(t, key, body, faults);
      if |p| == 0 || Find(t.packages, key).Some? {
        var once := UpdatedTables(t, key, body);
        if |p| > 0 {
          PatchFacts(t.packages, key, p, t.nextPackage);
          PatchTwice(t.packages, key, p);
        }
        if Get(body, "hotel_ids") != Undefined {
          ReplaceLinksIdempotent(t.links, key, HotelIds(Get(body, "hotel_ids")));
        }
        UpdateWithoutFaults(once, key, body, faults);
        assert UpdatedTables(once, key, body) == once;
      }
    }
  }

  /** Delete: 400 for a bad id, 404 (writing nothing) for an absent
      package, otherwise exactly that row goes and the answer is 204. */
  lemma DeleteOutcomes(t: Tables, idParam: JsValue, faults: Faults)
    requires GoodTables(t) && LookupRow !in faults && DeleteRow !in faults
    ensures var o := DeletePackageSpec(t, idParam, faults);
      var packageId := ParseId(idParam);
      && (!Truthy(packageId) ==> o == Outcome(ErrorResponse(400, InvalidPackageId), t))
      && (Truthy(packageId) && Find(t.packages, packageId.n).None? ==>
            o == Outcome(ErrorResponse(404, PackageNotFound), t))
      && (Truthy(packageId) && Find(t.packages, packageId.n).Some? ==>
            && o.response == NoContent
            && GoodTables(o.after)
            && Find(o.after.packages, packageId.n).None?
            && |o.after.packages| == |t.packages| - 1
            && IsSubsequence(o.after.packages, t.packages)
            && o.after.links == t.links && o.after.hotels == t.hotels)
  {
    var packageId := ParseId(idParam);
    if Truthy(packageId) && Find(t.packages, packageId.n).Some? {
      RemoveFacts(t.packages, packageId.n, t.nextPackage);
      RemovePresentShrinks(t.packages, packageId.n, t.nextPackage);
    }
  }

  /** The list sends one entry per package, in table order, each with its
      embedded destination, and its metadata counts them. */
  lemma ListCounts(t: Tables, faults: Faults)
    requires ReadTable !in faults
    ensures var r := ListPackagesSpec(t, faults);
      var meta := Get(r.body.fields, "meta");
      && r.status == 200
      && Get(r.body.fields, "data") == Arr(EmbedDestinations(t.destinations, t.packages))
      && meta.Obj?
      && Get(meta.fields, "count") == IntValueOf(|t.packages|)
      && (Get(meta.fields, "empty") == Bool(true) <==> |t.packages| == 0)
  {
    ListMeta(EmbedDestinations(t.destinations, t.packages));
  }

  /** The join-table steps touch only the join rows, so they keep every
      table with distinct ids below its counter. */
  lemma ReplaceLinksKeepsTables(t: Tables, key: JsNum, body: Object, faults: Faults)
    requires GoodTables(t)
    ensures GoodTables(ReplaceLinksStep(t, key, body, faults).after)
  {
    FetchStepKeeps(t, key, faults);
    FetchStepKeeps(t.(links := ReplaceLinks(t.links, key, HotelIds(Get(body, "hotel_ids")))), key, faults);
  }

  /** Whatever the body and the store failures, a create, including one
      whose join insert fails after the row is in, leaves every table with
      distinct ids below its counter. */
  lemma CreateKeepsTables(t: Tables, body: Object, faults: Faults)
    requires GoodTables(t)
    ensures GoodTables(CreatePackageSpec(t, body, faults).after)
  {
    InsertKeepsTable(t.packages, t.nextPackage, CreatePayload(body));
  }

  /** Whatever the id, the body and the store failures, an update leaves
      every table with distinct ids below its counter. */
  lemma UpdateKeepsTables(t: Tables, idParam: JsValue, body: Object, faults: Faults)
    requires GoodTables(t)
    ensures GoodTables(UpdatePackageSpec(t, idParam, body, faults).after)
  {
    var packageId := ParseId(idParam);
    if Truthy(packageId) {
      var key := packageId.n;
      var p := UpdatePayload(body);
      ReplaceLinksKeepsTables(t, key, body, faults);
      PatchKeepsTable(t.packages, key, p, t.nextPackage);
      ReplaceLinksKeepsTables(t.(packages := Patch(t.packages, key, p)), key, body, faults);
    }
  }

  // -----------------------------------------------------------------------
  // The handlers

  method CreatePackage(db: Database, body: Object, faults: Faults) returns (res: Response)
    requires db.Valid()
    modifies db
    ensures Outcome(res, db.Snapshot()) == CreatePackageSpec(old(db.Snapshot()), body, faults)
    ensures db.Valid()
  {
    CreateKeepsTables(db.Snapshot(), body, faults);
    ghost var t := db.Snapshot();
    var payload := CreatePayload(body);
    if !Truthy(Get(payload, "name")) || !Truthy(Get(payload, "slug")) || !Truthy(Get(payload, "destination_id")) {
      return ErrorResponse(400, PackageRequired);
    }
    if InsertRow in faults {
      return ErrorResponse(500, faults[InsertRow]);
    }
    var row := db.InsertPackage(payload);
    var id := row.id;
    var hotelIds := HotelIds(Get(body, "hotel_ids"));
    ghost var t1 := db.Snapshot();
    assert t1 == WithPackage(t, payload);
    assert CreatePackageSpec(t, body, faults) == CreateLinksStep(t1, id, hotelIds, faults);

    if |hotelIds| > 0 {
      if InsertJoinRows in faults {
        return ErrorResponse(500, faults[InsertJoinRows]);
      }
      db.AppendLinks(MakeLinks(FromInt(id), hotelIds));
    }
    assert db.Snapshot() == WithLinks(t1, FromInt(id), hotelIds);
    if FetchRelations in faults {
      return ErrorResponse(500, SomethingWentWrong);
    }
    var data := FetchPackage(db.Snapshot(), FromInt(id));
    return DataResponse(201, AsData(data));
  }

  method UpdatePackage(db: Database, idParam: JsValue, body: Object, faults: Faults) returns (res: Response)
    requires db.Valid()
    modifies db
    ensures Outcome(res, db.Snapshot()) == UpdatePackageSpec(old(db.Snapshot()), idParam, body, faults)
    ensures db.Valid()
  {
    UpdateKeepsTables(db.Snapshot(), idParam, body, faults);
    ghost var t := db.Snapshot();
    var packageId := ParseId(idParam);
    if !Truthy(packageId) {
      return ErrorResponse(400, InvalidPackageId);
    }
    var key := packageId.n;
    var payload := UpdatePayload(body);
    if |payload| > 0 {
      if UpdateRow in faults {
        return ErrorResponse(500, faults[UpdateRow]);
      }
      if Find(db.packages, key).None? {
        return ErrorResponse(404, PackageNotFound);
      }
      db.PatchPackage(key, payload);
    }
    assert UpdatePackageSpec(t, idParam, body, faults) == ReplaceLinksStep(db.Snapshot(), key, body, faults);
    res := ReplaceLinksAndRead(db, key, body, faults);
  }

  /** The second half of `updatePackage`: the join replacement when the
      body has `hotel_ids`, then the read. */
  method ReplaceLinksAndRead(db: Database, key: JsNum, body: Object, faults: Faults) returns (res: Response)
    modifies db
    ensures Outcome(res, db.Snapshot()) == ReplaceLinksStep(old(db.Snapshot()), key, body, faults)
  {
    ghost var t1 := db.Snapshot();
    if Get(body, "hotel_ids") != Undefined {
      var hotelIds := HotelIds(Get(body, "hotel_ids"));
      if DeleteJoinRows in faults {
        return ErrorResponse(500, faults[DeleteJoinRows]);
      }
      db.DeleteLinks(key);
      if |hotelIds| > 0 {
        if InsertJoinRows in faults {
          return ErrorResponse(500, faults[InsertJoinRows]);
        }
        db.AppendLinks(MakeLinks(key, hotelIds));
      }
      assert db.Snapshot() == t1.(links := ReplaceLinks(t1.links, key, hotelIds));
    }
    assert ReplaceLinksStep(t1, key, body, faults) == FetchStep(db.Snapshot(), key, faults);

    if FetchRelations in faults {
      return ErrorResponse(500, SomethingWentWrong);
    }
    var data := FetchPackage(db.Snapshot(), key);
    if data.None? {
      return ErrorResponse(404, PackageNotFound);
    }
    return DataResponse(200, Obj(data.value));
  }

  method DeletePackage(db: Database, idParam: JsValue, faults: Faults) returns (res: Response)
    requires db.Valid()
    modifies db
    ensures db.Valid()
    ensures Outcome(res, db.Snapshot()) == DeletePackageSpec(old(db.Snapshot()), idParam, faults)
  {
    var packageId := ParseId(idParam);
    if !Truthy(packageId) {
      return ErrorResponse(400, InvalidPackageId);
    }
    if LookupRow in faults {
      return ErrorResponse(500, faults[LookupRow]);
    }
    if Find(db.packages, packageId.n).None? {
      return ErrorResponse(404, PackageNotFound);
    }
    if DeleteRow in faults {
      return ErrorResponse(500, faults[DeleteRow]);
    }
    RemoveFacts(db.packages, packageId.n, db.nextPackage);
    db.packages := Remove(db.packages, packageId.n);
    return NoContent;
  }
}
