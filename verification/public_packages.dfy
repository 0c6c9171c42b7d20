/** The public package reads (server/src/controllers/public/packageController.js):
    the list with its destinations and hotels attached, and one package's
    details. The store's answers are inputs: a query is a function from
    what the handler asks to what the store replies. */
module PublicPackages {
  import opened Options
  import opened JsValues
  import opened Helpers
  import opened Store
  import opened ReadAssembly
  import Sequences

  const BadDestinationFilter: string := "destinationId must be a positive integer."
  const InvalidPackageId: string := "Invalid package id."
  const PackageNotFound: string := "Package not found."

  /** The `destinationId` query value is refused when it is given but is
      not a positive integer. */
  predicate BadFilter(destinationId: JsValue) {
    destinationId != Undefined && ParseOptionalInteger(destinationId).None?
  }

  /** One list entry: the package row with its highlights as an array, its
      destination row or null, and its grouped hotels or []. */
  function EnrichPackage(item: Object, destinations: map<string, Object>, hotels: map<string, seq<Object>>): Object
  {
    item["highlights" := ToNullableArray(Get(item, "highlights"))]
        ["destination" := RowOrNull(destinations, Key(Get(item, "destination_id")))]
        ["hotels" := Arr(RowValues(Lookup(hotels, Key(Get(item, "id")), [])))]
  }

  /** The entries of the list, one per package row, in the store's order. */
  function EnrichAll(rows: seq<Object>, destinations: map<string, Object>, hotels: map<string, seq<Object>>): (r: seq<JsValue>)
    ensures |r| == |rows|
    ensures forall i :: 0 <= i < |rows| ==> r[i] == Obj(EnrichPackage(rows[i], destinations, hotels))
  {
    seq(|rows|, i requires 0 <= i < |rows| => Obj(EnrichPackage(rows[i], destinations, hotels)))
  }

  /** `listPackages`. `packagesWhere(f)` answers the package query, filtered
      by destination when `f` is given; `destinationsIn(ids)` and
      `joinsIn(ids)` answer the two batched lookups. */
  function ListPackagesView(
    destinationId: JsValue,
    packagesWhere: Option<int> -> Reply<Object>,
    destinationsIn: seq<JsValue> -> Reply<Object>,
    joinsIn: seq<JsValue> -> Reply<JoinRow>): Response
  {
    if BadFilter(destinationId) then ErrorResponse(400, BadDestinationFilter)
    else
      var packages := packagesWhere(ParseOptionalInteger(destinationId));
      if packages.error.Some? then ErrorResponse(500, packages.error.value)
      else
        var rows := packages.rows;
        var destinationIds := Dedup(Column(rows, "destination_id"));
        var packageIds := Column(rows, "id");
        var destinations := if |destinationIds| > 0 then destinationsIn(destinationIds) else Skipped();
        var joins := if |packageIds| > 0 then joinsIn(packageIds) else Skipped();
        if destinations.error.Some? || joins.error.Some? then
          ServerError(EitherError(destinations.error, joins.error))
        else
          ListResponse(EnrichAll(rows, IndexById(destinations.rows), GroupHotels(joins.rows)))
  }

  // -----------------------------------------------------------------------
  // Properties of the list

  /** A filter that is given but is not a positive integer, "" included, is
      a 400 before the store is asked anything. */
  lemma ListRejectsBadFilter(
    destinationId: JsValue, p: Option<int> -> Reply<Object>,
    d: seq<JsValue> -> Reply<Object>, j: seq<JsValue> -> Reply<JoinRow>)
    requires destinationId != Undefined
    requires destinationId == Null || destinationId == Str("") || ParseOptionalInteger(destinationId).None?
    ensures ListPackagesView(destinationId, p, d, j) == ErrorResponse(400, BadDestinationFilter)
  {
  }

  /** The package query is asked with the parsed destination id (no filter
      when the parameter is absent), and its failure is a 500 with its
      message. */
  lemma ListPackageQueryFailure(
    destinationId: JsValue, p: Option<int> -> Reply<Object>,
    d: seq<JsValue> -> Reply<Object>, j: seq<JsValue> -> Reply<JoinRow>)
    requires !BadFilter(destinationId) && p(ParseOptionalInteger(destinationId)).error.Some?
    ensures ListPackagesView(destinationId, p, d, j)
         == ErrorResponse(500, p(ParseOptionalInteger(destinationId)).error.value)
    ensures destinationId == Undefined ==> ParseOptionalInteger(destinationId).None?
  {
  }

  /** With no package rows both lookups are skipped: the answer is an empty
      list whatever the lookups would have said. */
  lemma ListSkipsLookupsWhenEmpty(
    destinationId: JsValue, p: Option<int> -> Reply<Object>,
    d: seq<JsValue> -> Reply<Object>, j: seq<JsValue> -> Reply<JoinRow>,
    d': seq<JsValue> -> Reply<Object>, j': seq<JsValue> -> Reply<JoinRow>)
    requires !BadFilter(destinationId)
    requires p(ParseOptionalInteger(destinationId)) == Reply([], None)
    ensures ListPackagesView(destinationId, p, d, j) == ListPackagesView(destinationId, p, d', j')
    ensures ListPackagesView(destinationId, p, d, j) == ListResponse([])
  {
    DedupEmpty(Column([], "destination_id"));
  }

  /** The destination lookup is asked for each destination id once, and
      for nothing else. */
  lemma DestinationIdsDistinct(rows: seq<Object>)
    ensures var ids := Dedup(Column(rows, "destination_id"));
      && (forall i, k :: 0 <= i < k < |ids| ==> ids[i] != ids[k])
      && (forall x :: x in ids <==> exists i :: 0 <= i < |rows| && Get(rows[i], "destination_id") == x)
  {
    var ids := Dedup(Column(rows, "destination_id"));
    forall x
      ensures x in ids <==> exists i :: 0 <= i < |rows| && Get(rows[i], "destination_id") == x
    {
      if x in ids {
        var i :| 0 <= i < |rows| && Column(rows, "destination_id")[i] == x;
        assert Get(rows[i], "destination_id") == x;
      }
      if exists i :: 0 <= i < |rows| && Get(rows[i], "destination_id") == x {
        var i :| 0 <= i < |rows| && Get(rows[i], "destination_id") == x;
        assert Column(rows, "destination_id")[i] == x;
      }
    }
  }

  /** Each entry keeps the other columns of its package row, has its
      highlights as an array, its destination as the last destination row
      with that id (or null when there is none), and as hotels exactly the
      non-null joined hotels of that package, in join-row order. */
  lemma EnrichedEntry(item: Object, destinations: seq<Object>, joins: seq<JoinRow>)
    ensures var e := EnrichPackage(item, IndexById(destinations), GroupHotels(joins));
      var key := Key(Get(item, "destination_id"));
      && (forall k :: k in item && k != "highlights" && k != "destination" && k != "hotels" ==> e[k] == item[k])
      && e["highlights"].Arr?
      && (Get(item, "highlights").Arr? ==> e["highlights"] == item["highlights"])
      && (LastWithKey(destinations, key).None? ==> e["destination"] == Null)
      && (LastWithKey(destinations, key).Some? ==> e["destination"] == Obj(LastWithKey(destinations, key).value))
      && e["hotels"] == Arr(RowValues(HotelsOf(joins, Key(Get(item, "id")))))
  {
    IndexByIdFinds(destinations, Key(Get(item, "destination_id")));
    GroupHotelsIsHotelsOf(joins, Key(Get(item, "id")));
  }

  /** A successful list has one entry per package row, in the store's
      order, each built from its own row. */
  lemma ListKeepsRows(
    destinationId: JsValue, p: Option<int> -> Reply<Object>,
    d: seq<JsValue> -> Reply<Object>, j: seq<JsValue> -> Reply<JoinRow>)
    requires !BadFilter(destinationId)
    requires var rows := p(ParseOptionalInteger(destinationId));
      && rows.error.None? && |rows.rows| > 0
      && d(Dedup(Column(rows.rows, "destination_id"))).error.None?
      && j(Column(rows.rows, "id")).error.None?
    ensures var rows := p(ParseOptionalInteger(destinationId)).rows;
      var r := ListPackagesView(destinationId, p, d, j);
      var data := Get(r.body.fields, "data");
      var meta := Get(r.body.fields, "meta");
      && r.status == 200 && data.Arr? && |data.items| == |rows|
      && (forall i :: 0 <= i < |rows| ==>
            data.items[i] == Obj(EnrichPackage(rows[i],
                                               IndexById(d(Dedup(Column(rows, "destination_id"))).rows),
                                               GroupHotels(j(Column(rows, "id")).rows))))
      && meta.Obj? && Get(meta.fields, "count") == IntValueOf(|rows|) && Get(meta.fields, "empty") == Bool(false)
  {
    var rows := p(ParseOptionalInteger(destinationId)).rows;
    DedupEmpty(Column(rows, "destination_id"));
    ListMeta(EnrichAll(rows, IndexById(d(Dedup(Column(rows, "destination_id"))).rows), GroupHotels(j(Column(rows, "id")).rows)));
  }

  /** A failed lookup is a 500 carrying the destination lookup's message
      when it has one, else the join lookup's. */
  lemma ListLookupFailure(
    destinationId: JsValue, p: Option<int> -> Reply<Object>,
    d: seq<JsValue> -> Reply<Object>, j: seq<JsValue> -> Reply<JoinRow>)
    requires !BadFilter(destinationId)
    requires var rows := p(ParseOptionalInteger(destinationId));
      && rows.error.None? && |rows.rows| > 0
      && (d(Dedup(Column(rows.rows, "destination_id"))).error.Some? || j(Column(rows.rows, "id")).error.Some?)
    ensures var rows := p(ParseOptionalInteger(destinationId)).rows;
      ListPackagesView(destinationId, p, d, j)
      == ServerError(EitherError(d(Dedup(Column(rows, "destination_id"))).error, j(Column(rows, "id")).error))
  {
    var rows := p(ParseOptionalInteger(destinationId)).rows;
    DedupEmpty(Column(rows, "destination_id"));
  }

  // -----------------------------------------------------------------------
  // getPackageDetails

  /** The hotels of one package: the non-null embeds in join-row order,
      each with its amenities as an array. */
  function DetailHotels(joins: seq<JoinRow>): (r: seq<JsValue>)
    ensures |r| <= |joins|
  {
    if |joins| == 0 then []
    else
      (if joins[0].hotel.Some? then [Obj(WithAmenities(joins[0].hotel.value))] else [])
      + DetailHotels(joins[1..])
  }

  /** `getPackageDetails`. `packageById`, `destinationById` and `joinsOf`
      answer the three `.eq` queries. */
  function PackageDetailsView(
    id: JsValue,
    packageById: int -> Reply<Object>,
    destinationById: JsValue -> Reply<Object>,
    joinsOf: JsValue -> Reply<JoinRow>): Response
  {
    match ParseOptionalInteger(id)
    case None => ErrorResponse(400, InvalidPackageId)
    case Some(packageId) =>
      var packages := packageById(packageId);
      if packages.error.Some? then ErrorResponse(500, packages.error.value)
      else if |packages.rows| == 0 then ErrorResponse(404, PackageNotFound)
      else
        var item := packages.rows[0];
        var destination := destinationById(Get(item, "destination_id"));
        var joins := joinsOf(Get(item, "id"));
        if destination.error.Some? || joins.error.Some? then
          ServerError(EitherError(destination.error, joins.error))
        else
          DataResponse(200, Obj(PackageDetail(item, destination.rows, joins.rows)))
  }

  /** `{ ...packageItem, highlights, destination, hotels }`. */
  function PackageDetail(item: Object, destinations: seq<Object>, joins: seq<JoinRow>): Object
  {
    item["highlights" := ToNullableArray(Get(item, "highlights"))]
        ["destination" := if |destinations| > 0 then Obj(destinations[0]) else Null]
        ["hotels" := Arr(DetailHotels(joins))]
  }

  /** An id that is not a positive integer is a 400; a package the store
      does not return is a 404. */
  lemma DetailsRejects(
    id: JsValue, p: int -> Reply<Object>, d: JsValue -> Reply<Object>, j: JsValue -> Reply<JoinRow>)
    ensures ParseOptionalInteger(id).None? ==> PackageDetailsView(id, p, d, j) == ErrorResponse(400, InvalidPackageId)
    ensures ParseOptionalInteger(id).Some? && p(ParseOptionalInteger(id).value) == Reply([], None)
            ==> PackageDetailsView(id, p, d, j) == ErrorResponse(404, PackageNotFound)
  {
  }

  /** Every hotel of the details is a non-null embed of a join row, with its
      amenities as an array and its other columns unchanged, in join-row
      order. */
  lemma {:induction false} DetailHotelsFromJoins(joins: seq<JoinRow>)
    ensures var hs := DetailHotels(joins);
      && |hs| == |Sequences.Filter(joins, (r: JoinRow) => r.hotel.Some?)|
      && forall h :: h in hs ==> h.Obj? && Get(h.fields, "amenities").Arr?
  {
    if |joins| > 0 {
      DetailHotelsFromJoins(joins[1..]);
    }
  }

  /** The details are the package row with its highlights as an array, the
      first destination row the lookup returns (or null), and the hotels
      of its join rows. */
  lemma DetailsShape(
    id: JsValue, p: int -> Reply<Object>, d: JsValue -> Reply<Object>, j: JsValue -> Reply<JoinRow>)
    requires ParseOptionalInteger(id).Some?
    requires var pr := p(ParseOptionalInteger(id).value);
      && pr.error.None? && |pr.rows| > 0
      && d(Get(pr.rows[0], "destination_id")).error.None?
      && j(Get(pr.rows[0], "id")).error.None?
    ensures var item := p(ParseOptionalInteger(id).value).rows[0];
      var dest := d(Get(item, "destination_id")).rows;
      var r := PackageDetailsView(id, p, d, j);
      var data := Get(r.body.fields, "data");
      && r.status == 200 && data.Obj?
      && (forall k :: k in item && k != "highlights" && k != "destination" && k != "hotels" ==> data.fields[k] == item[k])
      && data.fields["highlights"].Arr?
      && data.fields["destination"] == (if |dest| > 0 then Obj(dest[0]) else Null)
      && data.fields["hotels"] == Arr(DetailHotels(j(Get(item, "id")).rows))
  {
  }
}
