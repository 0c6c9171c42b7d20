/** The public destination reads (server/src/controllers/public/destinationController.js):
    the list, and one destination with its packages (each with its hotels)
    and its hotels. The store's answers are inputs, as functions of what
    the handler asks. */
module PublicDestinations {
  import opened Options
  import opened Text
  import opened JsNumbers
  import opened JsValues
  import opened Helpers
  import opened Store
  import opened ReadAssembly

  const DestinationNotFound: string := "Destination not found."

  /** `listDestinations`: the rows in the store's order, with their count. */
  function ListDestinationsView(reply: Reply<Object>): (r: Response)
    ensures reply.error.Some? ==> r == ErrorResponse(500, reply.error.value)
    ensures reply.error.None? ==> r == ListResponse(RowValues(reply.rows))
  {
    if reply.error.Some? then ErrorResponse(500, reply.error.value)
    else ListResponse(RowValues(reply.rows))
  }

  /** The list's metadata counts the rows and is empty exactly when there
      are none. */
  lemma ListDestinationsMeta(reply: Reply<Object>)
    requires reply.error.None?
    ensures var r := ListDestinationsView(reply);
      var meta := Get(r.body.fields, "meta");
      && r.status == 200 && meta.Obj?
      && Get(meta.fields, "count") == IntValueOf(|reply.rows|)
      && (Get(meta.fields, "empty") == Bool(true) <==> |reply.rows| == 0)
  {
    ListMeta(RowValues(reply.rows));
  }

  /** How the destination is looked up: by numeric id or by slug. */
  datatype DestinationKey = ById(id: int) | BySlug(slug: string)

  /** An all-digit path segment is an id, anything else a slug. */
  function DestinationQuery(idOrSlug: string): (q: DestinationKey)
    ensures q.ById? <==> |idOrSlug| > 0 && AllDigits(idOrSlug)
    ensures q.ById? ==> q.id >= 0 && StringToNumber(idOrSlug) == FromInt(q.id)
    ensures q.BySlug? ==> q.slug == idOrSlug
  {
    if IsNumeric(Str(idOrSlug)) then
      NumericReadsAsId(idOrSlug);
      ById(DigitsValue(idOrSlug))
    else BySlug(idOrSlug)
  }

  /** `{ ...item, highlights, hotels }` for one package of the destination. */
  function EnrichPackage(item: Object, hotels: map<string, seq<Object>>): Object
  {
    item["highlights" := ToNullableArray(Get(item, "highlights"))]
        ["hotels" := Arr(RowValues(Lookup(hotels, Key(Get(item, "id")), [])))]
  }

  /** The destination's packages, in the store's order. */
  function EnrichPackages(rows: seq<Object>, hotels: map<string, seq<Object>>): (r: seq<JsValue>)
    ensures |r| == |rows|
    ensures forall i :: 0 <= i < |rows| ==> r[i] == Obj(EnrichPackage(rows[i], hotels))
  {
    seq(|rows|, i requires 0 <= i < |rows| => Obj(EnrichPackage(rows[i], hotels)))
  }

  /** The destination's own hotels, in the store's order, with their
      amenities as arrays. */
  function EnrichHotels(rows: seq<Object>): (r: seq<JsValue>)
    ensures |r| == |rows|
    ensures forall i :: 0 <= i < |rows| ==> r[i] == Obj(WithAmenities(rows[i]))
  {
    seq(|rows|, i requires 0 <= i < |rows| => Obj(WithAmenities(rows[i])))
  }

  /** `{ ...destination, packages, hotels }`. */
  function DestinationDetail(destination: Object, packages: seq<JsValue>, hotels: seq<JsValue>): Object {
    destination["packages" := Arr(packages)]["hotels" := Arr(hotels)]
  }

  /** `getDestinationDetails`. `destinationBy` answers the id-or-slug
      query, `packagesOf` and `hotelsOf` the two queries on the
      destination's id, and `joinsIn` the batched join lookup. */
  function DestinationDetailsView(
    idOrSlug: string,
    destinationBy: DestinationKey -> Reply<Object>,
    packagesOf: JsValue -> Reply<Object>,
    hotelsOf: JsValue -> Reply<Object>,
    joinsIn: seq<JsValue> -> Reply<JoinRow>): Response
  {
    var found := destinationBy(DestinationQuery(idOrSlug));
    if found.error.Some? then ErrorResponse(500, found.error.value)
    else if |found.rows| == 0 then ErrorResponse(404, DestinationNotFound)
    else
      var destination := found.rows[0];
      var packages := packagesOf(Get(destination, "id"));
      var hotels := hotelsOf(Get(destination, "id"));
      if packages.error.Some? || hotels.error.Some? then
        ServerError(EitherError(packages.error, hotels.error))
      else
        var packageIds := Column(packages.rows, "id");
        var joins := if |packageIds| > 0 then joinsIn(packageIds) else Skipped();
        if joins.error.Some? then ErrorResponse(500, joins.error.value)
        else
          DataResponse(200, Obj(DestinationDetail(destination,
                                                  EnrichPackages(packages.rows, GroupHotels(joins.rows)),
                                                  EnrichHotels(hotels.rows))))
  }

  // -----------------------------------------------------------------------
  // Properties

  /** No row under the id or slug is a 404, whatever else the store holds. */
  lemma NotFound(
    idOrSlug: string, d: DestinationKey -> Reply<Object>, p: JsValue -> Reply<Object>,
    h: JsValue -> Reply<Object>, j: seq<JsValue> -> Reply<JoinRow>)
    requires d(DestinationQuery(idOrSlug)) == Reply([], None)
    ensures DestinationDetailsView(idOrSlug, d, p, h, j) == ErrorResponse(404, DestinationNotFound)
  {
  }

  /** A destination without packages never asks for join rows: the answer
      is the same whatever the join lookup would say. */
  lemma SkipsJoinsWithoutPackages(
    idOrSlug: string, d: DestinationKey -> Reply<Object>, p: JsValue -> Reply<Object>,
    h: JsValue -> Reply<Object>, j: seq<JsValue> -> Reply<JoinRow>, j': seq<JsValue> -> Reply<JoinRow>)
    requires var found := d(DestinationQuery(idOrSlug));
      found.error.None? && |found.rows| > 0 && p(Get(found.rows[0], "id")).rows == []
    ensures DestinationDetailsView(idOrSlug, d, p, h, j) == DestinationDetailsView(idOrSlug, d, p, h, j')
  {
  }

  /** The details keep the destination's own columns beside its packages
      and hotels; each package keeps its columns, has its highlights as an
      array and as hotels exactly the non-null joined hotels of its join
      rows in join-row order (their amenities left as stored); each of the
      destination's hotels has its amenities as an array. */
  lemma DetailsShape(
    idOrSlug: string, d: DestinationKey -> Reply<Object>, p: JsValue -> Reply<Object>,
    h: JsValue -> Reply<Object>, j: seq<JsValue> -> Reply<JoinRow>)
    requires var found := d(DestinationQuery(idOrSlug));
      && found.error.None? && |found.rows| > 0
      && p(Get(found.rows[0], "id")).error.None? && h(Get(found.rows[0], "id")).error.None?
      && (|p(Get(found.rows[0], "id")).rows| > 0 ==>
            j(Column(p(Get(found.rows[0], "id")).rows, "id")).error.None?)
    ensures var destination := d(DestinationQuery(idOrSlug)).rows[0];
      var packages := p(Get(destination, "id")).rows;
      var hotels := h(Get(destination, "id")).rows;
      var joins := if |packages| > 0 then j(Column(packages, "id")).rows else [];
      var r := DestinationDetailsView(idOrSlug, d, p, h, j);
      var data := Get(r.body.fields, "data");
      && r.status == 200 && data.Obj?
      && (forall k :: k in destination && k != "packages" && k != "hotels" ==> data.fields[k] == destination[k])
      && data.fields["packages"].Arr? && |data.fields["packages"].items| == |packages|
      && (forall i :: 0 <= i < |packages| ==>
            var e := data.fields["packages"].items[i];
            && e.Obj?
            && e.fields["highlights"].Arr?
            && e.fields["hotels"] == Arr(RowValues(HotelsOf(joins, Key(Get(packages[i], "id"))))))
      && data.fields["hotels"] == Arr(EnrichHotels(hotels))
      && (forall i :: 0 <= i < |hotels| ==> data.fields["hotels"].items[i].fields["amenities"].Arr?)
  {
    var destination := d(DestinationQuery(idOrSlug)).rows[0];
    var packages := p(Get(destination, "id")).rows;
    var joins := if |packages| > 0 then j(Column(packages, "id")).rows else [];
    forall i | 0 <= i < |packages|
      ensures Lookup(GroupHotels(joins), Key(Get(packages[i], "id")), []) == HotelsOf(joins, Key(Get(packages[i], "id")))
    {
      GroupHotelsIsHotelsOf(joins, Key(Get(packages[i], "id")));
    }
  }
}
