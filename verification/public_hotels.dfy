/** The public hotel list (server/src/controllers/public/hotelController.js):
    the hotel rows with their amenities as arrays and their destination
    attached. The store's answers are inputs, as functions of what the
    handler asks. */
module PublicHotels {
  import opened Options
  import opened JsValues
  import opened Helpers
  import opened Store
  import opened ReadAssembly

  const BadDestinationFilter: string := "destinationId must be a positive integer."

  /** One entry: the hotel row with its amenities as an array and its
      destination row or null. */
  function EnrichHotel(item: Object, destinations: map<string, Object>): Object
  {
    WithAmenities(item)["destination" := RowOrNull(destinations, Key(Get(item, "destination_id")))]
  }

  /** The entries, one per hotel row, in the store's order. */
  function EnrichAll(rows: seq<Object>, destinations: map<string, Object>): (r: seq<JsValue>)
    ensures |r| == |rows|
    ensures forall i :: 0 <= i < |rows| ==> r[i] == Obj(EnrichHotel(rows[i], destinations))
  {
    seq(|rows|, i requires 0 <= i < |rows| => Obj(EnrichHotel(rows[i], destinations)))
  }

  /** `listHotels`. `hotelsWhere(f)` answers the hotel query, filtered by
      destination when `f` is given; `destinationsIn(ids)` answers the
      batched destination lookup. */
  function ListHotelsView(
    destinationId: JsValue,
    hotelsWhere: Option<int> -> Reply<Object>,
    destinationsIn: seq<JsValue> -> Reply<Object>): Response
  {
    if destinationId != Undefined && ParseOptionalInteger(destinationId).None? then
      ErrorResponse(400, BadDestinationFilter)
    else
      var hotels := hotelsWhere(ParseOptionalInteger(destinationId));
      if hotels.error.Some? then ErrorResponse(500, hotels.error.value)
      else
        var destinationIds := Dedup(Column(hotels.rows, "destination_id"));
        var destinations := if |destinationIds| > 0 then destinationsIn(destinationIds) else Skipped();
        if destinations.error.Some? then ErrorResponse(500, destinations.error.value)
        else ListResponse(EnrichAll(hotels.rows, IndexById(destinations.rows)))
  }

  // -----------------------------------------------------------------------
  // Properties

  /** A filter that is given but is not a positive integer ("", "0", "-2",
      "1.5", "abc", null) is a 400 before the store is asked anything; an
      absent one filters nothing. */
  lemma RejectsBadFilter(destinationId: JsValue, h: Option<int> -> Reply<Object>, d: seq<JsValue> -> Reply<Object>)
    ensures destinationId != Undefined && ParseOptionalInteger(destinationId).None?
            ==> ListHotelsView(destinationId, h, d) == ErrorResponse(400, BadDestinationFilter)
    ensures destinationId == Undefined && h(None).error.None? && h(None).rows == []
            ==> ListHotelsView(destinationId, h, d) == ListResponse([])
  {
    DedupEmpty(Column([], "destination_id"));
  }

  /** With no hotel rows the destination lookup is skipped: the answer does
      not depend on it. */
  lemma SkipsLookupWhenEmpty(
    destinationId: JsValue, h: Option<int> -> Reply<Object>,
    d: seq<JsValue> -> Reply<Object>, d': seq<JsValue> -> Reply<Object>)
    requires h(ParseOptionalInteger(destinationId)).rows == []
    ensures ListHotelsView(destinationId, h, d) == ListHotelsView(destinationId, h, d')
  {
    DedupEmpty(Column([], "destination_id"));
  }

  /** A successful list has one entry per hotel row, in the store's order;
      each keeps its row's other columns, has its amenities as an array and
      its destination as the last destination row with that id, or null;
      the metadata counts the entries. */
  lemma ListShape(destinationId: JsValue, h: Option<int> -> Reply<Object>, d: seq<JsValue> -> Reply<Object>)
    requires destinationId == Undefined || ParseOptionalInteger(destinationId).Some?
    requires var hotels := h(ParseOptionalInteger(destinationId));
      && hotels.error.None? && |hotels.rows| > 0
      && d(Dedup(Column(hotels.rows, "destination_id"))).error.None?
    ensures var rows := h(ParseOptionalInteger(destinationId)).rows;
      var destinations := d(Dedup(Column(rows, "destination_id"))).rows;
      var r := ListHotelsView(destinationId, h, d);
      var data := Get(r.body.fields, "data");
      var meta := Get(r.body.fields, "meta");
      && r.status == 200 && data.Arr? && |data.items| == |rows|
      && meta.Obj? && Get(meta.fields, "count") == IntValueOf(|rows|) && Get(meta.fields, "empty") == Bool(false)
      && forall i :: 0 <= i < |rows| ==>
           var e := data.items[i].fields;
           var found := LastWithKey(destinations, Key(Get(rows[i], "destination_id")));
           && (forall k :: k in rows[i] && k != "amenities" && k != "destination" ==> e[k] == rows[i][k])
           && e["amenities"].Arr?
           && e["destination"] == (if found.Some? then Obj(found.value) else Null)
  {
    var rows := h(ParseOptionalInteger(destinationId)).rows;
    var destinations := d(Dedup(Column(rows, "destination_id"))).rows;
    DedupEmpty(Column(rows, "destination_id"));
    ListMeta(EnrichAll(rows, IndexById(destinations)));
    forall i | 0 <= i < |rows|
      ensures var key := Key(Get(rows[i], "destination_id"));
        key in IndexById(destinations) <==> LastWithKey(destinations, key).Some?
      ensures var key := Key(Get(rows[i], "destination_id"));
        key in IndexById(destinations) ==> IndexById(destinations)[key] == LastWithKey(destinations, key).value
    {
      IndexByIdFinds(destinations, Key(Get(rows[i], "destination_id")));
    }
  }
}
