/** The admin package form (client/src/pages/admin/AdminPackagesPage.jsx):
    the body a submit sends, the call it makes, and the form an edit fills
    from a stored package. The API calls are inputs: the message a call
    failed with, or nothing when it succeeded, and the data of the package
    details an edit reads. */
module AdminPackagesPage {
  import opened Options
  import opened Text
  import opened JsNumbers
  import opened JsValues
  import opened Helpers
  import opened AdminForms

  /** The inputs of the form. */
  const FormFields: set<string> :=
    {"destination_id", "name", "slug", "duration_days", "price_from", "summary",
     "highlights", "cover_image", "is_featured", "hotel_ids"}

  const Updated: string := "Package updated."
  const Created: string := "Package created."
  const ActionFailed: string := "Package action failed."

  /** `packageInit`: every input empty, the featured box unticked. */
  function PackageInit(): (f: Object)
    ensures f.Keys == FormFields
  {
    map k | k in FormFields :: if k == "is_featured" then Bool(false) else Str("")
  }

  /** The body `submitPackage` sends: the form, with the destination, the
      duration and the price as numbers or null, the highlights as a list
      and the hotel ids as a list of numbers. */
  function PackagePayload(form: Object): Object {
    form
      ["destination_id" := NumberOrNull(Get(form, "destination_id"))]
      ["duration_days" := NumberOrNull(Get(form, "duration_days"))]
      ["price_from" := NumberOrNull(Get(form, "price_from"))]
      ["highlights" := Arr(Strs(ParseCsv(Get(form, "highlights"))))]
      ["hotel_ids" := Arr(IdList(Get(form, "hotel_ids")))]
  }

  /** The inputs that the body converts. */
  const Converted: set<string> := {"destination_id", "duration_days", "price_from", "highlights", "hotel_ids"}

  /** The body carries every input, and the converted ones even when the
      form lacks them. */
  lemma PayloadKeys(form: Object)
    ensures PackagePayload(form).Keys == form.Keys + Converted
  {
  }

  /** The destination, the duration and the price are sent as null exactly
      when their input is empty, and as the number it reads as otherwise. */
  lemma PayloadNumber(form: Object, k: string)
    requires k == "destination_id" || k == "duration_days" || k == "price_from"
    ensures var v := Get(PackagePayload(form), k);
      (v == Null <==> !Truthy(Get(form, k))) && (v.Num? ==> v.n == ToNumber(Get(form, k)))
  {
  }

  lemma PayloadNumberOf(form: Object, k: string)
    requires k == "destination_id" || k == "duration_days" || k == "price_from"
    ensures Get(PackagePayload(form), k) == NumberOrNull(Get(form, k))
  {
  }

  /** The highlights and the hotel ids are read from their inputs. */
  lemma PayloadLists(form: Object)
    ensures Get(PackagePayload(form), "highlights") == Arr(Strs(ParseCsv(Get(form, "highlights"))))
    ensures Get(PackagePayload(form), "hotel_ids") == Arr(IdList(Get(form, "hotel_ids")))
  {
  }

  /** Every other input is sent as it is. */
  lemma PayloadKeeps(form: Object, k: string)
    requires k !in Converted
    ensures Get(PackagePayload(form), k) == Get(form, k)
  {
  }

  /** The hotel ids sent are numbers other than 0 and NaN. */
  lemma PayloadHotelIds(form: Object)
    ensures var ids := Get(PackagePayload(form), "hotel_ids");
      ids.Arr? && forall x :: x in ids.items ==> x.Num? && IsTruthyNumber(x.n)
  {
    forall x | x in IdList(Get(form, "hotel_ids"))
      ensures x.Num? && IsTruthyNumber(x.n)
    {
      IdListKeeps(Get(form, "hotel_ids"), x);
    }
  }

  /** An update of the package being edited when there is one, else a
      create, with the body built from the form either way. */
  function SubmitCall(editingId: JsValue, form: Object): (c: Call)
    ensures c.Update? <==> Truthy(editingId)
    ensures c.Update? ==> c.id == editingId
    ensures c.payload == PackagePayload(form)
  {
    if Truthy(editingId) then Update(editingId, PackagePayload(form)) else Create(PackagePayload(form))
  }

  // -----------------------------------------------------------------------
  // Editing

  /** `details.data?.hotels`: the hotels of the details, undefined when
      the data has none. */
  function DetailHotels(data: JsValue): JsValue {
    if data.Obj? then Get(data.fields, "hotels") else Undefined
  }

  /** `h.id`, for an element that is not null or undefined. */
  function IdOf(h: JsValue): JsValue {
    if h.Obj? then Get(h.fields, "id") else Undefined
  }

  /** The hotel ids an edit writes: the ids of the package's hotels joined
      with `", "`; empty when the details request failed or its hotels
      cannot be read (not an array, or a missing element). */
  function HotelIdsText(details: Option<JsValue>): string {
    if details.None? then ""
    else
      var hotels := Or(DetailHotels(details.value), Arr([]));
      if !hotels.Arr? then ""
      else if exists i :: 0 <= i < |hotels.items| && (hotels.items[i].Null? || hotels.items[i].Undefined?) then ""
      else JoinValues(seq(|hotels.items|, i requires 0 <= i < |hotels.items| => IdOf(hotels.items[i])), ", ")
  }

  /** The value an edit writes into one input. */
  function EditValue(item: Object, k: string, highlights: string, hotelIds: string): JsValue {
    if k == "destination_id" || k == "duration_days" || k == "price_from" then Str(EditNumberText(Get(item, k)))
    else if k == "highlights" then Str(highlights)
    else if k == "is_featured" then Bool(Truthy(Get(item, k)))
    else if k == "hotel_ids" then Str(hotelIds)
    else EditText(Get(item, k))
  }

  /** The form an edit fills from a stored package; `None` when its
      highlights are truthy but not a list, where the page throws before
      the form is set. */
  function EditForm(item: Object, hotelIds: string): (f: Option<Object>)
    ensures f.Some? <==> EditListText(Get(item, "highlights")).Some?
    ensures f.Some? ==> f.value.Keys == FormFields
  {
    match EditListText(Get(item, "highlights"))
    case None => None
    case Some(h) => Some(map k | k in FormFields :: EditValue(item, k, h, hotelIds))
  }

  /** The ids of stored hotels print as their decimal spellings. */
  lemma HotelIdsOfDetails(hotels: seq<Object>, ids: seq<nat>)
    requires |hotels| == |ids|
    requires forall i :: 0 <= i < |ids| ==> Get(hotels[i], "id") == IntValueOf(ids[i])
    ensures var items := seq(|hotels|, i requires 0 <= i < |hotels| => Obj(hotels[i]));
      HotelIdsText(Some(Obj(map["hotels" := Arr(items)]))) == IdsText(ids)
  {
    var items := seq(|hotels|, i requires 0 <= i < |hotels| => Obj(hotels[i]));
    var data := Obj(map["hotels" := Arr(items)]);
    if |items| == 0 {
      assert Or(DetailHotels(data), Arr([])) == Arr([]);
    }
    assert seq(|items|, i requires 0 <= i < |items| => IdOf(items[i]))
        == seq(|ids|, i requires 0 <= i < |ids| => IntValueOf(ids[i]));
    IdsPrintAsText(ids);
  }

  /** The input an edit fills holds what the edit writes for it. */
  lemma EditedInput(item: Object, hotelIds: string, form: Object, k: string)
    requires EditForm(item, hotelIds) == Some(form) && k in FormFields
    ensures Get(form, k) == EditValue(item, k, EditListText(Get(item, "highlights")).value, hotelIds)
  {
  }

  /** An edit writes the stored highlights joined with `", "`. */
  lemma EditWritesHighlights(item: Object, highlights: seq<string>, hotelIds: string, form: Object)
    requires Get(item, "highlights") == Arr(Strs(highlights))
    requires EditForm(item, hotelIds) == Some(form)
    ensures Get(form, "highlights") == Str(Join(highlights, ", "))
  {
    JoinStrs(highlights, ", ");
    EditedInput(item, hotelIds, form, "highlights");
  }

  /** A submit sends the highlights an input holds as `", "`-joined. */
  lemma SubmitReadsHighlights(form: Object, highlights: seq<string>)
    requires forall i :: 0 <= i < |highlights| ==> IsCsvItem(highlights[i])
    requires Get(form, "highlights") == Str(Join(highlights, ", "))
    ensures Get(PackagePayload(form), "highlights") == Arr(Strs(highlights))
  {
    ParseCsvOfJoin(highlights);
    PayloadLists(form);
  }

  /** Editing a package and submitting the form unchanged sends its
      highlights as they are stored, provided every highlight is non-empty,
      has no white space at its ends and no comma. */
  lemma HighlightsRoundTrip(item: Object, highlights: seq<string>, hotelIds: string, form: Object)
    requires Get(item, "highlights") == Arr(Strs(highlights))
    requires CsvItems(highlights)
    requires EditForm(item, hotelIds) == Some(form)
    ensures Get(PackagePayload(form), "highlights") == Arr(Strs(highlights))
  {
    EditWritesHighlights(item, highlights, hotelIds, form);
    CsvItemsAll(highlights);
    SubmitReadsHighlights(form, highlights);
  }

  /** Editing a package and submitting the form unchanged sends the ids of
      its hotels as numbers, in their order. */
  lemma HotelIdsRoundTrip(item: Object, ids: seq<nat>, form: Object)
    requires forall i :: 0 <= i < |ids| ==> ids[i] > 0
    requires EditForm(item, IdsText(ids)) == Some(form)
    ensures Get(PackagePayload(form), "hotel_ids") == Arr(seq(|ids|, i requires 0 <= i < |ids| => IntValueOf(ids[i])))
  {
    IdsRoundTrip(ids);
    EditedInput(item, IdsText(ids), form, "hotel_ids");
    PayloadLists(form);
  }

  /** An edit writes a number column as its text, or empty when falsy. */
  lemma EditWritesNumber(item: Object, hotelIds: string, form: Object, k: string)
    requires k == "destination_id" || k == "duration_days" || k == "price_from"
    requires EditForm(item, hotelIds) == Some(form)
    ensures Get(form, k) == Str(EditNumberText(Get(item, k)))
  {
    EditedInput(item, hotelIds, form, k);
  }

  /** A submit sends a number input that holds the text of a stored number
      as that number. */
  lemma SubmitReadsNumber(form: Object, k: string, v: JsValue)
    requires k == "destination_id" || k == "duration_days" || k == "price_from"
    requires StoredNumber(v) && Get(form, k) == Str(EditNumberText(v))
    ensures Get(PackagePayload(form), k) == v
  {
    StoredNumberReadsBack(v);
    PayloadNumberOf(form, k);
  }

  /** Editing a package and submitting the form unchanged sends its
      destination, duration and price as stored: null, or a non-zero
      integer. */
  lemma NumberInputRoundTrip(item: Object, hotelIds: string, form: Object, k: string)
    requires k == "destination_id" || k == "duration_days" || k == "price_from"
    requires StoredNumber(Get(item, k))
    requires EditForm(item, hotelIds) == Some(form)
    ensures Get(PackagePayload(form), k) == Get(item, k)
  {
    EditWritesNumber(item, hotelIds, form, k);
    SubmitReadsNumber(form, k, Get(item, k));
  }

  /** An edit writes a text column as it is, or empty when falsy. */
  lemma EditWritesText(item: Object, hotelIds: string, form: Object, k: string)
    requires k == "name" || k == "slug" || k == "summary" || k == "cover_image"
    requires EditForm(item, hotelIds) == Some(form)
    ensures Get(form, k) == EditText(Get(item, k))
  {
    EditedInput(item, hotelIds, form, k);
  }

  /** The text inputs: a stored text is sent back as it is, a missing one
      as the empty text. */
  lemma TextInputRoundTrip(item: Object, hotelIds: string, form: Object, k: string)
    requires k == "name" || k == "slug" || k == "summary" || k == "cover_image"
    requires EditForm(item, hotelIds) == Some(form)
    ensures Get(item, k).Str? ==> Get(PackagePayload(form), k) == Get(item, k)
    ensures Get(item, k) == Null || Get(item, k) == Undefined ==> Get(PackagePayload(form), k) == Str("")
  {
    EditWritesText(item, hotelIds, form, k);
    PayloadKeeps(form, k);
  }

  /** The featured box: a stored flag is sent back as it is, a missing one
      as false. */
  lemma FeaturedRoundTrip(item: Object, hotelIds: string, form: Object)
    requires EditForm(item, hotelIds) == Some(form)
    ensures Get(item, "is_featured").Bool? ==> Get(PackagePayload(form), "is_featured") == Get(item, "is_featured")
    ensures Get(item, "is_featured") == Null ==> Get(PackagePayload(form), "is_featured") == Bool(false)
  {
    EditedInput(item, hotelIds, form, "is_featured");
    PayloadKeeps(form, "is_featured");
  }

  // -----------------------------------------------------------------------
  // The page's state

  class PackageEditor {
    var form: Object
    var editingId: JsValue
    var feedback: string
    var error: string

    /** The page as it opens: an empty form and no package being edited. */
    constructor ()
      ensures form == PackageInit() && editingId == Null
      ensures feedback == "" && error == ""
    {
      form := PackageInit();
      editingId := Null;
      feedback := "";
      error := "";
    }

    /** `onFieldChange(field)`, and the cover image picker. */
    method OnFieldChange(field: string, value: JsValue)
      modifies this
      ensures form == old(form)[field := value]
      ensures editingId == old(editingId) && feedback == old(feedback) && error == old(error)
    {
      form := form[field := value];
    }

    /** `submitPackage`: makes the call; on success shows what was done,
        empties the form and stops editing; on failure keeps both and shows
        the error. `failure` is the message the call failed with. */
    method Submit(failure: Option<string>) returns (call: Call)
      modifies this
      ensures call == SubmitCall(old(editingId), old(form))
      ensures failure.None? ==>
                && form == PackageInit() && editingId == Null && error == ""
                && feedback == (if call.Update? then Updated else Created)
      ensures failure.Some? ==>
                && form == old(form) && editingId == old(editingId)
                && feedback == "" && error == MessageOr(failure.value, ActionFailed)
    {
      error := "";
      feedback := "";
      call := SubmitCall(editingId, form);
      match failure {
        case None =>
          feedback := if call.Update? then Updated else Created;
          form := PackageInit();
          editingId := Null;
        case Some(message) =>
          error := MessageOr(message, ActionFailed);
      }
    }

    /** `startEditPackage(item)`: reads the package's hotels, marks the
        package as edited and fills the form; when the highlights cannot be
        joined the form is left as it was. `details` is the data of the
        details request, `None` when it failed. */
    method StartEdit(item: Object, details: Option<JsValue>)
      modifies this
      ensures editingId == Get(item, "id")
      ensures form == match EditForm(item, HotelIdsText(details))
                      case Some(f) => f
                      case None => old(form)
      ensures feedback == old(feedback) && error == old(error)
    {
      var hotelIds := HotelIdsText(details);
      editingId := Get(item, "id");
      match EditForm(item, hotelIds) {
        case Some(f) => form := f;
        case None =>
      }
    }

    /** The Cancel button, shown only while a package is edited: no package
        is edited any more and the form is empty again; the notices stay. */
    method Cancel()
      requires Truthy(editingId)
      modifies this
      ensures form == PackageInit() && editingId == Null
      ensures feedback == old(feedback) && error == old(error)
    {
      editingId := Null;
      form := PackageInit();
    }
  }
}
