/** The admin hotel form (client/src/pages/admin/AdminHotelsPage.jsx): the
    body a submit sends, the call it makes, and the form an edit fills from
    a stored hotel. The API calls are inputs: the message a call failed
    with, or nothing when it succeeded. */
module AdminHotelsPage {
  import opened Options
  import opened Text
  import opened JsNumbers
  import opened JsValues
  import opened Helpers
  import opened AdminForms

  /** The inputs of the form. */
  const FormFields: set<string> :=
    {"destination_id", "name", "slug", "star_rating", "price_per_night", "summary",
     "amenities", "address", "cover_image"}

  const Updated: string := "Hotel updated."
  const Created: string := "Hotel created."
  const ActionFailed: string := "Hotel action failed."

  /** `hotelInit`: every input empty. */
  function HotelInit(): (f: Object)
    ensures f.Keys == FormFields
    ensures forall k :: k in f ==> f[k] == Str("")
  {
    map k | k in FormFields :: Str("")
  }

  /** The body `submitHotel` sends: the form, with the destination, the star
      rating and the nightly price as numbers or null and the amenities as a
      list. */
  function HotelPayload(form: Object): Object {
    form
      ["destination_id" := NumberOrNull(Get(form, "destination_id"))]
      ["star_rating" := NumberOrNull(Get(form, "star_rating"))]
      ["price_per_night" := NumberOrNull(Get(form, "price_per_night"))]
      ["amenities" := Arr(Strs(ParseCsv(Get(form, "amenities"))))]
  }

  /** The inputs that the body converts. */
  const Converted: set<string> := {"destination_id", "star_rating", "price_per_night", "amenities"}

  /** The body carries every input, and the converted ones even when the
      form lacks them. */
  lemma PayloadKeys(form: Object)
    ensures HotelPayload(form).Keys == form.Keys + Converted
  {
  }

  /** The destination, the star rating and the price are sent as null
      exactly when their input is empty, and as the number it reads as
      otherwise. */
  lemma PayloadNumber(form: Object, k: string)
    requires k == "destination_id" || k == "star_rating" || k == "price_per_night"
    ensures var v := Get(HotelPayload(form), k);
      (v == Null <==> !Truthy(Get(form, k))) && (v.Num? ==> v.n == ToNumber(Get(form, k)))
  {
  }

  lemma PayloadNumberOf(form: Object, k: string)
    requires k == "destination_id" || k == "star_rating" || k == "price_per_night"
    ensures Get(HotelPayload(form), k) == NumberOrNull(Get(form, k))
  {
  }

  /** The amenities are read from their input: non-empty, trimmed pieces
      without commas, in the order they were typed. */
  lemma PayloadAmenities(form: Object)
    ensures Get(HotelPayload(form), "amenities") == Arr(Strs(ParseCsv(Get(form, "amenities"))))
    ensures forall i :: 0 <= i < |ParseCsv(Get(form, "amenities"))| ==> IsCsvItem(ParseCsv(Get(form, "amenities"))[i])
  {
  }

  /** Every other input is sent as it is. */
  lemma PayloadKeeps(form: Object, k: string)
    requires k !in Converted
    ensures Get(HotelPayload(form), k) == Get(form, k)
  {
  }

  /** An update of the hotel being edited when there is one, else a create,
      with the body built from the form either way. */
  function SubmitCall(editingId: JsValue, form: Object): (c: Call)
    ensures c.Update? <==> Truthy(editingId)
    ensures c.Update? ==> c.id == editingId
    ensures c.payload == HotelPayload(form)
  {
    if Truthy(editingId) then Update(editingId, HotelPayload(form)) else Create(HotelPayload(form))
  }

  // -----------------------------------------------------------------------
  // Editing

  /** The value an edit writes into one input. */
  function EditValue(item: Object, k: string, amenities: string): JsValue {
    if k == "destination_id" || k == "star_rating" || k == "price_per_night" then Str(EditNumberText(Get(item, k)))
    else if k == "amenities" then Str(amenities)
    else EditText(Get(item, k))
  }

  /** The form an edit fills from a stored hotel; `None` when its amenities
      are truthy but not a list, where the page throws before the form is
      set. */
  function EditForm(item: Object): (f: Option<Object>)
    ensures f.Some? <==> EditListText(Get(item, "amenities")).Some?
    ensures f.Some? ==> f.value.Keys == FormFields
  {
    match EditListText(Get(item, "amenities"))
    case None => None
    case Some(a) => Some(map k | k in FormFields :: EditValue(item, k, a))
  }

  /** The input an edit fills holds what the edit writes for it. */
  lemma EditedInput(item: Object, form: Object, k: string)
    requires EditForm(item) == Some(form) && k in FormFields
    ensures Get(form, k) == EditValue(item, k, EditListText(Get(item, "amenities")).value)
  {
  }

  /** An edit writes the stored amenities joined with `", "`. */
  lemma EditWritesAmenities(item: Object, amenities: seq<string>, form: Object)
    requires Get(item, "amenities") == Arr(Strs(amenities))
    requires EditForm(item) == Some(form)
    ensures Get(form, "amenities") == Str(Join(amenities, ", "))
  {
    JoinStrs(amenities, ", ");
    EditedInput(item, form, "amenities");
  }

  /** A submit sends the amenities an input holds as `", "`-joined. */
  lemma SubmitReadsAmenities(form: Object, amenities: seq<string>)
    requires forall i :: 0 <= i < |amenities| ==> IsCsvItem(amenities[i])
    requires Get(form, "amenities") == Str(Join(amenities, ", "))
    ensures Get(HotelPayload(form), "amenities") == Arr(Strs(amenities))
  {
    ParseCsvOfJoin(amenities);
  }

  /** Editing a hotel and submitting the form unchanged sends its amenities
      as they are stored, provided every amenity is non-empty, has no white
      space at its ends and no comma. */
  lemma AmenitiesRoundTrip(item: Object, amenities: seq<string>, form: Object)
    requires Get(item, "amenities") == Arr(Strs(amenities))
    requires CsvItems(amenities)
    requires EditForm(item) == Some(form)
    ensures Get(HotelPayload(form), "amenities") == Arr(Strs(amenities))
  {
    EditWritesAmenities(item, amenities, form);
    CsvItemsAll(amenities);
    SubmitReadsAmenities(form, amenities);
  }

  /** An edit writes a number column as its text, or empty when falsy. */
  lemma EditWritesNumber(item: Object, form: Object, k: string)
    requires k == "destination_id" || k == "star_rating" || k == "price_per_night"
    requires EditForm(item) == Some(form)
    ensures Get(form, k) == Str(EditNumberText(Get(item, k)))
  {
    EditedInput(item, form, k);
  }

  /** A submit sends a number input that holds the text of a stored number
      as that number. */
  lemma SubmitReadsNumber(form: Object, k: string, v: JsValue)
    requires k == "destination_id" || k == "star_rating" || k == "price_per_night"
    requires StoredNumber(v) && Get(form, k) == Str(EditNumberText(v))
    ensures Get(HotelPayload(form), k) == v
  {
    StoredNumberReadsBack(v);
    PayloadNumberOf(form, k);
  }

  /** Editing a hotel and submitting the form unchanged sends its
      destination, star rating and price as stored: null, or a non-zero
      integer. */
  lemma NumberInputRoundTrip(item: Object, form: Object, k: string)
    requires k == "destination_id" || k == "star_rating" || k == "price_per_night"
    requires StoredNumber(Get(item, k))
    requires EditForm(item) == Some(form)
    ensures Get(HotelPayload(form), k) == Get(item, k)
  {
    EditWritesNumber(item, form, k);
    SubmitReadsNumber(form, k, Get(item, k));
  }

  /** An edit writes a text column as it is, or empty when falsy. */
  lemma EditWritesText(item: Object, form: Object, k: string)
    requires k == "name" || k == "slug" || k == "summary" || k == "address" || k == "cover_image"
    requires EditForm(item) == Some(form)
    ensures Get(form, k) == EditText(Get(item, k))
  {
    EditedInput(item, form, k);
  }

  /** The text inputs: a stored text is sent back as it is, a missing one
      as the empty text. */
  lemma TextInputRoundTrip(item: Object, form: Object, k: string)
    requires k == "name" || k == "slug" || k == "summary" || k == "address" || k == "cover_image"
    requires EditForm(item) == Some(form)
    ensures Get(item, k).Str? ==> Get(HotelPayload(form), k) == Get(item, k)
    ensures Get(item, k) == Null || Get(item, k) == Undefined ==> Get(HotelPayload(form), k) == Str("")
  {
    EditWritesText(item, form, k);
    PayloadKeeps(form, k);
  }

  // -----------------------------------------------------------------------
  // The page's state

  class HotelEditor {
    var form: Object
    var editingId: JsValue
    var feedback: string
    var error: string

    /** The page as it opens: an empty form and no hotel being edited. */
    constructor ()
      ensures form == HotelInit() && editingId == Null
      ensures feedback == "" && error == ""
    {
      form := HotelInit();
      editingId := Null;
      feedback := "";
      error := "";
    }

    /** `onFieldChange(field)`, and the cover image picker. */
    method OnFieldChange(field: string, value: JsValue)
      modifies this
      ensures form == old(form)[field := value]
      ensures editingId == old(editingId) && feedback == old(feedback) && error == old(error)
    {
      form := form[field := value];
    }

    /** `submitHotel`: makes the call; on success shows what was done,
        empties the form and stops editing; on failure keeps both and shows
        the error. `failure` is the message the call failed with. */
    method Submit(failure: Option<string>) returns (call: Call)
      modifies this
      ensures call == SubmitCall(old(editingId), old(form))
      ensures failure.None? ==>
                && form == HotelInit() && editingId == Null && error == ""
                && feedback == (if call.Update? then Updated else Created)
      ensures failure.Some? ==>
                && form == old(form) && editingId == old(editingId)
                && feedback == "" && error == MessageOr(failure.value, ActionFailed)
    {
      error := "";
      feedback := "";
      call := SubmitCall(editingId, form);
      match failure {
        case None =>
          feedback := if call.Update? then Updated else Created;
          form := HotelInit();
          editingId := Null;
        case Some(message) =>
          error := MessageOr(message, ActionFailed);
      }
    }

    /** The edit button: marks the hotel as edited, then fills the form;
        when the amenities cannot be joined the form is left as it was. */
    method StartEdit(item: Object)
      modifies this
      ensures editingId == Get(item, "id")
      ensures form == match EditForm(item)
                      case Some(f) => f
                      case None => old(form)
      ensures feedback == old(feedback) && error == old(error)
    {
      editingId := Get(item, "id");
      match EditForm(item) {
        case Some(f) => form := f;
        case None =>
      }
    }

    /** The Cancel button, shown only while a hotel is edited: no hotel is
        edited any more and the form is empty again; the notices stay. */
    method Cancel()
      requires Truthy(editingId)
      modifies this
      ensures form == HotelInit() && editingId == Null
      ensures feedback == old(feedback) && error == old(error)
    {
      editingId := Null;
      form := HotelInit();
    }
  }
}
