/** The inquiry form on the public pages (client/src/components/LeadForm.jsx):
    its fields, the packages offered for the chosen destination, the edits,
    and what a submission sends and leaves behind. The API call is an input:
    its answer, or the message it failed with. */
module LeadForm {
  import opened Options
  import opened Text
  import opened JsNumbers
  import opened JsValues
  import opened Helpers
  import opened Sequences
  import LeadIntake

  /** The names of the form's inputs. */
  const FormFields: set<string> :=
    {"full_name", "phone", "email", "preferred_travel_date", "travellers", "budget",
     "destination_id", "package_id", "message"}

  /** The inputs sent as numbers. */
  const NumericFields: set<string> := {"travellers", "budget", "destination_id", "package_id"}

  const Saved: string := "Inquiry saved. Opening WhatsApp now."
  const SubmitFailed: string := "Failed to submit inquiry."

  /** `preset ? String(preset) : ""`. */
  function PresetText(preset: JsValue): (r: string)
    ensures r == "" <==> !Truthy(preset) || ToText(preset) == ""
  {
    if Truthy(preset) then ToText(preset) else ""
  }

  /** A field of the form, `""` when it is missing. */
  function Field(form: map<string, string>, k: string): string {
    if k in form then form[k] else ""
  }

  function InitialField(k: string, presetDestinationId: JsValue, presetPackageId: JsValue): string {
    if k == "destination_id" then PresetText(presetDestinationId)
    else if k == "package_id" then PresetText(presetPackageId)
    else ""
  }

  /** The form as the page opens: every input empty except the preset
      destination and package. */
  function InitialForm(presetDestinationId: JsValue, presetPackageId: JsValue): (f: map<string, string>)
    ensures f.Keys == FormFields
    ensures forall k :: k in f && k != "destination_id" && k != "package_id" ==> f[k] == ""
    ensures f["destination_id"] == PresetText(presetDestinationId)
    ensures f["package_id"] == PresetText(presetPackageId)
  {
    map k | k in FormFields :: InitialField(k, presetDestinationId, presetPackageId)
  }

  /** `packageOptions`: every package when no destination is chosen, else
      those of the chosen destination. */
  function PackageOptions(packages: seq<Object>, destinationId: string): seq<Object> {
    if destinationId == "" then packages
    else Filter(packages, (p: Object) => ToText(Get(p, "destination_id")) == destinationId)
  }

  /** The options keep the packages' order; with a destination chosen they
      are exactly its packages. */
  lemma PackageOptionsChoose(packages: seq<Object>, destinationId: string)
    ensures destinationId == "" ==> PackageOptions(packages, destinationId) == packages
    ensures IsSubsequence(PackageOptions(packages, destinationId), packages)
    ensures destinationId != "" ==> forall p ::
      p in PackageOptions(packages, destinationId) <==> p in packages && ToText(Get(p, "destination_id")) == destinationId
  {
    var keep := (p: Object) => ToText(Get(p, "destination_id")) == destinationId;
    if destinationId == "" {
      SubsequenceOfSelf(packages);
    } else {
      FilterIsSubsequence(packages, keep);
      forall p | p in packages && keep(p)
        ensures p in Filter(packages, keep)
      {
        FilterKeeps(packages, keep, p);
      }
      var r := Filter(packages, keep);
      forall p | p in r
        ensures keep(p)
      {
        var i :| 0 <= i < |r| && r[i] == p;
      }
    }
  }

  /** `onChange`: the named input takes the value; choosing a destination
      clears the package unless the package is preset. */
  function Changed(form: map<string, string>, name: string, value: string, packageLocked: bool): map<string, string> {
    var f := form[name := value];
    if name == "destination_id" && !packageLocked then f["package_id" := ""] else f
  }

  /** The edit sets its input and touches no other input but the package,
      which it clears exactly when the destination changes and the package
      is not preset. */
  lemma ChangedFields(form: map<string, string>, name: string, value: string, packageLocked: bool)
    requires name in form && "package_id" in form
    ensures var f := Changed(form, name, value, packageLocked);
      && f.Keys == form.Keys
      && f[name] == value
      && (forall k :: k in form && k != name && k != "package_id" ==> f[k] == form[k])
      && (name != "package_id" ==>
            f["package_id"] == if name == "destination_id" && !packageLocked then "" else form["package_id"])
  {
  }

  /** `form.x ? Number(form.x) : null`. */
  function NumberOrNullText(s: string): (r: JsValue)
    ensures r == Null <==> s == ""
    ensures s != "" ==> r == Num(StringToNumber(s))
  {
    if s != "" then Num(StringToNumber(s)) else Null
  }

  /** The inputs as strings, as `{ ...form }` spreads them. */
  function AsStrings(form: map<string, string>): (o: Object)
    ensures o.Keys == form.Keys
  {
    map k | k in form :: Str(form[k])
  }

  /** `{ ...form, travellers: c(form.travellers), budget: ..., destination_id:
      ..., package_id: ... }`, with `c` the coercion of a numeric input. */
  function WithNumbers(form: map<string, string>, c: string -> JsValue): (p: Object)
  {
    AsStrings(form)
      ["travellers" := c(Field(form, "travellers"))]
      ["budget" := c(Field(form, "budget"))]
      ["destination_id" := c(Field(form, "destination_id"))]
      ["package_id" := c(Field(form, "package_id"))]
  }

  /** The body keeps every input, the numeric ones coerced and the others
      as the strings they hold. */
  lemma WithNumbersFields(form: map<string, string>, c: string -> JsValue, k: string)
    ensures WithNumbers(form, c).Keys == form.Keys + NumericFields
    ensures k in NumericFields ==> Get(WithNumbers(form, c), k) == c(Field(form, k))
    ensures k !in NumericFields ==> Get(WithNumbers(form, c), k) == Get(AsStrings(form), k)
    ensures k in form ==> Get(AsStrings(form), k) == Str(form[k])
  {
  }

  /** The submitted body as the page builds it: the form, with the four
      numeric inputs as numbers, or null when empty. */
  function SubmitPayloadAsWritten(form: map<string, string>): Object {
    WithNumbers(form, NumberOrNullText)
  }

  /** `form.x ? Number(form.x) : form.x`: an empty numeric input is sent as
      the empty string, which the server reads as not given. */
  function NumberOrEmptyText(s: string): (r: JsValue)
    ensures r == Str("") <==> s == ""
    ensures s != "" ==> r == Num(StringToNumber(s))
  {
    if s != "" then Num(StringToNumber(s)) else Str("")
  }

  /** The corrected body, with empty numeric inputs sent as `""`; the page
      itself sends `SubmitPayloadAsWritten`. */
  function SubmitPayload(form: map<string, string>): Object {
    WithNumbers(form, NumberOrEmptyText)
  }

  /** A numeric input that holds a positive whole number in digits. */
  predicate PositiveDigits(s: string) {
    |s| > 0 && AllDigits(s) && DigitsValue(s) >= 1
  }

  /** What the server makes of a positive whole number the page sends. */
  lemma PositiveNumberPasses(s: string)
    requires PositiveDigits(s)
    ensures var v := Num(StringToNumber(s));
      LeadIntake.TravellersOk(v) && LeadIntake.BudgetOk(v) && LeadIntake.IdOk(v)
  {
    DigitsReadAsInteger(s);
    var k := DigitsValue(s);
    assert StringToNumber(s) == Finite(k, 0);
    assert IsInteger(FromInt(k)) && IntValue(FromInt(k)) == k;
  }

  /** The lead endpoint refuses a body with a name and a phone whose
      travellers field is null. */
  lemma NullTravellersRefused(body: Object)
    requires Truthy(Get(body, "full_name")) && Truthy(Get(body, "phone"))
    requires Get(body, "travellers") == Null
    ensures LeadIntake.FirstFailure(body) == Some(LeadIntake.BadTravellers)
  {
    assert !LeadIntake.TravellersOk(Null);
  }

  /** As written, a form sent with the travellers input empty is refused by
      the lead endpoint, whatever else it holds. */
  lemma EmptyTravellersRefused(form: map<string, string>)
    requires Field(form, "full_name") != "" && Field(form, "phone") != ""
    requires Field(form, "travellers") == ""
    ensures LeadIntake.FirstFailure(SubmitPayloadAsWritten(form)) == Some(LeadIntake.BadTravellers)
  {
    TextFieldTruthy(form, NumberOrNullText, "full_name");
    TextFieldTruthy(form, NumberOrNullText, "phone");
    WithNumbersFields(form, NumberOrNullText, "travellers");
    NullTravellersRefused(SubmitPayloadAsWritten(form));
  }

  /** An input that is empty or holds a positive whole number passes the
      endpoint's numeric checks once sent with empty as `""`. */
  lemma EmptyOrNumberPasses(s: string)
    requires NumberInput(s)
    ensures var v := NumberOrEmptyText(s);
      LeadIntake.TravellersOk(v) && LeadIntake.BudgetOk(v) && LeadIntake.IdOk(v)
  {
    if s != "" {
      PositiveNumberPasses(s);
    }
  }

  /** A text input that is not empty is sent as a truthy string. */
  lemma TextFieldTruthy(form: map<string, string>, c: string -> JsValue, k: string)
    requires k !in NumericFields && Field(form, k) != ""
    ensures Truthy(Get(WithNumbers(form, c), k))
  {
    WithNumbersFields(form, c, k);
  }

  /** A numeric input that is empty or a positive whole number passes the
      endpoint's checks once sent with empty as `""`. */
  lemma NumericFieldPasses(form: map<string, string>, k: string)
    requires k in NumericFields && NumberInput(Field(form, k))
    ensures var v := Get(SubmitPayload(form), k);
      LeadIntake.TravellersOk(v) && LeadIntake.BudgetOk(v) && LeadIntake.IdOk(v)
  {
    WithNumbersFields(form, NumberOrEmptyText, k);
    EmptyOrNumberPasses(Field(form, k));
  }

  /** The endpoint's store-free checks on a body whose fields pass them one
      by one. */
  lemma ChecksPass(body: Object)
    requires Truthy(Get(body, "full_name")) && Truthy(Get(body, "phone"))
    requires LeadIntake.TravellersOk(Get(body, "travellers")) && LeadIntake.BudgetOk(Get(body, "budget"))
    requires LeadIntake.IdOk(Get(body, "destination_id")) && LeadIntake.IdOk(Get(body, "package_id"))
    ensures LeadIntake.FirstFailure(body) == None
  {
  }

  /** A numeric input the endpoint accepts once sent: empty, or a positive
      whole number in digits. */
  predicate NumberInput(s: string) {
    s == "" || PositiveDigits(s)
  }

  /** With empty inputs sent as `""`, a form with a name and a phone whose
      numeric inputs are each empty or a positive whole number passes every
      check of the lead endpoint that needs no store. */
  lemma SubmitPayloadPasses(form: map<string, string>)
    requires Field(form, "full_name") != "" && Field(form, "phone") != ""
    requires NumberInput(Field(form, "travellers")) && NumberInput(Field(form, "budget"))
    requires NumberInput(Field(form, "destination_id")) && NumberInput(Field(form, "package_id"))
    ensures LeadIntake.FirstFailure(SubmitPayload(form)) == None
  {
    TextFieldTruthy(form, NumberOrEmptyText, "full_name");
    TextFieldTruthy(form, NumberOrEmptyText, "phone");
    NumericFieldPasses(form, "travellers");
    NumericFieldPasses(form, "budget");
    NumericFieldPasses(form, "destination_id");
    NumericFieldPasses(form, "package_id");
    ChecksPass(SubmitPayload(form));
  }

  /** The fresh form of the page with a name and a phone typed in: refused
      as written, accepted with empty inputs sent as `""`. */
  lemma FreshFormSubmission()
    ensures var form := InitialForm(Undefined, Undefined)["full_name" := "Asha"]["phone" := "98765"];
      && LeadIntake.FirstFailure(SubmitPayloadAsWritten(form)) == Some(LeadIntake.BadTravellers)
      && LeadIntake.FirstFailure(SubmitPayload(form)) == None
  {
    var form := InitialForm(Undefined, Undefined)["full_name" := "Asha"]["phone" := "98765"];
    assert Field(form, "travellers") == "";
    EmptyTravellersRefused(form);
    assert Field(form, "budget") == "" && Field(form, "destination_id") == "" && Field(form, "package_id") == "";
    SubmitPayloadPasses(form);
  }

  /** `{ ...initialForm, destination_id: locked ? prev.destination_id : "", ... }`. */
  function ResetForm(prev: map<string, string>, destinationLocked: bool, packageLocked: bool): (f: map<string, string>)
    ensures f.Keys == FormFields
  {
    map k | k in FormFields ::
      if k == "destination_id" then (if destinationLocked then Field(prev, k) else "")
      else if k == "package_id" then (if packageLocked then Field(prev, k) else "")
      else ""
  }

  /** After a successful submission the form is as the page opened it:
      the preset inputs still hold their presets, every other input is
      empty. */
  lemma ResetRestoresInitial(form: map<string, string>, presetDestinationId: JsValue, presetPackageId: JsValue)
    requires form.Keys == FormFields
    requires Truthy(presetDestinationId) ==> form["destination_id"] == PresetText(presetDestinationId)
    requires Truthy(presetPackageId) ==> form["package_id"] == PresetText(presetPackageId)
    ensures ResetForm(form, Truthy(presetDestinationId), Truthy(presetPackageId))
         == InitialForm(presetDestinationId, presetPackageId)
  {
    var r := ResetForm(form, Truthy(presetDestinationId), Truthy(presetPackageId));
    var i := InitialForm(presetDestinationId, presetPackageId);
    forall k | k in FormFields
      ensures r[k] == i[k]
    {
    }
  }

  /** The API call's outcome: the response's WhatsApp link, or the thrown
      error's message. */
  datatype SubmitResult = Sent(whatsappUrl: JsValue) | Failed(message: string)

  /** `submitError.message || "Failed to submit inquiry."`. */
  function FailureText(message: string): (r: string)
    ensures r != ""
    ensures message != "" ==> r == message
  {
    if message != "" then message else SubmitFailed
  }

  /** The form's state. */
  class LeadFormState {
    const presetDestinationId: JsValue
    const presetPackageId: JsValue
    var form: map<string, string>
    var submitting: bool
    var feedback: string
    var error: string

    /** Every input is present, and a preset destination or package keeps
        its preset value: its select is disabled. */
    ghost predicate Valid()
      reads this
    {
      && form.Keys == FormFields
      && (Truthy(presetDestinationId) ==> form["destination_id"] == PresetText(presetDestinationId))
      && (Truthy(presetPackageId) ==> form["package_id"] == PresetText(presetPackageId))
    }

    constructor (presetDestinationId: JsValue, presetPackageId: JsValue)
      ensures Valid()
      ensures this.presetDestinationId == presetDestinationId && this.presetPackageId == presetPackageId
      ensures form == InitialForm(presetDestinationId, presetPackageId)
      ensures !submitting && feedback == "" && error == ""
    {
      this.presetDestinationId := presetDestinationId;
      this.presetPackageId := presetPackageId;
      form := InitialForm(presetDestinationId, presetPackageId);
      submitting := false;
      feedback := "";
      error := "";
    }

    /** The inputs the user can edit: a preset select is disabled. */
    predicate Editable(name: string)
      reads this
    {
      && name in FormFields
      && !(name == "destination_id" && Truthy(presetDestinationId))
      && !(name == "package_id" && Truthy(presetPackageId))
    }

    /** `onChange`. */
    method OnChange(name: string, value: string)
      requires Valid() && Editable(name)
      modifies this
      ensures Valid()
      ensures form == Changed(old(form), name, value, Truthy(presetPackageId))
      ensures submitting == old(submitting) && feedback == old(feedback) && error == old(error)
    {
      var next := form[name := value];
      if name == "destination_id" && !Truthy(presetPackageId) {
        next := next["package_id" := ""];
      }
      form := next;
    }

    /** The reset after a successful submission: the locked inputs keep
        their values, the others are emptied. */
    method ClearForm()
      requires Valid()
      modifies this
      ensures form == InitialForm(presetDestinationId, presetPackageId)
      ensures submitting == old(submitting) && feedback == old(feedback) && error == old(error)
    {
      ResetRestoresInitial(form, presetDestinationId, presetPackageId);
      form := ResetForm(form, Truthy(presetDestinationId), Truthy(presetPackageId));
    }

    /** `onSubmit`: sends the payload; on success opens the link when there
        is one and resets the form to how the page opened; on failure keeps
        the form and shows the error. */
    method OnSubmit(result: SubmitResult) returns (payload: Object, link: Option<JsValue>)
      requires Valid()
      modifies this
      ensures Valid()
      ensures payload == SubmitPayloadAsWritten(old(form))
      ensures result.Sent? ==>
                && form == InitialForm(presetDestinationId, presetPackageId)
                && feedback == Saved && error == ""
                && link == (if Truthy(result.whatsappUrl) then Some(result.whatsappUrl) else None)
      ensures result.Failed? ==>
                form == old(form) && feedback == "" && error == FailureText(result.message) && link == None
      ensures !submitting
    {
      payload := SubmitPayloadAsWritten(form);
      submitting, feedback, error := true, "", "";
      link := None;
      match result {
        case Sent(url) =>
          feedback := Saved;
          if Truthy(url) {
            link := Some(url);
          }
          ClearForm();
        case Failed(message) =>
          error := FailureText(message);
      }
      submitting := false;
    }
  }
}
