/** Lead intake (server/src/controllers/public/leadController.js): an
    ordered chain of checks, referential checks against the destination and
    package tables, the inserted row, and the WhatsApp message built from it. */
module LeadIntake {
  import opened Options
  import opened Text
  import opened JsNumbers
  import opened JsValues
  import opened Helpers
  import opened Store

  const NameAndPhoneRequired: string := "full_name and phone are required."
  const BadTravellers: string := "travellers must be a positive integer."
  const BadBudget: string := "budget must be a positive number."
  const BadDestinationId: string := "destination_id must be a positive integer."
  const BadPackageId: string := "package_id must be a positive integer."
  const NoSuchDestination: string := "Selected destination does not exist."
  const NoSuchPackage: string := "Selected package does not exist."
  const PackageElsewhere: string := "Selected package does not belong to selected destination."

  /** A field the client left out: `undefined` or `""`. */
  predicate Absent(v: JsValue) {
    v == Undefined || v == Str("")
  }

  /** `travellers ? Number(travellers) : null` must be an integer above 0
      unless the field is absent. */
  predicate TravellersOk(v: JsValue) {
    Absent(v) || (var n := NumberOrNull(v); n.Num? && IsInteger(n.n) && IntValue(n.n) > 0)
  }

  /** `budget ? Number(budget) : null` must be a finite number of at least 0
      unless the field is absent. */
  predicate BudgetOk(v: JsValue) {
    Absent(v) || (var n := NumberOrNull(v); n.Num? && n.n.Finite? && !IsNegative(n.n))
  }

  /** An id field must parse to a positive integer unless it is absent. */
  predicate IdOk(v: JsValue) {
    Absent(v) || ParseOptionalInteger(v).Some?
  }

  /** The checks that need no store, in the order they run: the message of
      the first that fails. */
  function FirstFailure(body: Object): (r: Option<string>)
    ensures r.None? <==>
      && Truthy(Get(body, "full_name")) && Truthy(Get(body, "phone"))
      && TravellersOk(Get(body, "travellers")) && BudgetOk(Get(body, "budget"))
      && IdOk(Get(body, "destination_id")) && IdOk(Get(body, "package_id"))
  {
    if !Truthy(Get(body, "full_name")) || !Truthy(Get(body, "phone")) then Some(NameAndPhoneRequired)
    else if !TravellersOk(Get(body, "travellers")) then Some(BadTravellers)
    else if !BudgetOk(Get(body, "budget")) then Some(BadBudget)
    else if !IdOk(Get(body, "destination_id")) then Some(BadDestinationId)
    else if !IdOk(Get(body, "package_id")) then Some(BadPackageId)
    else None
  }

  function OptionalId(r: Option<int>): JsValue {
    match r
    case None => Null
    case Some(i) => IntValueOf(i)
  }

  /** `v ? String(v).trim() : null`. */
  function TrimmedOrNull(v: JsValue): (r: JsValue)
    ensures r == Null <==> !Truthy(v)
    ensures r.Str? ==> IsTrimmed(r.s)
  {
    if Truthy(v) then Str(Trim(ToText(v))) else Null
  }

  /** The columns of the row `submitLead` inserts. */
  const LeadColumns: set<string> := {
    "full_name", "phone", "email", "preferred_travel_date", "travellers",
    "budget", "destination_id", "package_id", "message", "source", "status"}

  /** The value the payload gives one column, from the request body. */
  function LeadColumn(body: Object, k: string): JsValue {
    if k == "source" then Str("website")
    else if k == "status" then Str("new")
    else if k == "full_name" || k == "phone" then Str(Trim(ToText(Get(body, k))))
    else if k == "email" || k == "message" then TrimmedOrNull(Get(body, k))
    else if k == "preferred_travel_date" then Or(Get(body, k), Null)
    else if k == "travellers" || k == "budget" then NumberOrNull(Get(body, k))
    else OptionalId(ParseOptionalInteger(Get(body, k)))
  }

  /** The row `submitLead` inserts: every column is written, absent
      optional ones as null. */
  function LeadPayload(body: Object): (r: Object)
    ensures r.Keys == LeadColumns
  {
    map k | k in LeadColumns :: LeadColumn(body, k)
  }

  // -----------------------------------------------------------------------
  // The message

  /** `${v || fallback}`. */
  function OrText(v: JsValue, fallback: string): string {
    ToText(Or(v, Str(fallback)))
  }

  /** The eleven lines of the WhatsApp message, in order. */
  function MessageLines(lead: Object, destinationName: JsValue, packageName: JsValue): (lines: seq<string>)
    ensures |lines| == 11
  {
    var budget := Get(lead, "budget");
    [ "New Travel Inquiry",
      "Lead ID: " + ToText(Get(lead, "id")),
      "Name: " + ToText(Get(lead, "full_name")),
      "Phone: " + ToText(Get(lead, "phone")),
      "Email: " + OrText(Get(lead, "email"), "Not provided"),
      "Destination: " + OrText(destinationName, "Not selected"),
      "Package: " + OrText(packageName, "Not selected"),
      "Travel Date: " + OrText(Get(lead, "preferred_travel_date"), "Flexible"),
      "Travellers: " + OrText(Get(lead, "travellers"), "Not provided"),
      "Budget: " + (if Truthy(budget) then "INR " + ToText(budget) else "Not provided"),
      "Message: " + OrText(Get(lead, "message"), "No additional message") ]
  }

  function MessageText(lead: Object, destinationName: JsValue, packageName: JsValue): string {
    Join(MessageLines(lead, destinationName, packageName), "\n")
  }

  /** The `name` of the row a post-insert lookup finds; a failed or skipped
      lookup finds nothing, and its error is ignored. */
  function NameOf(rows: seq<Row>, id: Option<int>, failed: bool): JsValue {
    if id.None? || failed then Undefined
    else match Find(rows, FromInt(id.value))
      case None => Undefined
      case Some(r) => Get(r.cols, "name")
  }

  // -----------------------------------------------------------------------
  // The handler as a specification

  /** The referential checks: the destination must exist, the package must
      exist, and when both are given the package must belong to the
      destination. The message of the first failure, if any. */
  function ReferenceFailure(t: Tables, dest: Option<int>, pkg: Option<int>): Option<string>
  {
    if dest.Some? && Find(t.destinations, FromInt(dest.value)).None? then Some(NoSuchDestination)
    else if pkg.Some? && Find(t.packages, FromInt(pkg.value)).None? then Some(NoSuchPackage)
    else if pkg.Some? && dest.Some?
            && !SameNumber(ToNumber(Get(Find(t.packages, FromInt(pkg.value)).value.cols, "destination_id")), FromInt(dest.value))
    then Some(PackageElsewhere)
    else None
  }

  /** `submitLead`, with the configured WhatsApp number and
      `encodeURIComponent` passed in. */
  function SubmitLeadSpec(t: Tables, body: Object, whatsappNumber: JsValue, encode: string -> string, faults: Faults): Outcome
  {
    match FirstFailure(body)
    case Some(message) => Outcome(ErrorResponse(400, message), t)
    case None =>
      match LookupStep(t, ParseOptionalInteger(Get(body, "destination_id")), ParseOptionalInteger(Get(body, "package_id")), faults)
      case Some(response) => Outcome(response, t)
      case None =>
        if InsertRow in faults then Outcome(ErrorResponse(500, faults[InsertRow]), t)
        else InsertStep(t, body, whatsappNumber, encode, faults)
  }

  /** The two lookups before the insert: a failed lookup is a 500 with its
      message, a failed referential check a 400; nothing means go on. */
  function LookupStep(t: Tables, dest: Option<int>, pkg: Option<int>, faults: Faults): (r: Option<Response>)
    ensures r.Some? ==> r.value.status == 400 || r.value.status == 500
  {
    if dest.Some? && LookupDestination in faults then Some(ErrorResponse(500, faults[LookupDestination]))
    else if dest.Some? && Find(t.destinations, FromInt(dest.value)).None? then Some(ErrorResponse(400, NoSuchDestination))
    else if pkg.Some? && LookupPackage in faults then Some(ErrorResponse(500, faults[LookupPackage]))
    else match ReferenceFailure(t, dest, pkg)
      case Some(message) => Some(ErrorResponse(400, message))
      case None => None
  }

  /** The lead row an accepted request inserts, under the next serial id. */
  function NewLead(t: Tables, body: Object): Row {
    Row(t.nextLead, LeadPayload(body))
  }

  /** The tables after the insert. */
  function Inserted(t: Tables, body: Object): Tables {
    t.(leads := [NewLead(t, body)] + t.leads, nextLead := t.nextLead + 1)
  }

  /** The message built from the stored lead and the names the two lookups
      after the insert find. */
  function LeadText(t: Tables, body: Object, faults: Faults): string {
    var after := Inserted(t, body);
    MessageText(AsObject(NewLead(t, body)),
                NameOf(after.destinations, ParseOptionalInteger(Get(body, "destination_id")), DestinationName in faults),
                NameOf(after.packages, ParseOptionalInteger(Get(body, "package_id")), PackageName in faults))
  }

  /** The insert, the name lookups (whose errors are ignored) and the 201. */
  function InsertStep(t: Tables, body: Object, whatsappNumber: JsValue, encode: string -> string, faults: Faults): Outcome
  {
    Outcome(Created(AsObject(NewLead(t, body)), whatsappNumber, LeadText(t, body, faults), encode), Inserted(t, body))
  }

  /** The 201 body: the stored lead, the link and the message preview. */
  function Created(lead: Object, whatsappNumber: JsValue, text: string, encode: string -> string): (r: Response)
    ensures r.status == 201 && r.body.Obj?
    ensures var data := Get(r.body.fields, "data");
      && data.Obj?
      && Get(data.fields, "lead") == Obj(lead)
      && Get(data.fields, "whatsapp_url") == BuildWhatsappUrl(whatsappNumber, text, encode)
      && Get(data.fields, "whatsapp_message_preview") == Str(text)
  {
    DataResponse(201, Obj(map[
      "lead" := Obj(lead),
      "whatsapp_url" := BuildWhatsappUrl(whatsappNumber, text, encode),
      "whatsapp_message_preview" := Str(text)]))
  }

  // -----------------------------------------------------------------------
  // Properties

  /** A falsy name or phone is a 400 before any other check or store call,
      whatever the store would answer. */
  lemma NameAndPhoneFirst(t: Tables, body: Object, n: JsValue, e: string -> string, faults: Faults)
    requires !Truthy(Get(body, "full_name")) || !Truthy(Get(body, "phone"))
    ensures SubmitLeadSpec(t, body, n, e, faults) == Outcome(ErrorResponse(400, NameAndPhoneRequired), t)
  {
  }

  /** The travellers check as written refuses 0, -1, 2.5 and null. */
  lemma TravellersRefused()
    ensures !TravellersOk(IntValueOf(0)) && !TravellersOk(IntValueOf(-1))
    ensures !TravellersOk(Null) && !TravellersOk(Num(Finite(25, 1)))
  {
  }

  /** The text "0" is read as the number 0 and refused too. */
  lemma TravellersZeroText()
    ensures !TravellersOk(Str("0"))
  {
    DigitsReadAsInteger("0");
  }

  /** The number 3 and the text "3" pass the travellers check. */
  lemma TravellersAccepted()
    ensures TravellersOk(Str("3")) && TravellersOk(IntValueOf(3))
  {
    DigitsReadAsInteger("3");
  }

  /** The budget check as written refuses the number 0, null and -5. */
  lemma BudgetRefused()
    ensures !BudgetOk(IntValueOf(0)) && !BudgetOk(Null) && !BudgetOk(IntValueOf(-5))
  {
  }

  /** The text "0" passes the budget check and is stored as 0, while the
      number 0 does not. */
  lemma BudgetZeroText()
    ensures BudgetOk(Str("0")) && NumberOrNull(Str("0")) == IntValueOf(0)
  {
    DigitsReadAsInteger("0");
  }

  /** An explicit null or 0 id is refused. */
  lemma IdEdgeCases()
    ensures !IdOk(Null) && !IdOk(IntValueOf(0)) && IdOk(IntValueOf(7))
  {
  }

  /** Each store-free check decides the answer when it is the first to fail. */
  lemma ChecksInOrder(t: Tables, body: Object, n: JsValue, e: string -> string, faults: Faults)
    requires Truthy(Get(body, "full_name")) && Truthy(Get(body, "phone"))
    ensures var r := SubmitLeadSpec(t, body, n, e, faults);
      && (!TravellersOk(Get(body, "travellers")) ==> r == Outcome(ErrorResponse(400, BadTravellers), t))
      && (TravellersOk(Get(body, "travellers")) && !BudgetOk(Get(body, "budget")) ==>
            r == Outcome(ErrorResponse(400, BadBudget), t))
      && ((TravellersOk(Get(body, "travellers")) && BudgetOk(Get(body, "budget"))
           && !IdOk(Get(body, "destination_id"))) ==>
            r == Outcome(ErrorResponse(400, BadDestinationId), t))
      && ((TravellersOk(Get(body, "travellers")) && BudgetOk(Get(body, "budget"))
           && IdOk(Get(body, "destination_id")) && !IdOk(Get(body, "package_id"))) ==>
            r == Outcome(ErrorResponse(400, BadPackageId), t))
  {
  }

  /** A destination or package that does not exist, or a package of another
      destination, is a 400 and nothing is inserted. */
  lemma ReferencesChecked(t: Tables, body: Object, n: JsValue, e: string -> string, faults: Faults)
    requires FirstFailure(body).None?
    requires LookupDestination !in faults && LookupPackage !in faults
    requires ReferenceFailure(t, ParseOptionalInteger(Get(body, "destination_id")),
                              ParseOptionalInteger(Get(body, "package_id"))).Some?
    ensures var r := SubmitLeadSpec(t, body, n, e, faults);
      && r.response.status == 400
      && r.after == t
  {
  }

  /** An inserted lead always has source "website" and status "new". */
  lemma LeadRowFixed(body: Object)
    ensures LeadPayload(body)["source"] == Str("website")
    ensures LeadPayload(body)["status"] == Str("new")
  {
  }

  /** Name and phone are stored as trimmed text. */
  lemma LeadRowNameAndPhone(body: Object)
    ensures var lead := LeadPayload(body);
      && lead["full_name"].Str? && IsTrimmed(lead["full_name"].s)
      && lead["phone"].Str? && IsTrimmed(lead["phone"].s)
  {
  }

  /** Email and message are trimmed text or null, and the travel date is
      null, exactly when the client sent a falsy value. */
  lemma LeadRowOptional(body: Object)
    ensures var lead := LeadPayload(body);
      && (lead["email"] == Null <==> !Truthy(Get(body, "email")))
      && (lead["message"] == Null <==> !Truthy(Get(body, "message")))
      && (lead["preferred_travel_date"] == Null <==> !Truthy(Get(body, "preferred_travel_date")))
  {
  }

  /** A request that passes every check and meets no fault reaches the
      insert. */
  lemma AcceptedIsInsert(t: Tables, body: Object, n: JsValue, e: string -> string, faults: Faults)
    requires FirstFailure(body).None?
    requires LookupDestination !in faults && LookupPackage !in faults && InsertRow !in faults
    requires ReferenceFailure(t, ParseOptionalInteger(Get(body, "destination_id")),
                              ParseOptionalInteger(Get(body, "package_id"))).None?
    ensures SubmitLeadSpec(t, body, n, e, faults) == InsertStep(t, body, n, e, faults)
  {
  }

  /** Every request either changes nothing or inserts exactly the new lead
      row under the next serial id, in front of the older leads; the
      second happens exactly when the answer is 201, and the tables stay
      well formed (so that id was fresh). */
  lemma LeadStored(t: Tables, body: Object, n: JsValue, e: string -> string, faults: Faults)
    requires GoodTables(t)
    ensures var r := SubmitLeadSpec(t, body, n, e, faults);
      && (r.response.status == 201 ==> r.after == Inserted(t, body))
      && (r.response.status != 201 ==> r.after == t)
      && GoodTables(r.after)
  {
    var dest := ParseOptionalInteger(Get(body, "destination_id"));
    var pkg := ParseOptionalInteger(Get(body, "package_id"));
    if FirstFailure(body).None? && LookupStep(t, dest, pkg, faults).None? && InsertRow !in faults {
      assert SubmitLeadSpec(t, body, n, e, faults) == InsertStep(t, body, n, e, faults);
      InsertStepFacts(t, body, n, e, faults);
    }
  }

  /** The insert step answers 201 and leaves the tables well formed. */
  lemma InsertStepFacts(t: Tables, body: Object, n: JsValue, e: string -> string, faults: Faults)
    requires GoodTables(t)
    ensures var o := InsertStep(t, body, n, e, faults);
      && o.response.status == 201 && o.after == Inserted(t, body) && GoodTables(Inserted(t, body))
  {
    InsertKeepsTable(t.leads, t.nextLead, LeadPayload(body));
  }

  /** An accepted lead is answered with 201, and the WhatsApp link is
      built from the message preview sent beside it. */
  lemma LeadAnswered(t: Tables, body: Object, n: JsValue, e: string -> string, faults: Faults)
    requires FirstFailure(body).None?
    requires LookupDestination !in faults && LookupPackage !in faults && InsertRow !in faults
    requires ReferenceFailure(t, ParseOptionalInteger(Get(body, "destination_id")),
                              ParseOptionalInteger(Get(body, "package_id"))).None?
    ensures var r := SubmitLeadSpec(t, body, n, e, faults);
      && r.response.status == 201
      && var data := Get(r.response.body.fields, "data");
         var preview := Get(data.fields, "whatsapp_message_preview");
         && data.Obj? && preview.Str?
         && Get(data.fields, "whatsapp_url") == BuildWhatsappUrl(n, preview.s, e)
  {
    AcceptedIsInsert(t, body, n, e, faults);
  }

  /** The destination, package and budget lines show the value when it is
      truthy and their fallback text otherwise. */
  lemma MessageFallbacks(lead: Object, d: JsValue, p: JsValue)
    ensures var lines := MessageLines(lead, d, p);
      && |lines| == 11 && lines[0] == "New Travel Inquiry"
      && lines[5] == "Destination: " + (if Truthy(d) then ToText(d) else "Not selected")
      && lines[6] == "Package: " + (if Truthy(p) then ToText(p) else "Not selected")
      && lines[9] == "Budget: " + (if Truthy(Get(lead, "budget")) then "INR " + ToText(Get(lead, "budget")) else "Not provided")
  {
  }

  /** When no line holds a line break, splitting the preview on line
      breaks gives back the eleven lines. */
  lemma MessageRoundTrip(lead: Object, d: JsValue, p: JsValue)
    requires var lines := MessageLines(lead, d, p);
      forall i :: 0 <= i < |lines| ==> '\n' !in lines[i]
    ensures Split(MessageText(lead, d, p), '\n') == MessageLines(lead, d, p)
  {
    SplitJoin(MessageLines(lead, d, p), '\n');
  }

  // -----------------------------------------------------------------------
  // The handler

  method SubmitLead(db: Database, body: Object, whatsappNumber: JsValue, encode: string -> string, faults: Faults)
    returns (res: Response)
    requires db.Valid()
    modifies db
    ensures db.Valid()
    ensures Outcome(res, db.Snapshot()) == SubmitLeadSpec(old(db.Snapshot()), body, whatsappNumber, encode, faults)
  {
    var failure := FirstFailure(body);
    if failure.Some? {
      return ErrorResponse(400, failure.value);
    }
    var lookup := CheckReferences(db, ParseOptionalInteger(Get(body, "destination_id")),
                                  ParseOptionalInteger(Get(body, "package_id")), faults);
    if lookup.Some? {
      return lookup.value;
    }
    if InsertRow in faults {
      return ErrorResponse(500, faults[InsertRow]);
    }
    res := InsertAndAnswer(db, body, whatsappNumber, encode, faults);
  }

  /** The destination and package lookups and the checks on what they
      find. */
  method CheckReferences(db: Database, dest: Option<int>, pkg: Option<int>, faults: Faults)
    returns (failure: Option<Response>)
    ensures failure == LookupStep(db.Snapshot(), dest, pkg, faults)
  {
    if dest.Some? {
      if LookupDestination in faults {
        return Some(ErrorResponse(500, faults[LookupDestination]));
      }
      if Find(db.destinations, FromInt(dest.value)).None? {
        return Some(ErrorResponse(400, NoSuchDestination));
      }
    }
    if pkg.Some? {
      if LookupPackage in faults {
        return Some(ErrorResponse(500, faults[LookupPackage]));
      }
      var selected := Find(db.packages, FromInt(pkg.value));
      if selected.None? {
        return Some(ErrorResponse(400, NoSuchPackage));
      }
      if dest.Some? && !SameNumber(ToNumber(Get(selected.value.cols, "destination_id")), FromInt(dest.value)) {
        return Some(ErrorResponse(400, PackageElsewhere));
      }
    }
    return None;
  }

  /** The insert, the two name lookups and the 201 answer. */
  method InsertAndAnswer(db: Database, body: Object, whatsappNumber: JsValue, encode: string -> string, faults: Faults)
    returns (res: Response)
    requires db.Valid()
    modifies db
    ensures db.Valid()
    ensures Outcome(res, db.Snapshot()) == InsertStep(old(db.Snapshot()), body, whatsappNumber, encode, faults)
  {
    ghost var t := db.Snapshot();
    var row := db.InsertLead(LeadPayload(body));
    assert row == NewLead(t, body) && db.Snapshot() == Inserted(t, body);

    var destinationName := NameOf(db.destinations, ParseOptionalInteger(Get(body, "destination_id")), DestinationName in faults);
    var packageName := NameOf(db.packages, ParseOptionalInteger(Get(body, "package_id")), PackageName in faults);
    var text := MessageText(AsObject(row), destinationName, packageName);
    assert text == LeadText(t, body, faults);
    return Created(AsObject(row), whatsappNumber, text, encode);
  }
}
